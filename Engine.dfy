/**
 * The calculator engine object: the token stack, the operator registry and the
 * variable table, and the operations a user interface calls on it.
 */
module Engine {
  import opened Ops
  import Reducers

  class CalculatorModel {
    /** Tokens in the order they were entered; only appended to, popped from the end, or emptied. */
    var opStack: seq<Op>
    /** Operator symbol to token, filled once at construction. */
    var knownOps: map<string, Op>
    /** Variable symbol to value, read and written directly by the user interface. */
    var variableValues: map<string, real>
    /** The platform's floating-point primitives. */
    const numerics: Numerics

    /** The registry holds exactly the nine operators learned at construction. */
    ghost predicate Valid()
      reads this
    {
      knownOps == Registry()
    }

    constructor (numerics: Numerics)
      ensures Valid()
      ensures opStack == [] && variableValues == map[] && this.numerics == numerics
    {
      this.numerics := numerics;
      opStack := [];
      knownOps := map[];
      variableValues := map[];
      new;
      knownOps := Learn(knownOps, BinaryOperation("×", Times), numerics.show);
      knownOps := Learn(knownOps, BinaryOperation("÷", Divide), numerics.show);
      knownOps := Learn(knownOps, BinaryOperation("+", Plus), numerics.show);
      knownOps := Learn(knownOps, BinaryOperation("−", Minus), numerics.show);
      knownOps := Learn(knownOps, UnaryOperation("√", Sqrt), numerics.show);
      knownOps := Learn(knownOps, UnaryOperation("cos", Cos), numerics.show);
      knownOps := Learn(knownOps, UnaryOperation("sin", Sin), numerics.show);
      knownOps := Learn(knownOps, UnaryOperation("±", Negate), numerics.show);
      knownOps := Learn(knownOps, Constant("π", Pi), numerics.show);
      LearnedRegistry(numerics.show);
    }

    /** The value of the whole stack, read from its end; the remainder is dropped. */
    method Evaluate() returns (result: Option<real>)
      ensures result == Reducers.Evaluate(opStack, variableValues, numerics).result
      ensures opStack == [] ==> result == None
    {
      var evaluation := Reducers.Evaluate(opStack, variableValues, numerics);
      result := evaluation.result;
    }

    method Clear()
      modifies this`opStack
      ensures opStack == []
      ensures variableValues == old(variableValues)
    {
      opStack := [];
    }

    method Undo() returns (result: Option<real>)
      modifies this`opStack
      ensures opStack == if old(opStack) == [] then [] else old(opStack)[..|old(opStack)| - 1]
      ensures old(opStack) != [] ==> old(opStack) == opStack + [old(opStack)[|old(opStack)| - 1]]
      ensures result == Reducers.Evaluate(opStack, variableValues, numerics).result
      ensures old(opStack) == [] ==> result == None
    {
      if opStack != [] {
        opStack := opStack[..|opStack| - 1];
      }
      result := Evaluate();
    }

    method PushOperand(operand: real) returns (result: Option<real>)
      modifies this`opStack
      ensures opStack == old(opStack) + [Operand(operand)]
      ensures result == Reducers.Evaluate(opStack, variableValues, numerics).result
      ensures result == Some(operand)
    {
      opStack := opStack + [Operand(operand)];
      result := Evaluate();
      Reducers.EvaluateOperandOnTop(old(opStack), operand, variableValues, numerics);
    }

    /** The `pushOperand(symbol:)` overload: pushes a reference to a variable. */
    method PushVariable(symbol: string) returns (result: Option<real>)
      modifies this`opStack
      ensures opStack == old(opStack) + [Variable(symbol)]
      ensures result == Reducers.Evaluate(opStack, variableValues, numerics).result
      ensures result == Lookup(variableValues, symbol)
    {
      opStack := opStack + [Variable(symbol)];
      result := Evaluate();
      Reducers.EvaluateVariableOnTop(old(opStack), symbol, variableValues, numerics);
    }

    /** Pushes the registered operator `symbol`; an unknown symbol leaves the stack alone. */
    method PerformOperation(symbol: string) returns (result: Option<real>)
      requires Valid()
      modifies this`opStack
      ensures Valid()
      ensures symbol in Registry() ==> opStack == old(opStack) + [Registry()[symbol]]
      ensures symbol !in Registry() ==> opStack == old(opStack)
      ensures result == Reducers.Evaluate(opStack, variableValues, numerics).result
    {
      if symbol in knownOps {
        opStack := opStack + [knownOps[symbol]];
      }
      result := Evaluate();
    }

    /**
     * The stack as text: one infix expression per independent sub-expression, oldest
     * first, separated by ", "; the empty stack is described as "".
     */
    method Description() returns (s: string)
      ensures s == Reducers.Join(Reducers.Subexpressions(opStack, numerics.show))
      ensures opStack == [] ==> s == ""
    {
      var desc: seq<string> := [];
      var ops := opStack;
      while true
        invariant Reducers.Subexpressions(opStack, numerics.show) ==
                  Reducers.Subexpressions(ops, numerics.show) + Reducers.Reversed(desc)
        decreases |ops|
      {
        var exp := Reducers.Expression(ops, numerics.show);
        if exp.result.Some? {
          Reducers.SubexpressionsStep(ops, desc, numerics.show);
          desc := desc + [exp.result.value];
          ops := exp.remainingOps;
        } else {
          break;
        }
        if ops == [] {
          break;
        }
      }
      assert ops == [];
      var reversed := Reducers.Reversed(desc);
      assert Reducers.Subexpressions(opStack, numerics.show) == reversed;
      var result := "";
      for index := 0 to |reversed|
        invariant result == Reducers.Join(reversed[..index])
      {
        Reducers.JoinStep(reversed, index);
        if index == 0 {
          result := result + reversed[index];
        } else {
          result := result + ", " + reversed[index];
        }
      }
      assert reversed[..|reversed|] == reversed;
      s := result;
    }
  }
}
