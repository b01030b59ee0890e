/**
 * The two recursive reducers of the engine, `evaluate(ops:)` and `expression(ops:)`,
 * and the pieces of the `description` getter.  Both reducers read the token sequence
 * from its end and hand back what they did not consume.
 */
module Reducers {
  import opened Ops

  /** Result of `evaluate(ops:)`: a number or nil, and the tokens left over. */
  datatype Evaluation = Evaluation(result: Option<real>, remainingOps: seq<Op>)

  /** Result of `expression(ops:)`: a text or nil, and the tokens left over. */
  datatype Rendering = Rendering(result: Option<string>, remainingOps: seq<Op>)

  /**
   * Reduces one expression from the end of `ops`.  The remainder is always a prefix
   * of the input, strictly shorter on success; a failure hands back the input itself,
   * except when the failing token is an unset variable, which is still consumed.
   */
  function Evaluate(ops: seq<Op>, vars: map<string, real>, n: Numerics): (r: Evaluation)
    ensures |r.remainingOps| <= |ops|
    ensures r.result.Some? ==> |r.remainingOps| < |ops|
    decreases |ops|
  {
    if ops == [] then Evaluation(None, ops)
    else
      var remainingOps := ops[..|ops| - 1];
      match ops[|ops| - 1]
      case Operand(operand) => Evaluation(Some(operand), remainingOps)
      case Variable(symbol) => Evaluation(Lookup(vars, symbol), remainingOps)
      case Constant(_, kind) => Evaluation(Some(ConstantValue(kind, n)), remainingOps)
      case UnaryOperation(_, kind) =>
        var operandEvaluation := Evaluate(remainingOps, vars, n);
        if operandEvaluation.result.Some? then
          Evaluation(Some(ApplyUnary(kind, n, operandEvaluation.result.value)), operandEvaluation.remainingOps)
        else
          Evaluation(None, ops)
      case BinaryOperation(_, kind) =>
        var operand1Evaluation := Evaluate(remainingOps, vars, n);
        if operand1Evaluation.result.None? then Evaluation(None, ops)
        else
          var operand2Evaluation := Evaluate(operand1Evaluation.remainingOps, vars, n);
          if operand2Evaluation.result.None? then Evaluation(None, ops)
          else
            var operand1, operand2 := operand1Evaluation.result.value, operand2Evaluation.result.value;
            Evaluation(Some(ApplyBinary(kind, n, operand1, operand2)), operand2Evaluation.remainingOps)
  }

  /**
   * What `Evaluate` hands back is always a prefix of its input.  A failure hands back
   * the whole input, except when the failing token is a variable missing from the
   * table, which is consumed.
   */
  lemma {:induction false} EvaluateRemainder(ops: seq<Op>, vars: map<string, real>, n: Numerics)
    ensures var r := Evaluate(ops, vars, n);
      r.remainingOps <= ops
    ensures var r := Evaluate(ops, vars, n);
      r.result.None? && r.remainingOps != ops ==>
        ops != [] && ops[|ops| - 1].Variable? && ops[|ops| - 1].symbol !in vars &&
        r.remainingOps == ops[..|ops| - 1]
    decreases |ops|
  {
    if ops != [] {
      var rest := ops[..|ops| - 1];
      EvaluateRemainder(rest, vars, n);
      var first := Evaluate(rest, vars, n);
      if first.result.Some? && ops[|ops| - 1].BinaryOperation? {
        EvaluateRemainder(first.remainingOps, vars, n);
        PrefixTransitive(Evaluate(first.remainingOps, vars, n).remainingOps, first.remainingOps, rest, ops);
      } else if first.result.Some? && ops[|ops| - 1].UnaryOperation? {
        PrefixTransitive(first.remainingOps, first.remainingOps, rest, ops);
      }
    }
  }

  /** A prefix of a prefix of `ops` without its last token is a prefix of `ops`. */
  lemma PrefixTransitive(a: seq<Op>, b: seq<Op>, rest: seq<Op>, ops: seq<Op>)
    requires a <= b && b <= rest && ops != [] && rest == ops[..|ops| - 1]
    ensures a <= ops
  {
  }

  /**
   * Renders one expression from the end of `ops` as infix text, writing `?` for a
   * missing operand.  It fails only on the empty sequence, and otherwise always
   * consumes at least one token.
   */
  function Expression(ops: seq<Op>, show: real -> string): (r: Rendering)
    ensures |r.remainingOps| <= |ops|
    ensures r.result.Some? <==> ops != []
    ensures ops != [] ==> |r.remainingOps| < |ops|
    decreases |ops|
  {
    if ops == [] then Rendering(None, ops)
    else
      var remainingOps := ops[..|ops| - 1];
      match ops[|ops| - 1]
      case Operand(operand) => Rendering(Some(show(operand)), remainingOps)
      case Variable(symbol) => Rendering(Some(symbol), remainingOps)
      case Constant(symbol, _) => Rendering(Some(symbol), remainingOps)
      case UnaryOperation(symbol, _) =>
        var opExpression := Expression(remainingOps, show);
        if opExpression.result.Some? then
          Rendering(Some(symbol + "(" + opExpression.result.value + ")"), opExpression.remainingOps)
        else
          Rendering(Some(symbol + "(?)"), opExpression.remainingOps)
      case BinaryOperation(symbol, _) =>
        var op1Expression := Expression(remainingOps, show);
        if op1Expression.result.Some? then
          var op1 := op1Expression.result.value;
          var op2Expression := Expression(op1Expression.remainingOps, show);
          if op2Expression.result.Some? then
            Rendering(Some("(" + op2Expression.result.value + symbol + op1 + ")"), op2Expression.remainingOps)
          else
            Rendering(Some("(?" + symbol + op1 + ")"), op2Expression.remainingOps)
        else
          Rendering(Some("(?" + symbol + "?)"), op1Expression.remainingOps)
  }

  /** What `Expression` hands back is always a prefix of its input. */
  lemma {:induction false} ExpressionRemainder(ops: seq<Op>, show: real -> string)
    ensures Expression(ops, show).remainingOps <= ops
    decreases |ops|
  {
    if ops != [] {
      var rest := ops[..|ops| - 1];
      ExpressionRemainder(rest, show);
      var first := Expression(rest, show);
      if ops[|ops| - 1].BinaryOperation? && first.result.Some? {
        ExpressionRemainder(first.remainingOps, show);
        PrefixTransitive(Expression(first.remainingOps, show).remainingOps, first.remainingOps, rest, ops);
      } else if ops[|ops| - 1].UnaryOperation? || ops[|ops| - 1].BinaryOperation? {
        PrefixTransitive(first.remainingOps, first.remainingOps, rest, ops);
      }
    }
  }

  /**
   * The independent expressions on the stack, oldest first: the last one is what
   * `Expression` extracts from the end, the others are those of its remainder.
   */
  function Subexpressions(ops: seq<Op>, show: real -> string): (parts: seq<string>)
    ensures |parts| <= |ops|
    ensures parts == [] <==> ops == []
    decreases |ops|
  {
    if ops == [] then []
    else
      var exp := Expression(ops, show);
      Subexpressions(exp.remainingOps, show) + [exp.result.value]
  }

  /** `parts` separated by ", ". */
  function Join(parts: seq<string>): string
  {
    if parts == [] then ""
    else if |parts| == 1 then parts[0]
    else Join(parts[..|parts| - 1]) + ", " + parts[|parts| - 1]
  }

  /** Swift's `reverse()`. */
  function Reversed<T>(s: seq<T>): (r: seq<T>)
    ensures |r| == |s|
  {
    if s == [] then [] else [s[|s| - 1]] + Reversed(s[..|s| - 1])
  }

  /** Element `i` of the reversed sequence is element `|s| - 1 - i` of the original. */
  lemma {:induction false} ReversedAt<T>(s: seq<T>, i: nat)
    requires i < |s|
    ensures Reversed(s)[i] == s[|s| - 1 - i]
    decreases |s|
  {
    if i > 0 {
      ReversedAt(s[..|s| - 1], i - 1);
    }
  }

  /** One round of the description loop: extract the last expression and move it to the collected texts. */
  lemma SubexpressionsStep(ops: seq<Op>, collected: seq<string>, show: real -> string)
    requires ops != []
    ensures var exp := Expression(ops, show);
      Subexpressions(ops, show) + Reversed(collected) ==
      Subexpressions(exp.remainingOps, show) + Reversed(collected + [exp.result.value])
  {
    var exp := Expression(ops, show);
    assert (collected + [exp.result.value])[..|collected|] == collected;
  }

  /** One round of the joining loop: the next part is appended, after ", " unless it is the first. */
  lemma JoinStep(parts: seq<string>, i: nat)
    requires i < |parts|
    ensures Join(parts[..i + 1]) == if i == 0 then parts[i] else Join(parts[..i]) + ", " + parts[i]
  {
    assert parts[..i + 1][..i] == parts[..i];
  }

  /** The stack tokens `ops` mention the same variables with the same values in both tables. */
  predicate AgreeOnVariables(ops: seq<Op>, vars1: map<string, real>, vars2: map<string, real>)
  {
    forall i :: 0 <= i < |ops| && ops[i].Variable? ==>
      Lookup(vars1, ops[i].symbol) == Lookup(vars2, ops[i].symbol)
  }

  lemma AgreeOnPrefix(p: seq<Op>, ops: seq<Op>, vars1: map<string, real>, vars2: map<string, real>)
    requires p <= ops && AgreeOnVariables(ops, vars1, vars2)
    ensures AgreeOnVariables(p, vars1, vars2)
  {
    assert forall i :: 0 <= i < |p| ==> p[i] == ops[i];
  }

  /** The variable table is read only at the variables the tokens mention. */
  lemma {:induction false} EvaluateReadsOnlyItsVariables(ops: seq<Op>, vars1: map<string, real>, vars2: map<string, real>, n: Numerics)
    requires AgreeOnVariables(ops, vars1, vars2)
    ensures Evaluate(ops, vars1, n) == Evaluate(ops, vars2, n)
    decreases |ops|
  {
    if ops != [] {
      var rest := ops[..|ops| - 1];
      AgreeOnPrefix(rest, ops, vars1, vars2);
      EvaluateReadsOnlyItsVariables(rest, vars1, vars2, n);
      var first := Evaluate(rest, vars1, n);
      if first.result.Some? && ops[|ops| - 1].BinaryOperation? {
        EvaluateRemainder(rest, vars1, n);
        AgreeOnPrefix(first.remainingOps, rest, vars1, vars2);
        EvaluateReadsOnlyItsVariables(first.remainingOps, vars1, vars2, n);
      }
    }
  }

  /** An operand on top of any stack evaluates to itself and consumes only itself. */
  lemma EvaluateOperandOnTop(ops: seq<Op>, x: real, vars: map<string, real>, n: Numerics)
    ensures Evaluate(ops + [Operand(x)], vars, n) == Evaluation(Some(x), ops)
  {
    assert (ops + [Operand(x)])[..|ops|] == ops;
  }

  /** A variable on top of any stack evaluates to its table entry, or nil when it has none. */
  lemma EvaluateVariableOnTop(ops: seq<Op>, symbol: string, vars: map<string, real>, n: Numerics)
    ensures Evaluate(ops + [Variable(symbol)], vars, n).result ==
              (if symbol in vars then Some(vars[symbol]) else None)
  {
  }

  /**
   * A binary operator applies its closure to (operand1, operand2), operand1 being the
   * expression nearer the end of the stack; it fails, handing back its whole input,
   * as soon as either operand is missing.
   */
  lemma BinaryOperandOrder(ops: seq<Op>, symbol: string, kind: BinaryKind, vars: map<string, real>, n: Numerics)
    ensures
      var e1 := Evaluate(ops, vars, n);
      var e2 := Evaluate(e1.remainingOps, vars, n);
      var r := Evaluate(ops + [BinaryOperation(symbol, kind)], vars, n);
      if e1.result.Some? && e2.result.Some? then
        r == Evaluation(Some(ApplyBinary(kind, n, e1.result.value, e2.result.value)), e2.remainingOps)
      else
        r == Evaluation(None, ops + [BinaryOperation(symbol, kind)])
  {
    assert (ops + [BinaryOperation(symbol, kind)])[..|ops|] == ops;
  }

  /** Pushing 8, 2 and `÷` divides 8 by 2; pushing 5, 3 and `−` yields 2. */
  lemma OperandOrderExamples(vars: map<string, real>, n: Numerics)
    ensures Evaluate([Operand(8.0), Operand(2.0), Registry()["÷"]], vars, n).result == Some(n.divide(8.0, 2.0))
    ensures Evaluate([Operand(5.0), Operand(3.0), Registry()["−"]], vars, n).result == Some(2.0)
  {
  }

  /** `√` alone on the stack has no operand: nil, and the token is handed back. */
  lemma UnaryWithoutOperand(vars: map<string, real>, n: Numerics)
    ensures Evaluate([Registry()["√"]], vars, n) == Evaluation(None, [Registry()["√"]])
  {
  }

  /** Pushing 3, 4 and `+` is described as "(3.0+4.0)". */
  lemma DescriptionOfSum(show: real -> string)
    requires show(3.0) == "3.0" && show(4.0) == "4.0"
    ensures Join(Subexpressions([Operand(3.0), Operand(4.0), Registry()["+"]], show)) == "(3.0+4.0)"
  {
    var ops := [Operand(3.0), Operand(4.0), BinaryOperation("+", Plus)];
    assert Registry()["+"] == BinaryOperation("+", Plus);
    var op1 := Expression(ops[..2], show);
    assert ops[..2][..1] == [Operand(3.0)];
    assert op1 == Rendering(Some("4.0"), [Operand(3.0)]);
    var op2 := Expression(op1.remainingOps, show);
    assert op2 == Rendering(Some("3.0"), []);
    var text := "(" + op2.result.value + "+" + op1.result.value + ")";
    assert Expression(ops, show) == Rendering(Some(text), []);
    assert text == "(3.0+4.0)";
    assert Subexpressions(ops, show) == [text];
  }

  /** Pushing 3 and 4 without an operator is described as "3.0, 4.0", oldest first. */
  lemma DescriptionOfTwoOperands(show: real -> string)
    requires show(3.0) == "3.0" && show(4.0) == "4.0"
    ensures Join(Subexpressions([Operand(3.0), Operand(4.0)], show)) == "3.0, 4.0"
  {
    var ops := [Operand(3.0), Operand(4.0)];
    assert ops[..1] == [Operand(3.0)];
    assert Subexpressions([Operand(3.0)], show) == ["3.0"];
    assert Subexpressions(ops, show) == ["3.0", "4.0"];
  }
}
