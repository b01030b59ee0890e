/**
 * Sequences of calls a user interface makes on one engine, with what the engine's
 * contracts alone say about the values it hands back.
 */
module Scenarios {
  import opened Ops
  import Reducers
  import opened Engine

  /** 8, 2, `÷` divides 8 by 2: the operand pushed first is the dividend. */
  method DivisionScenario(n: Numerics) returns (quotient: Option<real>)
    ensures quotient == Some(n.divide(8.0, 2.0))
  {
    var calculator := new CalculatorModel(n);
    var ignored := calculator.PushOperand(8.0);
    ignored := calculator.PushOperand(2.0);
    quotient := calculator.PerformOperation("÷");
    Reducers.OperandOrderExamples(calculator.variableValues, n);
  }

  /** 5, 3, `−` is 2: the operand pushed first is the minuend. */
  method SubtractionScenario(n: Numerics) returns (difference: Option<real>)
    ensures difference == Some(2.0)
  {
    var calculator := new CalculatorModel(n);
    var ignored := calculator.PushOperand(5.0);
    ignored := calculator.PushOperand(3.0);
    difference := calculator.PerformOperation("−");
    Reducers.OperandOrderExamples(calculator.variableValues, n);
  }

  /** Undo on a fresh engine, and evaluation after clear, both have no value. */
  method UndoAndClearScenario(n: Numerics) returns (undone: Option<real>, cleared: Option<real>)
    ensures undone == None && cleared == None
  {
    var calculator := new CalculatorModel(n);
    undone := calculator.Undo();
    var ignored := calculator.PushOperand(1.0);
    calculator.Clear();
    cleared := calculator.Evaluate();
  }

  /** An unknown operator symbol changes neither the stack nor its value. */
  method UnknownSymbolScenario(n: Numerics) returns (before: Option<real>, after: Option<real>)
    ensures before == after == Some(3.0)
  {
    var calculator := new CalculatorModel(n);
    before := calculator.PushOperand(3.0);
    after := calculator.PerformOperation("?");
  }

  /** `√` on an empty stack is pushed but has no value. */
  method MissingOperandScenario(n: Numerics) returns (root: Option<real>, depth: nat)
    ensures root == None && depth == 1
  {
    var calculator := new CalculatorModel(n);
    root := calculator.PerformOperation("√");
    depth := |calculator.opStack|;
    Reducers.UnaryWithoutOperand(calculator.variableValues, n);
  }

  /**
   * With M set to 10 the variable evaluates to 10; once M is removed from the table the
   * same, untouched stack has no value.
   */
  method VariableScenario(n: Numerics) returns (stored: Option<real>, removed: Option<real>)
    ensures stored == Some(10.0) && removed == None
  {
    var calculator := new CalculatorModel(n);
    calculator.variableValues := calculator.variableValues["M" := 10.0];
    stored := calculator.PushVariable("M");
    calculator.variableValues := calculator.variableValues - {"M"};
    removed := calculator.Evaluate();
    Reducers.EvaluateVariableOnTop([], "M", calculator.variableValues, n);
    assert [] + [Variable("M")] == calculator.opStack;
  }

  /** 3, 4, `+` is described as "(3.0+4.0)" when numbers print with one decimal. */
  method DescriptionScenario(n: Numerics) returns (text: string)
    requires n.show(3.0) == "3.0" && n.show(4.0) == "4.0"
    ensures text == "(3.0+4.0)"
  {
    var calculator := new CalculatorModel(n);
    var ignored := calculator.PushOperand(3.0);
    ignored := calculator.PushOperand(4.0);
    ignored := calculator.PerformOperation("+");
    assert calculator.opStack == [Operand(3.0), Operand(4.0), Registry()["+"]];
    text := calculator.Description();
    Reducers.DescriptionOfSum(n.show);
  }
}
