/**
 * A reference semantics for the two reducers: expression trees, their postfix token
 * sequence, their value with ordinary infix reading (the left operand is pushed first)
 * and their infix text.  The lemmas show that `Evaluate` and `Expression` take exactly
 * one tree off the end of a stack, and that everything they take off is one.
 */
module Trees {
  import opened Ops
  import opened Reducers

  datatype Expr =
    | Missing                                       // an operand the stack did not supply
    | Num(value: real)
    | Var(symbol: string)
    | Const(symbol: string, constant: ConstantKind)
    | Unary(symbol: string, unary: UnaryKind, arg: Expr)
    | Binary(symbol: string, binary: BinaryKind, left: Expr, right: Expr)

  predicate Complete(e: Expr)
  {
    match e
    case Missing => false
    case Unary(_, _, arg) => Complete(arg)
    case Binary(_, _, left, right) => Complete(left) && Complete(right)
    case _ => true
  }

  /** The tokens a user pushes to enter `e`: operands first, operator last. */
  function Postfix(e: Expr): (ops: seq<Op>)
    ensures Complete(e) ==> ops != []
  {
    match e
    case Missing => []
    case Num(v) => [Operand(v)]
    case Var(symbol) => [Variable(symbol)]
    case Const(symbol, kind) => [Constant(symbol, kind)]
    case Unary(symbol, kind, arg) => Postfix(arg) + [UnaryOperation(symbol, kind)]
    case Binary(symbol, kind, left, right) => Postfix(left) + Postfix(right) + [BinaryOperation(symbol, kind)]
  }

  /** `left` op `right` in the usual reading: left ÷ right, left − right. */
  function Infix(kind: BinaryKind, n: Numerics, left: real, right: real): real
  {
    match kind
    case Times => left * right
    case Divide => n.divide(left, right)
    case Plus => left + right
    case Minus => left - right
  }

  function Value(e: Expr, vars: map<string, real>, n: Numerics): Option<real>
  {
    match e
    case Missing => None
    case Num(v) => Some(v)
    case Var(symbol) => Lookup(vars, symbol)
    case Const(_, kind) => Some(ConstantValue(kind, n))
    case Unary(_, kind, arg) =>
      var a := Value(arg, vars, n);
      if a.Some? then Some(ApplyUnary(kind, n, a.value)) else None
    case Binary(_, kind, left, right) =>
      var l, r := Value(left, vars, n), Value(right, vars, n);
      if l.Some? && r.Some? then Some(Infix(kind, n, l.value, r.value)) else None
  }

  function Render(e: Expr, show: real -> string): string
  {
    match e
    case Missing => "?"
    case Num(v) => show(v)
    case Var(symbol) => symbol
    case Const(symbol, _) => symbol
    case Unary(symbol, _, arg) => symbol + "(" + Render(arg, show) + ")"
    case Binary(symbol, _, left, right) => "(" + Render(left, show) + symbol + Render(right, show) + ")"
  }

  /** The stack `prefix + Postfix(e)` without its last token, for a tree built by an operator. */
  lemma OperatorPrefix(prefix: seq<Op>, e: Expr)
    requires e.Unary? || e.Binary?
    ensures var stack := prefix + Postfix(e);
      stack != [] && stack[..|stack| - 1] == (if e.Unary? then prefix + Postfix(e.arg) else (prefix + Postfix(e.left)) + Postfix(e.right))
    ensures var stack := prefix + Postfix(e);
      stack != [] && stack[|stack| - 1] == (if e.Unary? then UnaryOperation(e.symbol, e.unary) else BinaryOperation(e.symbol, e.binary))
  {
    var stack := prefix + Postfix(e);
    if e.Unary? {
      assert stack == (prefix + Postfix(e.arg)) + [UnaryOperation(e.symbol, e.unary)];
    } else {
      assert stack == ((prefix + Postfix(e.left)) + Postfix(e.right)) + [BinaryOperation(e.symbol, e.binary)];
    }
  }

  /**
   * Evaluating a stack that ends with the tokens of a complete tree yields the tree's
   * value, and on success leaves exactly the tokens before it.
   */
  lemma {:induction false} EvaluatePostfix(prefix: seq<Op>, e: Expr, vars: map<string, real>, n: Numerics)
    requires Complete(e)
    ensures Evaluate(prefix + Postfix(e), vars, n).result == Value(e, vars, n)
    ensures Value(e, vars, n).Some? ==> Evaluate(prefix + Postfix(e), vars, n).remainingOps == prefix
    decreases e, 1
  {
    if e.Unary? {
      EvaluateUnaryPostfix(prefix, e, vars, n);
    } else if e.Binary? {
      EvaluateBinaryPostfix(prefix, e, vars, n);
    } else {
      LeafPrefix(prefix, e);
    }
  }

  /** The unary case of EvaluatePostfix. */
  lemma {:induction false} EvaluateUnaryPostfix(prefix: seq<Op>, e: Expr, vars: map<string, real>, n: Numerics)
    requires e.Unary? && Complete(e)
    ensures Evaluate(prefix + Postfix(e), vars, n).result == Value(e, vars, n)
    ensures Value(e, vars, n).Some? ==> Evaluate(prefix + Postfix(e), vars, n).remainingOps == prefix
    decreases e, 0
  {
    OperatorPrefix(prefix, e);
    EvaluatePostfix(prefix, e.arg, vars, n);
    EvaluateUnaryStep(prefix + Postfix(e), prefix + Postfix(e.arg), prefix, e, vars, n);
  }

  /** The binary case of EvaluatePostfix. */
  lemma {:induction false} EvaluateBinaryPostfix(prefix: seq<Op>, e: Expr, vars: map<string, real>, n: Numerics)
    requires e.Binary? && Complete(e)
    ensures Evaluate(prefix + Postfix(e), vars, n).result == Value(e, vars, n)
    ensures Value(e, vars, n).Some? ==> Evaluate(prefix + Postfix(e), vars, n).remainingOps == prefix
    decreases e, 0
  {
    var middle := prefix + Postfix(e.left);
    var rest := middle + Postfix(e.right);
    OperatorPrefix(prefix, e);
    EvaluatePostfix(middle, e.right, vars, n);
    EvaluatePostfix(prefix, e.left, vars, n);
    EvaluateBinaryStep(prefix + Postfix(e), rest, middle, prefix, e, vars, n);
  }

  /** A single-token tree on top of `prefix`. */
  lemma LeafPrefix(prefix: seq<Op>, e: Expr)
    requires e.Num? || e.Var? || e.Const?
    ensures var stack := prefix + Postfix(e);
      |stack| == |prefix| + 1 && stack[..|prefix|] == prefix && stack[|prefix|] == Postfix(e)[0]
  {
  }

  /** The unary step of EvaluatePostfix, once the operand is known to evaluate as its tree. */
  lemma EvaluateUnaryStep(ops: seq<Op>, rest: seq<Op>, prefix: seq<Op>, e: Expr, vars: map<string, real>, n: Numerics)
    requires e.Unary? && ops != [] && ops[|ops| - 1] == UnaryOperation(e.symbol, e.unary) && ops[..|ops| - 1] == rest
    requires var sub := Evaluate(rest, vars, n);
      sub.result == Value(e.arg, vars, n) && (sub.result.Some? ==> sub.remainingOps == prefix)
    ensures Evaluate(ops, vars, n).result == Value(e, vars, n)
    ensures Value(e, vars, n).Some? ==> Evaluate(ops, vars, n).remainingOps == prefix
  {
  }

  /** The binary step of EvaluatePostfix, once both operands are known to evaluate as their trees. */
  lemma EvaluateBinaryStep(ops: seq<Op>, rest: seq<Op>, middle: seq<Op>, prefix: seq<Op>, e: Expr, vars: map<string, real>, n: Numerics)
    requires e.Binary? && ops != [] && ops[|ops| - 1] == BinaryOperation(e.symbol, e.binary) && ops[..|ops| - 1] == rest
    requires var first := Evaluate(rest, vars, n);
      first.result == Value(e.right, vars, n) && (first.result.Some? ==> first.remainingOps == middle)
    requires var second := Evaluate(middle, vars, n);
      second.result == Value(e.left, vars, n) && (second.result.Some? ==> second.remainingOps == prefix)
    ensures Evaluate(ops, vars, n).result == Value(e, vars, n)
    ensures Value(e, vars, n).Some? ==> Evaluate(ops, vars, n).remainingOps == prefix
  {
    var first := Evaluate(ops[..|ops| - 1], vars, n);
    if first.result.Some? && Value(e.left, vars, n).Some? {
      SwappedOperands(e.binary, n, first.result.value, Value(e.left, vars, n).value);
    }
  }

  /** Rendering a stack that ends with the tokens of a complete tree yields its infix text. */
  lemma {:induction false} ExpressionPostfix(prefix: seq<Op>, e: Expr, show: real -> string)
    requires Complete(e)
    ensures Expression(prefix + Postfix(e), show) == Rendering(Some(Render(e, show)), prefix)
    decreases e, 1
  {
    if e.Unary? {
      ExpressionUnaryPostfix(prefix, e, show);
    } else if e.Binary? {
      ExpressionBinaryPostfix(prefix, e, show);
    } else {
      LeafPrefix(prefix, e);
    }
  }

  /** The unary case of ExpressionPostfix. */
  lemma {:induction false} ExpressionUnaryPostfix(prefix: seq<Op>, e: Expr, show: real -> string)
    requires e.Unary? && Complete(e)
    ensures Expression(prefix + Postfix(e), show) == Rendering(Some(Render(e, show)), prefix)
    decreases e, 0
  {
    OperatorPrefix(prefix, e);
    ExpressionPostfix(prefix, e.arg, show);
    UnaryText(prefix + Postfix(e), prefix + Postfix(e.arg), e, show);
  }

  /** The binary case of ExpressionPostfix. */
  lemma {:induction false} ExpressionBinaryPostfix(prefix: seq<Op>, e: Expr, show: real -> string)
    requires e.Binary? && Complete(e)
    ensures Expression(prefix + Postfix(e), show) == Rendering(Some(Render(e, show)), prefix)
    decreases e, 0
  {
    var middle := prefix + Postfix(e.left);
    OperatorPrefix(prefix, e);
    ExpressionPostfix(middle, e.right, show);
    ExpressionPostfix(prefix, e.left, show);
    BinaryText(prefix + Postfix(e), middle + Postfix(e.right), e, show);
  }

  /**
   * Conversely, whatever `Evaluate` takes off the end of a stack on success is the
   * token sequence of one complete tree, whose value is the result.
   */
  lemma {:induction false} EvaluateParses(ops: seq<Op>, vars: map<string, real>, n: Numerics) returns (e: Expr)
    requires Evaluate(ops, vars, n).result.Some?
    ensures Complete(e)
    ensures ops == Evaluate(ops, vars, n).remainingOps + Postfix(e)
    ensures Value(e, vars, n) == Evaluate(ops, vars, n).result
    decreases |ops|
  {
    var rest, last := ops[..|ops| - 1], ops[|ops| - 1];
    assert ops == rest + [last];
    match last
    case Operand(v) => e := Num(v);
    case Variable(symbol) => e := Var(symbol);
    case Constant(symbol, kind) => e := Const(symbol, kind);
    case UnaryOperation(symbol, kind) =>
      var arg := EvaluateParses(rest, vars, n);
      e := Unary(symbol, kind, arg);
    case BinaryOperation(symbol, kind) =>
      var first := Evaluate(rest, vars, n);
      var right := EvaluateParses(rest, vars, n);
      var left := EvaluateParses(first.remainingOps, vars, n);
      e := Binary(symbol, kind, left, right);
      EvaluateBinaryTree(ops, e, vars, n);
  }

  /** The binary step of EvaluateParses: both operand trees are already known. */
  lemma EvaluateBinaryTree(ops: seq<Op>, e: Expr, vars: map<string, real>, n: Numerics)
    requires e.Binary? && ops != [] && ops[|ops| - 1] == BinaryOperation(e.symbol, e.binary)
    requires
      var first := Evaluate(ops[..|ops| - 1], vars, n);
      var second := Evaluate(first.remainingOps, vars, n);
      && first.result.Some? && second.result.Some?
      && Complete(e.left) && Complete(e.right)
      && ops[..|ops| - 1] == first.remainingOps + Postfix(e.right)
      && first.remainingOps == second.remainingOps + Postfix(e.left)
      && Value(e.right, vars, n) == first.result
      && Value(e.left, vars, n) == second.result
    ensures Complete(e)
    ensures ops == Evaluate(ops, vars, n).remainingOps + Postfix(e)
    ensures Value(e, vars, n) == Evaluate(ops, vars, n).result
  {
    var rest := ops[..|ops| - 1];
    var first := Evaluate(rest, vars, n);
    var second := Evaluate(first.remainingOps, vars, n);
    var operand1, operand2 := first.result.value, second.result.value;
    assert Evaluate(ops, vars, n) == Evaluation(Some(ApplyBinary(e.binary, n, operand1, operand2)), second.remainingOps);
    Reassociate(ops, second.remainingOps, Postfix(e.left), Postfix(e.right));
    assert Postfix(e) == Postfix(e.left) + Postfix(e.right) + [ops[|ops| - 1]];
    SwappedOperands(e.binary, n, operand1, operand2);
  }

  lemma AppendLast(ops: seq<Op>, before: seq<Op>, body: seq<Op>)
    requires ops != [] && ops[..|ops| - 1] == before + body
    ensures ops == before + (body + [ops[|ops| - 1]])
  {
    assert ops == ops[..|ops| - 1] + [ops[|ops| - 1]];
  }

  lemma Reassociate(ops: seq<Op>, before: seq<Op>, left: seq<Op>, right: seq<Op>)
    requires ops != [] && ops[..|ops| - 1] == before + left + right
    ensures ops == before + (left + right + [ops[|ops| - 1]])
  {
    assert ops == ops[..|ops| - 1] + [ops[|ops| - 1]];
  }

  /** The registered closure with operand1 nearest the end is the usual infix reading with the operands swapped. */
  lemma SwappedOperands(kind: BinaryKind, n: Numerics, operand1: real, operand2: real)
    ensures ApplyBinary(kind, n, operand1, operand2) == Infix(kind, n, operand2, operand1)
  {
  }

  /**
   * Whatever `Expression` takes off the end of a non-empty stack is the token sequence
   * of one tree whose text is the result; the tree has a hole only if the stack ran
   * out, so then nothing remains.
   */
  lemma {:induction false} ExpressionParses(ops: seq<Op>, show: real -> string) returns (e: Expr)
    requires ops != []
    ensures !e.Missing? && RendersAs(Expression(ops, show), ops, e, show)
    decreases |ops|
  {
    var rest := ops[..|ops| - 1];
    assert ops == rest + [ops[|ops| - 1]];
    match ops[|ops| - 1]
    case Operand(v) => e := Num(v);
    case Variable(symbol) => e := Var(symbol);
    case Constant(symbol, kind) => e := Const(symbol, kind);
    case UnaryOperation(symbol, kind) =>
      var arg := Missing;
      if rest != [] { arg := ExpressionParses(rest, show); }
      e := Unary(symbol, kind, arg);
      ExpressionUnaryTree(ops, rest, e, show);
    case BinaryOperation(symbol, kind) =>
      var right, left := Missing, Missing;
      if rest != [] { right := ExpressionParses(rest, show); }
      var remaining := Expression(rest, show).remainingOps;
      if remaining != [] { left := ExpressionParses(remaining, show); }
      e := Binary(symbol, kind, left, right);
      ExpressionBinaryTree(ops, e, show);
  }

  /** The text of `sub`, or nil exactly when `sub` is a hole; a hole is left only by an empty stack. */
  predicate RendersAs(r: Rendering, ops: seq<Op>, sub: Expr, show: real -> string)
  {
    && ops == r.remainingOps + Postfix(sub)
    && r.result == (if sub.Missing? then None else Some(Render(sub, show)))
    && (!Complete(sub) ==> r.remainingOps == [])
  }

  /** The literal "?" texts of `expression(ops:)` are Render of a hole. */
  lemma Placeholders(symbol: string, op1: string)
    ensures symbol + "(?)" == symbol + "(" + "?" + ")"
    ensures "(?" + symbol + op1 + ")" == "(" + "?" + symbol + op1 + ")"
    ensures "(?" + symbol + "?)" == "(" + "?" + symbol + "?" + ")"
  {
  }

  /** The unary step of ExpressionParses: the operand tree is already known. */
  lemma ExpressionUnaryTree(ops: seq<Op>, rest: seq<Op>, e: Expr, show: real -> string)
    requires e.Unary? && ops != [] && ops[|ops| - 1] == UnaryOperation(e.symbol, e.unary) && ops[..|ops| - 1] == rest
    requires RendersAs(Expression(rest, show), rest, e.arg, show)
    ensures RendersAs(Expression(ops, show), ops, e, show)
  {
    var sub := Expression(rest, show);
    UnaryText(ops, rest, e, show);
    AppendLast(ops, sub.remainingOps, Postfix(e.arg));
    assert Postfix(e) == Postfix(e.arg) + [ops[|ops| - 1]];
  }

  /** What `expression(ops:)` returns for a unary operator whose operand tree is known. */
  lemma UnaryText(ops: seq<Op>, rest: seq<Op>, e: Expr, show: real -> string)
    requires e.Unary? && ops != [] && ops[|ops| - 1] == UnaryOperation(e.symbol, e.unary) && ops[..|ops| - 1] == rest
    requires Expression(rest, show).result == (if e.arg.Missing? then None else Some(Render(e.arg, show)))
    ensures Expression(ops, show) == Rendering(Some(Render(e, show)), Expression(rest, show).remainingOps)
  {
    Placeholders(e.symbol, "");
  }

  /** The binary step of ExpressionParses: both operand trees are already known. */
  lemma ExpressionBinaryTree(ops: seq<Op>, e: Expr, show: real -> string)
    requires e.Binary? && ops != [] && ops[|ops| - 1] == BinaryOperation(e.symbol, e.binary)
    requires
      var first := Expression(ops[..|ops| - 1], show);
      && RendersAs(first, ops[..|ops| - 1], e.right, show)
      && RendersAs(Expression(first.remainingOps, show), first.remainingOps, e.left, show)
    ensures RendersAs(Expression(ops, show), ops, e, show)
  {
    var first := Expression(ops[..|ops| - 1], show);
    var second := Expression(first.remainingOps, show);
    if e.right.Missing? {
      assert first.remainingOps == [];
      assert second == Rendering(None, []);
    }
    BinaryText(ops, ops[..|ops| - 1], e, show);
    Reassociate(ops, second.remainingOps, Postfix(e.left), Postfix(e.right));
    assert Postfix(e) == Postfix(e.left) + Postfix(e.right) + [ops[|ops| - 1]];
  }

  /**
   * What `expression(ops:)` returns for a binary operator whose operand trees are known;
   * a missing right operand means the stack ran out, so the left one is missing too.
   */
  lemma BinaryText(ops: seq<Op>, rest: seq<Op>, e: Expr, show: real -> string)
    requires e.Binary? && ops != [] && ops[|ops| - 1] == BinaryOperation(e.symbol, e.binary) && ops[..|ops| - 1] == rest
    requires e.right.Missing? ==> e.left.Missing?
    requires var first := Expression(rest, show);
      && first.result == (if e.right.Missing? then None else Some(Render(e.right, show)))
      && Expression(first.remainingOps, show).result == (if e.left.Missing? then None else Some(Render(e.left, show)))
    ensures var first := Expression(rest, show);
      Expression(ops, show) == Rendering(Some(Render(e, show)), Expression(first.remainingOps, show).remainingOps)
  {
    var first := Expression(rest, show);
    Placeholders(e.symbol, if e.right.Missing? then "" else Render(e.right, show));
    if e.right.Missing? {
      assert Expression(first.remainingOps, show) == Rendering(None, []);
    }
  }

  /** The tokens of several trees entered one after another. */
  function Flatten(es: seq<Expr>): seq<Op>
  {
    if es == [] then [] else Flatten(es[..|es| - 1]) + Postfix(es[|es| - 1])
  }

  /**
   * A stack holding several complete trees is described tree by tree, oldest first:
   * the description lists their infix texts in the order they were entered.
   */
  lemma {:induction false} SubexpressionsOfTrees(es: seq<Expr>, show: real -> string)
    requires forall i :: 0 <= i < |es| ==> Complete(es[i])
    ensures Subexpressions(Flatten(es), show) == seq(|es|, i requires 0 <= i < |es| => Render(es[i], show))
  {
    if es != [] {
      var init, last := es[..|es| - 1], es[|es| - 1];
      SubexpressionsOfTrees(init, show);
      SubexpressionsAppendTree(Flatten(init), last, show);
      assert seq(|es|, i requires 0 <= i < |es| => Render(es[i], show)) ==
             seq(|init|, i requires 0 <= i < |init| => Render(init[i], show)) + [Render(last, show)];
    }
  }

  /** A complete tree entered on top of a stack adds its text after those of the stack. */
  lemma SubexpressionsAppendTree(prefix: seq<Op>, e: Expr, show: real -> string)
    requires Complete(e)
    ensures Subexpressions(prefix + Postfix(e), show) == Subexpressions(prefix, show) + [Render(e, show)]
  {
    ExpressionPostfix(prefix, e, show);
  }
}
