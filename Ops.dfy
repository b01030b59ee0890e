/**
 * Tokens of the RPN calculator engine and the fixed operator registry.
 *
 * The engine stores closures inside its tokens; here each operator token carries its
 * display symbol and an operator kind, and the behaviour of a kind is given by
 * ApplyUnary / ApplyBinary / ConstantValue.  The floating-point primitives that the
 * engine borrows from the platform (division, sqrt, cos, sin, pi and the text of a
 * number) are not modelled: they are the fields of a `Numerics` record that the
 * engine is given.
 */
module Ops {

  datatype Option<+T> = None | Some(value: T)

  /** Dictionary subscript `table[key]`: the value, or nil when the key is absent. */
  function Lookup<K, V>(table: map<K, V>, key: K): Option<V>
  {
    if key in table then Some(table[key]) else None
  }

  /** The platform's floating-point primitives, left uninterpreted. */
  datatype Numerics = Numerics(
    divide: (real, real) -> real,   // Double `/`
    sqrt: real -> real,
    cos: real -> real,
    sin: real -> real,
    pi: real,                       // M_PI
    show: real -> string            // the interpolation "\(operand)"
  )

  datatype ConstantKind = Pi
  datatype UnaryKind = Sqrt | Cos | Sin | Negate
  datatype BinaryKind = Times | Divide | Plus | Minus

  /** One stack entry. */
  datatype Op =
    | Operand(value: real)
    | Variable(symbol: string)
    | Constant(symbol: string, constant: ConstantKind)
    | UnaryOperation(symbol: string, unary: UnaryKind)
    | BinaryOperation(symbol: string, binary: BinaryKind)

  /** The token's own text: the number for an operand, the symbol otherwise. */
  function Describe(op: Op, show: real -> string): string
  {
    match op
    case Operand(operand) => show(operand)
    case Variable(symbol) => symbol
    case Constant(symbol, _) => symbol
    case UnaryOperation(symbol, _) => symbol
    case BinaryOperation(symbol, _) => symbol
  }

  function ConstantValue(kind: ConstantKind, n: Numerics): real
  {
    match kind
    case Pi => n.pi
  }

  function ApplyUnary(kind: UnaryKind, n: Numerics, x: real): real
  {
    match kind
    case Sqrt => n.sqrt(x)
    case Cos => n.cos(x)
    case Sin => n.sin(x)
    case Negate => -x
  }

  /**
   * The registered closure, called as `operation(operand1, operand2)` where operand1 is
   * the operand nearer the end of the stack.  Division and subtraction take their
   * arguments the other way round (`$1 / $0`, `$1 - $0`): the earlier-pushed operand2 is
   * the dividend and the minuend.
   */
  function ApplyBinary(kind: BinaryKind, n: Numerics, operand1: real, operand2: real): real
  {
    match kind
    case Times => operand1 * operand2
    case Divide => n.divide(operand2, operand1)
    case Plus => operand1 + operand2
    case Minus => operand2 - operand1
  }

  /** `knownOps[op.description] = op`, the initializer's nested `learnOp`. */
  function Learn(table: map<string, Op>, op: Op, show: real -> string): map<string, Op>
  {
    table[Describe(op, show) := op]
  }

  /**
   * Learning a token adds or replaces the entry keyed by its own description and keeps
   * every other entry.
   */
  lemma LearnEntry(table: map<string, Op>, op: Op, show: real -> string)
    ensures Learn(table, op, show).Keys == table.Keys + {Describe(op, show)}
    ensures Learn(table, op, show)[Describe(op, show)] == op
    ensures forall key :: key in table && key != Describe(op, show) ==> Learn(table, op, show)[key] == table[key]
  {
  }

  /** The nine operators the engine learns at construction, keyed by their description. */
  function Registry(): map<string, Op>
  {
    map[
      "×" := BinaryOperation("×", Times),
      "÷" := BinaryOperation("÷", Divide),
      "+" := BinaryOperation("+", Plus),
      "−" := BinaryOperation("−", Minus),
      "√" := UnaryOperation("√", Sqrt),
      "cos" := UnaryOperation("cos", Cos),
      "sin" := UnaryOperation("sin", Sin),
      "±" := UnaryOperation("±", Negate),
      "π" := Constant("π", Pi)
    ]
  }

  /** Learning the nine operators in the order of the engine's initializer yields the registry. */
  lemma LearnedRegistry(show: real -> string)
    ensures
      var t1 := Learn(map[], BinaryOperation("×", Times), show);
      var t2 := Learn(t1, BinaryOperation("÷", Divide), show);
      var t3 := Learn(t2, BinaryOperation("+", Plus), show);
      var t4 := Learn(t3, BinaryOperation("−", Minus), show);
      var t5 := Learn(t4, UnaryOperation("√", Sqrt), show);
      var t6 := Learn(t5, UnaryOperation("cos", Cos), show);
      var t7 := Learn(t6, UnaryOperation("sin", Sin), show);
      var t8 := Learn(t7, UnaryOperation("±", Negate), show);
      Learn(t8, Constant("π", Pi), show) == Registry()
  {
  }

  /**
   * The registry has exactly the nine operator symbols, each mapped to an operator token
   * of its own symbol, which is also the token's description.
   */
  lemma RegistryShape(show: real -> string)
    ensures Registry().Keys == {"×", "÷", "+", "−", "√", "cos", "sin", "±", "π"}
    ensures forall s :: s in Registry() ==> !Registry()[s].Operand? && !Registry()[s].Variable? && Registry()[s].symbol == s
    ensures forall s :: s in Registry() ==> Describe(Registry()[s], show) == s
  {
  }
}
