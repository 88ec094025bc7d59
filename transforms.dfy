/** Stand-ins for the helpers the control-flow-graph pipeline calls but whose
    sources are not part of this model: `replace_symbols`, `constant_fold`,
    `specialize_constants` (silica/transformations) and the `eval` of a
    branch condition. They are small definitions of this model's own over
    the expression language of PyAst; nothing is claimed about them. */
module Transforms {
  import opened Base
  import opened PyAst

  /** What Python's `eval` of a condition gives: an integer (a boolean is
      0 or 1), a `NameError` (a name no constant was substituted for), or
      some other exception. */
  datatype EvalResult = Value(v: int) | Unbound | Fault

  function Truth(b: bool): int
  {
    if b then 1 else 0
  }

  function Pow2(k: nat): nat
  {
    if k == 0 then 1 else 2 * Pow2(k - 1)
  }

  /** A binary operator on two integers; a negative shift count raises. */
  function Arith(op: BinOperator, a: int, b: int): EvalResult
  {
    match op
    case Add => Value(a + b)
    case Sub => Value(a - b)
    case Mult => Value(a * b)
    case LShift => if b < 0 then Fault else Value(a * Pow2(b))
  }

  function Comparison(op: CmpOperator, a: int, b: int): bool
  {
    match op
    case Eq => a == b
    case NotEq => a != b
    case Lt => a < b
    case LtE => a <= b
    case Gt => a > b
    case GtE => a >= b
  }

  /** `next` if `first` evaluated without raising, else what `first` raised. */
  function Then(first: EvalResult, next: EvalResult): EvalResult
  {
    if first.Value? then next else first
  }

  /** The first exception among argument results, left to right. */
  function FirstFailure(rs: seq<EvalResult>): EvalResult
  {
    if rs == [] then Value(0) else Then(rs[0], FirstFailure(rs[1..]))
  }

  /** Python evaluation of a closed expression, operands left to right and
      `and`/`or` short-circuiting; any name still present raises NameError. */
  function Eval(e: Expr): EvalResult
  {
    match e
    case Num(n) => Value(n)
    case NameConstant(b) => Value(Truth(b))
    case Name(_) => Unbound
    case Str(_) => Fault
    case Attribute(o, _) => Then(Eval(o), Fault)
    case Subscript(o, i) => Then(Eval(o), Then(Eval(i), Fault))
    case BinOp(l, op, r) =>
      var a := Eval(l);
      if !a.Value? then a
      else
        var b := Eval(r);
        if !b.Value? then b else Arith(op, a.v, b.v)
    case BoolOp(bop, l, r) =>
      var a := Eval(l);
      if !a.Value? then a
      else if (bop == And) == (a.v == 0) then a
      else Eval(r)
    case Compare(l, op, r) =>
      var a := Eval(l);
      if !a.Value? then a
      else
        var b := Eval(r);
        if !b.Value? then b else Value(Truth(Comparison(op, a.v, b.v)))
    case UnaryOp(uop, x) =>
      var a := Eval(x);
      if !a.Value? then a
      else (match uop
            case Not => Value(Truth(a.v == 0))
            case Invert => Value(-a.v - 1)
            case USub => Value(-a.v))
    case Call(f, args) =>
      Then(Eval(f), Then(FirstFailure(seq(|args|, i requires 0 <= i < |args| => Eval(args[i]))), Fault))
    case Yield => Fault
    case YieldFrom(_) => Fault
  }

  /** Every loaded name bound in `table` replaced by its expression. */
  function ReplaceSymbols(e: Expr, table: map<string, Expr>): Expr
  {
    match e
    case Name(x) => if x in table then table[x] else e
    case Num(_) => e
    case NameConstant(_) => e
    case Str(_) => e
    case Attribute(o, a) => Attribute(ReplaceSymbols(o, table), a)
    case Subscript(o, i) => Subscript(ReplaceSymbols(o, table), ReplaceSymbols(i, table))
    case BinOp(l, op, r) => BinOp(ReplaceSymbols(l, table), op, ReplaceSymbols(r, table))
    case BoolOp(bop, l, r) => BoolOp(bop, ReplaceSymbols(l, table), ReplaceSymbols(r, table))
    case Compare(l, op, r) => Compare(ReplaceSymbols(l, table), op, ReplaceSymbols(r, table))
    case UnaryOp(uop, x) => UnaryOp(uop, ReplaceSymbols(x, table))
    case Call(f, args) =>
      Call(ReplaceSymbols(f, table), seq(|args|, i requires 0 <= i < |args| => ReplaceSymbols(args[i], table)))
    case Yield => e
    case YieldFrom(v) => YieldFrom(ReplaceSymbols(v, table))
  }

  /** `replace_symbols` on a statement: the assigned targets are stores and
      stay as they are; compound statements are left alone. */
  function ReplaceSymbolsStmt(s: Stmt, table: map<string, Expr>): Stmt
  {
    match s
    case Assign(ts, v) => Assign(ts, ReplaceSymbols(v, table))
    case AugAssign(t, op, v) => AugAssign(t, op, ReplaceSymbols(v, table))
    case ExprStmt(e) => ExprStmt(ReplaceSymbols(e, table))
    case _ => s
  }

  /** `specialize_constants`: every name with a known constant becomes that
      number literal. */
  function SpecializeConstants(e: Expr, constants: map<string, int>): Expr
  {
    ReplaceSymbols(e, map x | x in constants :: Num(constants[x]))
  }

  /** The integer a number or truth literal stands for. */
  function Literal(e: Expr): (r: Option<int>)
  {
    match e
    case Num(n) => Some(n)
    case NameConstant(b) => Some(Truth(b))
    case _ => None
  }

  /** `constant_fold`: operators whose operands are literals, bottom up. */
  function ConstantFold(e: Expr): Expr
  {
    match e
    case BinOp(l, op, r) =>
      var l', r' := ConstantFold(l), ConstantFold(r);
      if Literal(l').Some? && Literal(r').Some? && Arith(op, Literal(l').value, Literal(r').value).Value?
      then Num(Arith(op, Literal(l').value, Literal(r').value).v)
      else BinOp(l', op, r')
    case Compare(l, op, r) =>
      var l', r' := ConstantFold(l), ConstantFold(r);
      if Literal(l').Some? && Literal(r').Some?
      then NameConstant(Comparison(op, Literal(l').value, Literal(r').value))
      else Compare(l', op, r')
    case UnaryOp(uop, x) =>
      var x' := ConstantFold(x);
      if Literal(x').None? then UnaryOp(uop, x')
      else (match uop
            case Not => NameConstant(Literal(x').value == 0)
            case Invert => Num(-Literal(x').value - 1)
            case USub => Num(-Literal(x').value))
    case BoolOp(bop, l, r) => BoolOp(bop, ConstantFold(l), ConstantFold(r))
    case Attribute(o, a) => Attribute(ConstantFold(o), a)
    case Subscript(o, i) => Subscript(ConstantFold(o), ConstantFold(i))
    case Call(f, args) => Call(ConstantFold(f), seq(|args|, i requires 0 <= i < |args| => ConstantFold(args[i])))
    case YieldFrom(v) => YieldFrom(ConstantFold(v))
    case _ => e
  }

  function ConstantFoldStmt(s: Stmt): Stmt
  {
    match s
    case Assign(ts, v) => Assign(ts, ConstantFold(v))
    case AugAssign(t, op, v) => AugAssign(t, op, ConstantFold(v))
    case ExprStmt(e) => ExprStmt(ConstantFold(e))
    case _ => s
  }
}
