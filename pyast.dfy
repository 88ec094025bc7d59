/** The part of Python's abstract syntax tree that an FSM description uses:
    register declarations, assignments, `<<` connections, conditionals, loops
    and the two suspension forms `yield` and `yield from range(...)`. */
module PyAst {

  datatype BinOperator = Add | Sub | Mult | LShift

  datatype CmpOperator = Eq | NotEq | Lt | LtE | Gt | GtE

  datatype UnaryOperator = Not | Invert | USub

  datatype BoolOperator = And | Or

  datatype Expr =
    | Name(id: string)
    | Num(n: int)
    | NameConstant(truth: bool)
    | Str(s: string)
    | Attribute(obj: Expr, attr: string)
    | Subscript(obj: Expr, index: Expr)
    | BinOp(left: Expr, op: BinOperator, right: Expr)
    | BoolOp(bop: BoolOperator, left: Expr, right: Expr)
    | Compare(left: Expr, cop: CmpOperator, right: Expr)
    | UnaryOp(uop: UnaryOperator, operand: Expr)
    | Call(func: Expr, args: seq<Expr>)
    | Yield
    | YieldFrom(value: Expr)

  /** Statements. `ExprStmt` is Python's `ast.Expr` (an expression used as a
      statement); a `while` or `for` with an `else` clause is not modelled. */
  datatype Stmt =
    | Assign(targets: seq<Expr>, value: Expr)
    | AugAssign(target: Expr, aop: BinOperator, value: Expr)
    | ExprStmt(expr: Expr)
    | If(test: Expr, body: seq<Stmt>, orelse: seq<Stmt>)
    | While(test: Expr, body: seq<Stmt>)
    | For(target: Expr, iter: Expr, body: seq<Stmt>)
    | Pass

  /** The decorated generator function that describes one FSM. */
  datatype FunctionDef = FunctionDef(name: string, body: seq<Stmt>)

  /** The variable names an expression reads or writes (`collect_names`). */
  function Names(e: Expr): set<string>
  {
    match e
    case Name(x) => {x}
    case Num(_) => {}
    case NameConstant(_) => {}
    case Str(_) => {}
    case Attribute(o, _) => Names(o)
    case Subscript(o, i) => Names(o) + Names(i)
    case BinOp(l, _, r) => Names(l) + Names(r)
    case BoolOp(_, l, r) => Names(l) + Names(r)
    case Compare(l, _, r) => Names(l) + Names(r)
    case UnaryOp(_, x) => Names(x)
    case Call(f, args) => Names(f) + ArgNames(args)
    case Yield => {}
    case YieldFrom(v) => Names(v)
  }

  function ArgNames(args: seq<Expr>): set<string>
  {
    if args == [] then {} else ArgNames(args[..|args| - 1]) + Names(args[|args| - 1])
  }
}
