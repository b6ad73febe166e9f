/**
 * The part of Python's abstract syntax that the disambiguation pass reads,
 * and `leftmostname`, the identifier an expression looks up first.
 *
 * Python's syntax tree keeps expressions and statements apart: no expression
 * holds a statement. The two are separate datatypes here, so a walk over
 * statements never has to descend into an expression.
 */
module Syntax {
  import opened Wrappers

  /** Expression nodes. The shapes `leftmostname` tells apart have their own
      constructors; every other expression (numbers, strings, unary and boolean
      operators, lambdas, displays, comprehensions, ...) is an `OtherExpr`. */
  datatype Expression =
    | Name(id: string)
    | BinOp(left: Expression, right: Expression)
    | Compare(left: Expression, comparators: seq<Expression>)
    | Attribute(value: Expression, attr: string)
    | Subscript(value: Expression, slice: Expression)
    | Starred(value: Expression)
    | Call(func: Expression, args: seq<Expression>)
    | Tuple(elts: seq<Expression>)
    | List(elts: seq<Expression>)
    | OtherExpr(tag: string, operands: seq<Expression>)

  /** `import name` or `import name as asname`. */
  datatype Alias = Alias(name: string, asname: Option<string>)

  /** One `expr as target` of a `with` statement. */
  datatype WithItem = WithItem(contextExpr: Expression, optionalVars: Option<Expression>)

  /** A statement and its source position. */
  datatype Stmt = Stmt(kind: StmtKind, lineno: int, colOffset: int)

  /** Statement kinds. `OtherStmt` is every statement the pass has no visitor
      for: `if` and `while` (whose suites are `body` and `orelse`) as well as
      the simple ones (`pass`, `return`, augmented assignment, ...), whose
      suites are empty. Expression-valued fields the pass never reads
      (argument lists, decorators, conditions) are omitted. */
  datatype StmtKind =
    | Expr(value: Expression)
    | Assign(targets: seq<Expression>, value: Expression)
    | Import(names: seq<Alias>)
    | ImportFrom(fromModule: string, names: seq<Alias>)
    | With(items: seq<WithItem>, body: seq<Stmt>)
    | For(target: Expression, iter: Expression, body: seq<Stmt>, orelse: seq<Stmt>)
    | FunctionDef(name: string, body: seq<Stmt>)
    | ClassDef(name: string, bases: seq<Expression>, body: seq<Stmt>)
    | Delete(targets: seq<Expression>)
    | Try(body: seq<Stmt>, handlers: seq<ExceptHandler>, orelse: seq<Stmt>, finalbody: seq<Stmt>)
    | Global(declared: seq<string>)
    | OtherStmt(tag: string, body: seq<Stmt>, orelse: seq<Stmt>)

  /** `except exceptionType as name: body`. */
  datatype ExceptHandler = ExceptHandler(exceptionType: Option<Expression>, name: Option<string>, body: seq<Stmt>)

  /** The sub-expression evaluated first, for the shapes whose first lookup
      lies inside them: the left operand of a binary operation or comparison,
      the base of an attribute access, subscript or starred expression, and
      the callee of a call (never its arguments). */
  function FirstOperand(e: Expression): Option<Expression>
  {
    match e
    case BinOp(left, _) => Some(left)
    case Compare(left, _) => Some(left)
    case Attribute(value, _) => Some(value)
    case Subscript(value, _) => Some(value)
    case Starred(value) => Some(value)
    case Call(func, _) => Some(func)
    case _ => None
  }

  /** The chain of first operands from `e` down to the first expression that
      has none. */
  function Spine(e: Expression): (s: seq<Expression>)
    ensures |s| >= 1 && s[0] == e
    ensures FirstOperand(s[|s| - 1]).None?
    ensures forall i :: 0 <= i < |s| - 1 ==> FirstOperand(s[i]) == Some(s[i + 1])
  {
    match FirstOperand(e)
    case None => [e]
    case Some(c) => [e] + Spine(c)
  }

  /** The identifier that evaluating `e` looks up first: the name at the end of
      its spine of first operands, or `None` when that end is not a name. */
  function LeftmostName(e: Expression): (r: Option<string>)
    ensures var last := Spine(e)[|Spine(e)| - 1];
            r == if last.Name? then Some(last.id) else None
  {
    match e
    case Name(id) => Some(id)
    case BinOp(left, _) => LeftmostName(left)
    case Compare(left, _) => LeftmostName(left)
    case Attribute(value, _) => LeftmostName(value)
    case Subscript(value, _) => LeftmostName(value)
    case Starred(value) => LeftmostName(value)
    case Call(func, _) => LeftmostName(func)
    case _ => None
  }

  /** `leftmostname` applied to a statement: an expression statement looks
      through to its value; every other statement gives `None`. */
  function StmtLeftmostName(s: Stmt): (r: Option<string>)
    ensures s.kind.Expr? ==> r == LeftmostName(s.kind.value)
    ensures r.Some? ==> s.kind.Expr?
  {
    match s.kind
    case Expr(value) => LeftmostName(value)
    case _ => None
  }
}
