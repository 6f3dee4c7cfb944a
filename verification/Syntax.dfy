/** The fragment of the language whose compilation is proved correct, and the
    value and operator types shared by its source semantics and the machine. */
module Syntax {
  import opened Options

  /** A numeric literal: integral, or some other double given by its bits. */
  datatype Number = Integral(i: int) | Fraction(bits: nat)

  datatype Value =
    | Undefined
    | Null
    | Boolean(b: bool)
    | Num(n: Number)
    | Str(s: string)
    | Object(id: nat)

  datatype BinOp =
    | Add | Sub | Mul | Div | Mod | Pow
    | Lt | Le | Gt | Ge | Eq | Ne | EqLoose | NeLoose | In | InstanceOf
    | BitAnd | BitOr | BitXor | Shl | Shr | Ushr

  datatype UnOp = Neg | Not | BitNot | TypeOf | Void

  datatype Logic = Or | And | Nullish

  datatype Step = Inc | Dec

  /** The operator that `++` and `--` are compiled to. */
  function StepOp(s: Step): BinOp {
    if s.Inc? then Add else Sub
  }

  datatype Node =
    | Lit(value: Value)
    | Ident(name: string)
    | Decl(name: string, init: Option<Node>)
    | Assign(name: string, rhs: Node)
    | OpAssign(op: BinOp, name: string, rhs: Node)
    | LogicAssign(logic: Logic, name: string, rhs: Node)
    | Binary(op: BinOp, left: Node, right: Node)
    | Logical(logic: Logic, left: Node, right: Node)
    | Unary(unop: UnOp, arg: Node)
    | Prefix(step: Step, name: string)
    | Postfix(step: Step, name: string)
    | Ternary(cond: Node, thn: Node, els: Node)
    | Sequence(exprs: seq<Node>)
    | ExprStmt(arg: Node)
    | Block(stmts: seq<Node>)
    | If(cond: Node, thn: Node, alt: Option<Node>)
    | While(cond: Node, body: Node)
    | DoWhile(body: Node, cond: Node)
    | Throw(arg: Node)
    | Try(body: Node, handler: Option<Catch>, finalizer: Option<Node>)

  /** A catch clause: an optional parameter and the statements of its block. */
  datatype Catch = Catch(param: Option<string>, stmts: seq<Node>)

  /** What an operator does: produce a value or throw one. */
  datatype Outcome = Yields(v: Value) | Fails(e: Value)

  /** The operators are parameters: every theorem holds for any choice of them. */
  datatype Ops = Ops(binary: (BinOp, Value, Value) -> Outcome,
                     unary: (UnOp, Value) -> Outcome,
                     truthy: Value -> bool)

  predicate IsNullish(v: Value) {
    v.Null? || v.Undefined?
  }

  /** The global object, as the list of all stores made to it. */
  type Globals = seq<(string, Value)>

  function ReadGlobal(g: Globals, x: string): Value {
    if |g| == 0 then Undefined
    else if g[|g| - 1].0 == x then g[|g| - 1].1
    else ReadGlobal(g[..|g| - 1], x)
  }

  /** Names declared directly in a statement list, each once, in order. */
  function Declared(ss: seq<Node>): seq<string> {
    if |ss| == 0 then []
    else
      var names := Declared(ss[..|ss| - 1]);
      var last := ss[|ss| - 1];
      if last.Decl? && last.name !in names then names + [last.name] else names
  }
}
