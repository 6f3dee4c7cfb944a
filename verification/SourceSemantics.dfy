/** Big-step meaning of the fragment: lexical block scopes, exceptions, and loops
    bounded by a fuel that only loop iterations consume. */
module SourceSemantics {
  import opened Options
  import opened Syntax

  /** Nested block scopes, innermost first. */
  datatype Env = Empty | Env(vars: map<string, Value>, outer: Env)

  function Lookup(env: Env, x: string): Option<Value> {
    match env
    case Empty => None
    case Env(vars, outer) => if x in vars then Some(vars[x]) else Lookup(outer, x)
  }

  function Update(env: Env, x: string, v: Value): Env
    requires Lookup(env, x).Some?
  {
    if x in env.vars then Env(env.vars[x := v], env.outer)
    else Env(env.vars, Update(env.outer, x, v))
  }

  datatype Store = Store(env: Env, globals: Globals)

  function Read(st: Store, x: string): Value {
    match Lookup(st.env, x)
    case Some(v) => v
    case None => ReadGlobal(st.globals, x)
  }

  function Write(st: Store, x: string, v: Value): Store {
    if Lookup(st.env, x).Some? then st.(env := Update(st.env, x, v))
    else st.(globals := st.globals + [(x, v)])
  }

  function Declare(st: Store, x: string, v: Value): Store {
    if st.env.Env? then st.(env := st.env.(vars := st.env.vars[x := v]))
    else st.(globals := st.globals + [(x, v)])
  }

  function Enter(st: Store, vars: map<string, Value>): Store {
    st.(env := Env(vars, st.env))
  }

  function Leave(st: Store): Store {
    if st.env.Env? then st.(env := st.env.outer) else st
  }

  datatype Result =
    | Normal(v: Value, st: Store)
    | Throws(e: Value, st: Store)
    | Timeout

  function Lift(o: Outcome, st: Store): Result {
    match o
    case Yields(v) => Normal(v, st)
    case Fails(e) => Throws(e, st)
  }

  /** Does the logical operator stop at this left value? */
  predicate Stops(ops: Ops, logic: Logic, v: Value) {
    match logic
    case Or => ops.truthy(v)
    case And => !ops.truthy(v)
    case Nullish => !IsNullish(v)
  }

  function Eval(ops: Ops, fuel: nat, n: Node, st: Store): Result
    decreases fuel, n, 1
  {
    match n
    case Lit(v) => Normal(v, st)
    case Ident(x) => Normal(Read(st, x), st)
    case Decl(x, init) =>
      (match init
       case None => Normal(Undefined, Declare(st, x, Undefined))
       case Some(e) =>
         match Eval(ops, fuel, e, st)
         case Normal(v, st1) => Normal(Undefined, Declare(st1, x, v))
         case r => r)
    case Assign(x, e) =>
      (match Eval(ops, fuel, e, st)
       case Normal(v, st1) => Normal(v, Write(st1, x, v))
       case r => r)
    case OpAssign(op, x, e) =>
      var l := Read(st, x);
      (match Eval(ops, fuel, e, st)
       case Normal(v, st1) =>
         (match ops.binary(op, l, v)
          case Yields(w) => Normal(w, Write(st1, x, w))
          case Fails(err) => Throws(err, st1))
       case r => r)
    case LogicAssign(logic, x, e) =>
      var l := Read(st, x);
      if Stops(ops, logic, l) then Normal(l, st)
      else
        (match Eval(ops, fuel, e, st)
         case Normal(v, st1) => Normal(v, Write(st1, x, v))
         case r => r)
    case Binary(op, a, b) =>
      (match Eval(ops, fuel, a, st)
       case Normal(v, st1) =>
         (match Eval(ops, fuel, b, st1)
          case Normal(w, st2) => Lift(ops.binary(op, v, w), st2)
          case r => r)
       case r => r)
    case Logical(logic, a, b) =>
      (match Eval(ops, fuel, a, st)
       case Normal(v, st1) =>
         if Stops(ops, logic, v) then Normal(v, st1) else Eval(ops, fuel, b, st1)
       case r => r)
    case Unary(op, a) =>
      (match Eval(ops, fuel, a, st)
       case Normal(v, st1) => Lift(ops.unary(op, v), st1)
       case r => r)
    case Prefix(s, x) =>
      (match ops.binary(StepOp(s), Read(st, x), Num(Integral(1)))
       case Yields(w) => Normal(w, Write(st, x, w))
       case Fails(err) => Throws(err, st))
    case Postfix(s, x) =>
      (match ops.binary(StepOp(s), Read(st, x), Num(Integral(1)))
       case Yields(w) => Normal(Read(st, x), Write(st, x, w))
       case Fails(err) => Throws(err, st))
    case Ternary(c, t, e) =>
      (match Eval(ops, fuel, c, st)
       case Normal(v, st1) => Eval(ops, fuel, if ops.truthy(v) then t else e, st1)
       case r => r)
    case Sequence(es) => EvalSequence(ops, fuel, es, st)
    case ExprStmt(e) => Eval(ops, fuel, e, st)
    case Block(ss) => EvalBlock(ops, fuel, ss, Enter(st, map[]))
    case If(c, t, alt) =>
      (match Eval(ops, fuel, c, st)
       case Normal(v, st1) =>
         if ops.truthy(v) then Discard(Eval(ops, fuel, t, st1))
         else if alt.Some? then Discard(Eval(ops, fuel, alt.value, st1))
         else Normal(Undefined, st1)
       case r => r)
    case While(c, b) =>
      if fuel == 0 then Timeout
      else
        (match Eval(ops, fuel, c, st)
         case Normal(v, st1) =>
           if !ops.truthy(v) then Normal(Undefined, st1)
           else
             (match Eval(ops, fuel, b, st1)
              case Normal(_, st2) => Eval(ops, fuel - 1, n, st2)
              case r => r)
         case r => r)
    case DoWhile(b, c) =>
      if fuel == 0 then Timeout
      else
        (match Eval(ops, fuel, b, st)
         case Normal(_, st1) =>
           (match Eval(ops, fuel, c, st1)
            case Normal(v, st2) =>
              if ops.truthy(v) then Eval(ops, fuel - 1, n, st2) else Normal(Undefined, st2)
            case r => r)
         case r => r)
    case Throw(e) =>
      (match Eval(ops, fuel, e, st)
       case Normal(v, st1) => Throws(v, st1)
       case r => r)
    case Try(b, h, f) =>
      var guarded := EvalGuarded(ops, fuel, n, st);
      if f.None? || guarded.Timeout? then guarded
      else
        (match Eval(ops, fuel, f.value, guarded.st)
         case Normal(_, st2) =>
           if guarded.Normal? then Normal(Undefined, st2) else Throws(guarded.e, st2)
         case r => r)
  }

  /** A statement yields no value. */
  function Discard(r: Result): Result {
    if r.Normal? then Normal(Undefined, r.st) else r
  }

  /** The block in front of `finally`: body, then the catch clause on a throw. */
  function EvalGuarded(ops: Ops, fuel: nat, n: Node, st: Store): Result
    requires n.Try?
    decreases fuel, n, 0
  {
    match Eval(ops, fuel, n.body, st)
    case Normal(_, st1) => Normal(Undefined, st1)
    case Throws(e, st1) =>
      if n.handler.None? then Throws(e, st1)
      else EvalBlock(ops, fuel, n.handler.value.stmts, Enter(st1, CatchVars(n.handler.value, e)))
    case Timeout => Timeout
  }

  function CatchVars(c: Catch, e: Value): map<string, Value> {
    if c.param.Some? then map[c.param.value := e] else map[]
  }

  /** Runs the statements in the innermost scope of `st` and leaves that scope. */
  function EvalBlock(ops: Ops, fuel: nat, ss: seq<Node>, st: Store): Result
    decreases fuel, ss, 1
  {
    match EvalStmts(ops, fuel, ss, st)
    case Normal(_, st1) => Normal(Undefined, Leave(st1))
    case Throws(e, st1) => Throws(e, Leave(st1))
    case Timeout => Timeout
  }

  function EvalStmts(ops: Ops, fuel: nat, ss: seq<Node>, st: Store): Result
    decreases fuel, ss, 0
  {
    if |ss| == 0 then Normal(Undefined, st)
    else
      match Eval(ops, fuel, ss[0], st)
      case Normal(_, st1) => EvalStmts(ops, fuel, ss[1..], st1)
      case r => r
  }

  function EvalSequence(ops: Ops, fuel: nat, es: seq<Node>, st: Store): Result
    decreases fuel, es, 0
  {
    if |es| == 0 then Normal(Undefined, st)
    else
      match Eval(ops, fuel, es[0], st)
      case Normal(v, st1) =>
        if |es| == 1 then Normal(v, st1) else EvalSequence(ops, fuel, es[1..], st1)
      case r => r
  }

  /** `++` and `--` are compound assignments of one; in postfix position they yield the old
      value. */
  lemma StepIsAssignment(ops: Ops, fuel: nat, x: string, st: Store)
    ensures var one := Lit(Num(Integral(1)));
            var up, down := Eval(ops, fuel, OpAssign(Add, x, one), st), Eval(ops, fuel, OpAssign(Sub, x, one), st);
            && Eval(ops, fuel, Prefix(Inc, x), st) == up && Eval(ops, fuel, Prefix(Dec, x), st) == down
            && Eval(ops, fuel, Postfix(Inc, x), st) == Yielding(up, Read(st, x))
            && Eval(ops, fuel, Postfix(Dec, x), st) == Yielding(down, Read(st, x))
  {
    assert Eval(ops, fuel, Lit(Num(Integral(1))), st) == Normal(Num(Integral(1)), st);
  }

  function Yielding(r: Result, v: Value): Result {
    if r.Normal? then Normal(v, r.st) else r
  }

  /** The short-circuit operators on values: which operand decides. */
  lemma LogicalMeaning(ops: Ops, fuel: nat, v: Value, w: Value, st: Store)
    ensures Eval(ops, fuel, Logical(Or, Lit(v), Lit(w)), st) == Normal(if ops.truthy(v) then v else w, st)
    ensures Eval(ops, fuel, Logical(And, Lit(v), Lit(w)), st) == Normal(if ops.truthy(v) then w else v, st)
    ensures Eval(ops, fuel, Logical(Nullish, Lit(v), Lit(w)), st)
            == Normal(if v == Null || v == Undefined then w else v, st)
  {
    assert Eval(ops, fuel, Lit(v), st) == Normal(v, st) && Eval(ops, fuel, Lit(w), st) == Normal(w, st);
  }
}
