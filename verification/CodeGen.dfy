/** What the one-pass code generator emits, with every jump already patched.
    The emitter that grows and back-patches the code is proved to produce this. */
module CodeGen {
  import opened Options
  import opened Syntax
  import opened Bytecode

  /** Register of a symbol that has none yet. */
  const UNALLOCATED := -1

  /** Compile-time scopes: symbols in declaration order with their registers. */
  datatype Scope = Root | Frame(names: seq<string>, regs: map<string, int>, outer: Scope)

  function NewFrame(names: seq<string>, outer: Scope): Scope {
    Frame(names, map x | x in names :: UNALLOCATED, outer)
  }

  function Find(sc: Scope, x: string): Option<int> {
    match sc
    case Root => None
    case Frame(_, regs, outer) => if x in regs then Some(regs[x]) else Find(outer, x)
  }

  /** Records the register of the symbol that `Find` selects. */
  function Bind(sc: Scope, x: string, r: int): Scope
    requires Find(sc, x).Some?
  {
    if x in sc.regs then sc.(regs := sc.regs[x := r])
    else sc.(outer := Bind(sc.outer, x, r))
  }

  /** First register above `b` and above every symbol of the frame. */
  function Boundary(names: seq<string>, regs: map<string, int>, b: int): int
    decreases |names|
  {
    if |names| == 0 then b
    else
      var x := names[0];
      Boundary(names[1..], regs, if x in regs && regs[x] >= b then regs[x] + 1 else b)
  }

  function IndexOf(pool: seq<Value>, v: Value): (i: nat)
    ensures i <= |pool|
    ensures i < |pool| ==> pool[i] == v
    ensures forall j :: 0 <= j < i ==> pool[j] != v
  {
    if |pool| == 0 || pool[0] == v then 0 else 1 + IndexOf(pool[1..], v)
  }

  /** The pool after interning `v`: unchanged when `v` is in it already. */
  function Intern(pool: seq<Value>, v: Value): (p: seq<Value>)
    ensures Extends(pool, p)
    ensures IndexOf(pool, v) < |p| && p[IndexOf(pool, v)] == v
  {
    if IndexOf(pool, v) < |pool| then pool else pool + [v]
  }

  predicate Extends(p: seq<Value>, q: seq<Value>) {
    |p| <= |q| && forall i :: 0 <= i < |p| ==> p[i] == q[i]
  }

  datatype Emit = Emit(next: int, max: int, pool: seq<Value>, scope: Scope) {
    function Alloc(): Emit {
      this.(next := next + 1, max := if next + 1 > max then next + 1 else max)
    }

    function Free(r: int): Emit { this.(next := r) }

    function WithPool(v: Value): Emit { this.(pool := Intern(pool, v)) }

    /** Gives the symbol `x` a register if it is in scope and has none. */
    function Place(x: string): Emit {
      if Find(scope, x) == Some(UNALLOCATED)
      then Alloc().(scope := Bind(scope, x, next))
      else this
    }

    predicate Grows(later: Emit) { max <= later.max && Extends(pool, later.pool) }
  }

  datatype Out = Out(code: seq<Instr>, em: Emit)

  function CompileLit(v: Value, em: Emit, dest: int): (o: Out)
    ensures em.Grows(o.em)
  {
    match v
    case Num(n) =>
      if n.Integral? && -0x8000 <= n.i < 0x8000 then Out([LoadInt(dest, n.i)], em)
      else Out([LoadConst(dest, IndexOf(em.pool, v))], em.WithPool(v))
    case Str(_) => Out([LoadConst(dest, IndexOf(em.pool, v))], em.WithPool(v))
    case Boolean(b) => Out([LoadBool(dest, if b then 1 else 0)], em)
    case Null => Out([LoadNull(dest)], em)
    case _ => Out([LoadUndefined(dest)], em)
  }

  function CompileIdent(x: string, em: Emit, dest: int): (o: Out)
    ensures em.Grows(o.em)
  {
    if Find(em.scope, x).None? then
      Out([LoadGlobal(dest, IndexOf(em.pool, Str(x)))], em.WithPool(Str(x)))
    else
      var em1 := em.Place(x);
      Out([Move(dest, if Find(em.scope, x).value == UNALLOCATED then em.next else Find(em.scope, x).value)],
          em1)
  }

  /** Stores register `r` into the variable or global `x`. */
  function CompileStore(x: string, r: int, em: Emit): (o: Out)
    ensures em.Grows(o.em)
  {
    match Find(em.scope, x)
    case Some(reg) => Out([Move(reg, r)], em)
    case None => Out([StoreGlobal(r, IndexOf(em.pool, Str(x)))], em.WithPool(Str(x)))
  }

  /** The jump that skips the right operand. */
  function SkipGuard(logic: Logic): Guard {
    match logic
    case Or => IfTrue
    case And => IfFalse
    case Nullish => IfNullish
  }

  /** The jumps around a conditional assignment of `len` instructions. */
  function SkipAssign(logic: Logic, v: int, len: int): seq<Instr> {
    if logic.Nullish? then [JumpIf(IfNullish, v, 1), Jump(len)] else [JumpIf(SkipGuard(logic), v, len)]
  }

  /** Code that joins the two operands of a logical operator. */
  function JoinLeft(logic: Logic, dest: int, l: int, len: int): seq<Instr> {
    if logic.Nullish? then [Move(dest, l), JumpIf(IfNullish, l, 1), Jump(len + 1)]
    else [JumpIf(SkipGuard(logic), l, len + 2)]
  }

  function JoinRight(logic: Logic, dest: int, l: int, r: int): seq<Instr> {
    if logic.Nullish? then [Move(dest, r)] else [Move(dest, r), Jump(1), Move(dest, l)]
  }

  /** `try` region `body` whose exceptions go to `catcher`. */
  function Guarded(body: seq<Instr>, catcher: seq<Instr>): seq<Instr> {
    [TryBegin(|body| + 2)] + body + [TryEnd] + [Jump(|catcher|)] + catcher
  }

  /** The code for `n` with its value in register `dest`. */
  function Compile(n: Node, em: Emit, dest: int): (o: Out)
    ensures em.Grows(o.em)
    decreases n, 2
  {
    match n
    case Lit(v) => CompileLit(v, em, dest)
    case Ident(x) => CompileIdent(x, em, dest)
    case Sequence(es) => CompileSequence(es, em, dest)
    case ExprStmt(e) => Compile(e, em, dest)
    case Block(ss) => CompileBlock(ss, NewFrame(Declared(ss), em.scope), em, dest)
    case Decl(_, _) => CompileDecl(n, em, dest)
    case Assign(_, _) => CompileAssign(n, em, dest)
    case OpAssign(_, _, _) => CompileOpAssign(n, em, dest)
    case LogicAssign(_, _, _) => CompileLogicAssign(n, em, dest)
    case Binary(_, _, _) => CompileBinary(n, em, dest)
    case Logical(_, _, _) => CompileLogical(n, em, dest)
    case Unary(_, _) => CompileUnary(n, em, dest)
    case Prefix(_, _) => CompilePrefix(n, em, dest)
    case Postfix(_, _) => CompilePostfix(n, em, dest)
    case Ternary(_, _, _) => CompileTernary(n, em, dest)
    case If(_, _, _) => CompileIf(n, em, dest)
    case While(_, _) => CompileWhile(n, em, dest)
    case DoWhile(_, _) => CompileDoWhile(n, em, dest)
    case Throw(_) => CompileThrow(n, em, dest)
    case Try(_, _, _) => CompileTryFinally(n, em, dest)
  }

  function CompileDecl(n: Node, em: Emit, dest: int): (o: Out)
    requires n.Decl?
    ensures em.Grows(o.em)
    decreases n, 1
  {
    var em1 := em.Place(n.name);
    var t := em1.next;
    var o :=
      if n.init.Some? then Compile(n.init.value, em1.Alloc(), t)
      else Out([LoadUndefined(t)], em1.Alloc());
    var s := CompileStore(n.name, t, o.em);
    Out(o.code + s.code + [LoadUndefined(dest)], s.em.Free(t))
  }

  function CompileAssign(n: Node, em: Emit, dest: int): (o: Out)
    requires n.Assign?
    ensures em.Grows(o.em)
    decreases n, 1
  {
    var v := em.next;
    var o := Compile(n.rhs, em.Alloc(), v);
    var s := CompileStore(n.name, v, o.em);
    Out(o.code + s.code + [Move(dest, v)], s.em.Free(v))
  }

  function CompileOpAssign(n: Node, em: Emit, dest: int): (o: Out)
    requires n.OpAssign?
    ensures em.Grows(o.em)
    decreases n, 1
  {
    var v := em.next;
    var em1 := em.Alloc();
    var l := em1.next;
    var o1 := CompileIdent(n.name, em1.Alloc(), l);
    var r := o1.em.next;
    var o2 := Compile(n.rhs, o1.em.Alloc(), r);
    var s := CompileStore(n.name, v, o2.em.Free(l));
    Out(o1.code + o2.code + [BinaryOp(n.op, v, l, r)] + s.code + [Move(dest, v)], s.em.Free(v))
  }

  function CompileLogicAssign(n: Node, em: Emit, dest: int): (o: Out)
    requires n.LogicAssign?
    ensures em.Grows(o.em)
    decreases n, 1
  {
    var v := em.next;
    var o1 := CompileIdent(n.name, em.Alloc(), v);
    var o2 := Compile(n.rhs, o1.em, v);
    var s := CompileStore(n.name, v, o2.em);
    Out(o1.code + SkipAssign(n.logic, v, |o2.code| + |s.code|) + o2.code + s.code + [Move(dest, v)],
        s.em.Free(v))
  }

  function CompileBinary(n: Node, em: Emit, dest: int): (o: Out)
    requires n.Binary?
    ensures em.Grows(o.em)
    decreases n, 1
  {
    var l := em.next;
    var o1 := Compile(n.left, em.Alloc(), l);
    var r := o1.em.next;
    var o2 := Compile(n.right, o1.em.Alloc(), r);
    Out(o1.code + o2.code + [BinaryOp(n.op, dest, l, r)], o2.em.Free(l))
  }

  function CompileLogical(n: Node, em: Emit, dest: int): (o: Out)
    requires n.Logical?
    ensures em.Grows(o.em)
    decreases n, 1
  {
    var l := em.next;
    var o1 := Compile(n.left, em.Alloc(), l);
    var r := o1.em.next;
    var o2 := Compile(n.right, o1.em.Alloc(), r);
    Out(o1.code + JoinLeft(n.logic, dest, l, |o2.code|) + o2.code + JoinRight(n.logic, dest, l, r),
        o2.em.Free(l))
  }

  function CompileUnary(n: Node, em: Emit, dest: int): (o: Out)
    requires n.Unary?
    ensures em.Grows(o.em)
    decreases n, 1
  {
    var e := em.next;
    var o := Compile(n.arg, em.Alloc(), e);
    Out(o.code + [UnaryOp(n.unop, dest, e)], o.em.Free(e))
  }

  function CompilePrefix(n: Node, em: Emit, dest: int): (o: Out)
    requires n.Prefix?
    ensures em.Grows(o.em)
    decreases n, 1
  {
    var e := em.next;
    var o := CompileIdent(n.name, em.Alloc(), e);
    var one := o.em.next;
    var s := CompileStore(n.name, dest, o.em.Alloc().Free(one));
    Out(o.code + [LoadInt(one, 1)] + [BinaryOp(StepOp(n.step), dest, e, one)] + s.code, s.em.Free(e))
  }

  function CompilePostfix(n: Node, em: Emit, dest: int): (o: Out)
    requires n.Postfix?
    ensures em.Grows(o.em)
    decreases n, 1
  {
    var e := em.next;
    var o := CompileIdent(n.name, em.Alloc(), e);
    var one := o.em.next;
    var em1 := o.em.Alloc();
    var t := em1.next;
    var s := CompileStore(n.name, t, em1.Alloc().Free(one));
    Out(o.code + [Move(dest, e)] + [LoadInt(one, 1)] + [BinaryOp(StepOp(n.step), t, e, one)] + s.code,
        s.em.Free(e))
  }

  function CompileTernary(n: Node, em: Emit, dest: int): (o: Out)
    requires n.Ternary?
    ensures em.Grows(o.em)
    decreases n, 1
  {
    var r := em.next;
    var o1 := Compile(n.cond, em.Alloc(), r);
    var o2 := Compile(n.thn, o1.em.Free(r), dest);
    var o3 := Compile(n.els, o2.em, dest);
    Out(o1.code + [JumpIf(IfFalse, r, |o2.code| + 1)] + o2.code + [Jump(|o3.code|)] + o3.code,
        o3.em)
  }

  function CompileIf(n: Node, em: Emit, dest: int): (o: Out)
    requires n.If?
    ensures em.Grows(o.em)
    decreases n, 1
  {
    var r := em.next;
    var o1 := Compile(n.cond, em.Alloc(), r);
    var o2 := Compile(n.thn, o1.em.Free(r).Alloc(), r);
    var o3 := CompileElse(n.alt, o2.em.Free(r), r);
    Out(o1.code + [JumpIf(IfFalse, r, |o2.code| + 1)] + o2.code + [Jump(|o3.code|)] + o3.code
        + [LoadUndefined(dest)],
        o3.em.Free(r))
  }

  function CompileElse(alt: Option<Node>, em: Emit, r: int): (o: Out)
    ensures em.Grows(o.em)
    decreases alt, 1
  {
    if alt.Some? then Compile(alt.value, em.Alloc(), r) else Out([], em)
  }

  function CompileWhile(n: Node, em: Emit, dest: int): (o: Out)
    requires n.While?
    ensures em.Grows(o.em)
    decreases n, 1
  {
    var r := em.next;
    var o1 := Compile(n.cond, em.Alloc(), r);
    var o2 := Compile(n.body, o1.em.Free(r).Alloc(), r);
    Out(o1.code + [JumpIf(IfFalse, r, |o2.code| + 1)] + o2.code
        + [Jump(-(|o1.code| + |o2.code| + 2))] + [LoadUndefined(dest)],
        o2.em.Free(r))
  }

  function CompileDoWhile(n: Node, em: Emit, dest: int): (o: Out)
    requires n.DoWhile?
    ensures em.Grows(o.em)
    decreases n, 1
  {
    var r := em.next;
    var o1 := Compile(n.body, em.Alloc(), r);
    var o2 := Compile(n.cond, o1.em.Free(r).Alloc(), r);
    Out(o1.code + o2.code
        + [JumpIf(IfTrue, r, -(|o1.code| + |o2.code| + 1))] + [LoadUndefined(dest)],
        o2.em.Free(r))
  }

  function CompileThrow(n: Node, em: Emit, dest: int): (o: Out)
    requires n.Throw?
    ensures em.Grows(o.em)
    decreases n, 1
  {
    var r := em.next;
    var o := Compile(n.arg, em.Alloc(), r);
    Out(o.code + [ThrowReg(r)] + [LoadUndefined(dest)], o.em.Free(r))
  }

  /** The finalizer is compiled twice: before a rethrow, and for the normal exit. */
  function CompileTryFinally(n: Node, em: Emit, dest: int): (o: Out)
    requires n.Try?
    ensures em.Grows(o.em)
    decreases n, 1
  {
    var o1 := CompileTry(n, em);
    if n.finalizer.None? then Out(o1.code + [LoadUndefined(dest)], o1.em)
    else
      var x := o1.em.next;
      var em2 := o1.em.Alloc();
      var o2 := Compile(n.finalizer.value, em2.Alloc(), em2.next);
      var rethrow := [CatchBegin(x)] + o2.code + [ThrowReg(x)];
      var o3 := Compile(n.finalizer.value, o2.em.Free(x).Alloc(), x);
      Out(Guarded(o1.code, rethrow) + o3.code + [LoadUndefined(dest)], o3.em.Free(x))
  }

  /** The protected block and its catch clause, without `finally`. */
  function CompileTry(n: Node, em: Emit): (o: Out)
    requires n.Try?
    ensures em.Grows(o.em)
    decreases n, 0
  {
    var r := em.next;
    var o1 := Compile(n.body, em.Alloc(), r);
    var o2 := CompileHandler(n.handler, r, o1.em.Free(r).Alloc());
    Out(Guarded(o1.code, [CatchBegin(r)] + o2.code), o2.em.Free(r))
  }

  /** What happens to a caught value: its catch clause, or a rethrow. */
  function CompileHandler(h: Option<Catch>, err: int, em: Emit): (o: Out)
    ensures em.Grows(o.em)
    decreases h, 0
  {
    if h.None? then Out([ThrowReg(err)], em) else CompileCatch(h.value, err, em)
  }

  function CatchNames(c: Catch): seq<string> {
    var names := Declared(c.stmts);
    if c.param.Some? && c.param.value !in names then [c.param.value] + names else names
  }

  /** Enters the scope of the clause and moves the caught value to its parameter. */
  function CompileParam(c: Catch, err: int, em: Emit): (o: Out)
    ensures em.Grows(o.em)
  {
    var em0 := em.(scope := NewFrame(CatchNames(c), em.scope));
    if c.param.Some? then CompileStore(c.param.value, err, em0.Place(c.param.value)) else Out([], em0)
  }

  function CompileCatch(c: Catch, err: int, em: Emit): (o: Out)
    ensures em.Grows(o.em)
    decreases c, 0
  {
    var bind := CompileParam(c, err, em);
    var o := CompileBlock(c.stmts, bind.em.scope, bind.em.Alloc(), bind.em.next);
    Out(bind.code + o.code, o.em)
  }

  /** A statement list in the scope `frame`; the registers it takes are given back. */
  function CompileBlock(ss: seq<Node>, frame: Scope, em: Emit, dest: int): (o: Out)
    ensures em.Grows(o.em)
    decreases ss, 1
  {
    var o := CompileStmts(ss, em.(scope := frame));
    var outer := if o.em.scope.Frame? then o.em.scope.outer else Root;
    Out(o.code + [LoadUndefined(dest)], o.em.Free(em.next).(scope := outer))
  }

  function CompileStmts(ss: seq<Node>, em: Emit): (o: Out)
    ensures em.Grows(o.em)
    decreases ss, 0
  {
    if |ss| == 0 then Out([], em)
    else
      var o := Compile(ss[0], em.Alloc(), em.next);
      var rest := CompileStmts(ss[1..], AfterStmt(o.em, em.next));
      Out(o.code + rest.code, rest.em)
  }

  /** Drops the temporaries of a statement that was compiled into register `r`. */
  function AfterStmt(em: Emit, r: int): Emit {
    if em.scope.Frame? then em.Free(Boundary(em.scope.names, em.scope.regs, r + 1))
    else em.Free(r + 1)
  }

  function CompileSequence(es: seq<Node>, em: Emit, dest: int): (o: Out)
    ensures em.Grows(o.em)
    decreases es, 0
  {
    if |es| == 0 then Out([], em)
    else if |es| == 1 then Compile(es[0], em, dest)
    else
      var o := Compile(es[0], em.Alloc(), em.next);
      var rest := CompileSequence(es[1..], o.em.Free(em.next), dest);
      Out(o.code + rest.code, rest.em)
  }
}
