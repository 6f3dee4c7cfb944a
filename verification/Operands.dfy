/** Every operand the code generator emits lies below the register count, the pool
    size and the code length that it reports. */
module Operands {
  import opened Options
  import opened Syntax
  import opened Bytecode
  import opened Machine
  import opened CodeGen
  import opened Scoping
  import Simulation
  import Program

  /** The operands of `o` fit what `whole` reports. */
  predicate Inside(code: seq<Instr>, whole: Out) {
    AllFit(code, whole.em.max, |whole.em.pool|, |whole.code|)
  }

  /** What holds of the generator's state when it compiles into `dest`. */
  predicate Roomy(ctx: Ctx, em: Emit, dest: int) {
    Tidy(ctx, em, dest) && em.next <= em.max
  }

  lemma Wider(code: seq<Instr>, o: Out, whole: Out)
    requires Inside(code, o) && o.em.Grows(whole.em) && |o.code| <= |whole.code|
    ensures Inside(code, whole)
  {
  }

  lemma Joined(f: seq<Instr>, g: seq<Instr>, whole: Out)
    requires Inside(f, whole) && Inside(g, whole)
    ensures Inside(f + g, whole)
  {
  }

  lemma TempRoomy(ctx: Ctx, em: Emit, dest: int, em1: Emit)
    requires Roomy(ctx, em, dest) && em1.scope == em.scope && em1.next > em.next && em1.next <= em1.max
    ensures Roomy(ctx, em1, em.next) && Roomy(ctx, em1, dest)
  {
    Temporary(ctx, em, dest, em1);
  }

  /** Registers of variables are below the next free one. */
  lemma {:induction false} FoundBelow(ctx: Ctx, sc: Scope, bound: int, x: string)
    requires Agrees(ctx, sc) && Separate(sc, bound) && Resolvable(ctx, x)
    ensures Find(sc, x).Some? ==> 0 <= Find(sc, x).value < bound
  {
    if sc.Frame? && x !in sc.regs {
      FoundBelow(ctx.outer, sc.outer, bound, x);
    }
  }

  lemma IdentFits(ctx: Ctx, em: Emit, x: string, a: int)
    requires Roomy(ctx, em, a) && Resolvable(ctx, x)
    ensures var o := CompileIdent(x, em, a);
            Inside(o.code, o) && o.em.scope == em.scope && o.em.next == em.next && o.em.next <= o.em.max
  {
    FoundBelow(ctx, em.scope, em.next, x);
  }

  lemma StoreFits(ctx: Ctx, em: Emit, x: string, r: int)
    requires Agrees(ctx, em.scope) && Separate(em.scope, em.next) && em.next <= em.max && Resolvable(ctx, x)
    requires 0 <= r < em.max
    ensures var o := CompileStore(x, r, em);
            Inside(o.code, o) && o.em.scope == em.scope && o.em.next == em.next && o.em.next <= o.em.max
  {
    FoundBelow(ctx, em.scope, em.next, x);
  }

  lemma Joined3(f: seq<Instr>, g: seq<Instr>, h: seq<Instr>, whole: Out)
    requires Inside(f, whole) && Inside(g, whole) && Inside(h, whole)
    ensures Inside(f + g + h, whole)
  {
    Joined(f, g, whole);
    Joined(f + g, h, whole);
  }

  lemma Joined5(f: seq<Instr>, g: seq<Instr>, h: seq<Instr>, i: seq<Instr>, j: seq<Instr>, whole: Out)
    requires Inside(f, whole) && Inside(g, whole) && Inside(h, whole) && Inside(i, whole) && Inside(j, whole)
    ensures Inside(f + g + h + i, whole) && Inside(f + g + h + i + j, whole)
  {
    Joined3(f, g, h, whole);
    Joined(f + g + h, i, whole);
    Joined(f + g + h + i, j, whole);
  }

  /** All operands of the code for `n` are below what the generator reports. */
  lemma {:induction false} NodeFits(ctx: Ctx, em: Emit, dest: int, n: Node)
    requires Roomy(ctx, em, dest) && Scoped(ctx, n)
    ensures Inside(Compile(n, em, dest).code, Compile(n, em, dest))
    decreases n, 3
  {
    hide Compile, Scoped, Inside, Separate, Agrees, Holds, Find;
    match n
    case Lit(_) => LeafFits(ctx, em, dest, n);
    case Ident(_) => LeafFits(ctx, em, dest, n);
    case Assign(_, _) => AssignFits(ctx, em, dest, n);
    case OpAssign(_, _, _) => OpAssignFits(ctx, em, dest, n);
    case LogicAssign(_, _, _) => LogicAssignFits(ctx, em, dest, n);
    case Binary(_, _, _) => BinaryFits(ctx, em, dest, n);
    case Logical(_, _, _) => LogicalFits(ctx, em, dest, n);
    case Unary(_, _) => UnaryFits(ctx, em, dest, n);
    case Prefix(_, _) => PrefixFits(ctx, em, dest, n);
    case Postfix(_, _) => PostfixFits(ctx, em, dest, n);
    case Ternary(_, _, _) => TernaryFits(ctx, em, dest, n);
    case Sequence(es) =>
      WrapperFits(ctx, em, dest, n);
      SequenceFits(ctx, em, dest, es);
    case ExprStmt(e) =>
      WrapperFits(ctx, em, dest, n);
      NodeFits(ctx, em, dest, e);
    case Block(ss) =>
      WrapperFits(ctx, em, dest, n);
      NewFrameTidy(ctx, em.scope, em.next, Declared(ss));
      BlockFits(EnterCtx(ctx, Declared(ss), {}), NewFrame(Declared(ss), em.scope), em.next, em, dest, ss);
    case If(_, _, _) => IfFits(ctx, em, dest, n);
    case While(_, _) => WhileFits(ctx, em, dest, n);
    case DoWhile(_, _) => DoWhileFits(ctx, em, dest, n);
    case Throw(_) => ThrowFits(ctx, em, dest, n);
    case Try(_, _, _) => TryFinallyFits(ctx, em, dest, n);
    case Decl(_, _) => Simulation.NoDecl(ctx, n);
  }

  lemma LeafFits(ctx: Ctx, em: Emit, dest: int, n: Node)
    requires Roomy(ctx, em, dest) && Scoped(ctx, n) && (n.Lit? || n.Ident?)
    ensures Inside(Compile(n, em, dest).code, Compile(n, em, dest))
  {
    if n.Ident? {
      IdentFits(ctx, em, n.name, dest);
    }
  }

  lemma WrapperFits(ctx: Ctx, em: Emit, dest: int, n: Node)
    requires Scoped(ctx, n) && (n.Sequence? || n.ExprStmt? || n.Block?)
    ensures n.Sequence? ==> Compile(n, em, dest) == CompileSequence(n.exprs, em, dest)
                            && |n.exprs| > 0 && forall e :: e in n.exprs ==> Scoped(ctx, e)
    ensures n.ExprStmt? ==> Compile(n, em, dest) == Compile(n.arg, em, dest) && Scoped(ctx, n.arg)
    ensures n.Block? ==> Compile(n, em, dest) == CompileBlock(n.stmts, NewFrame(Declared(n.stmts), em.scope), em, dest)
                         && ScopedStmts(EnterCtx(ctx, Declared(n.stmts), {}), n.stmts)
  {
  }

  lemma One(i: Instr, whole: Out)
    requires Fits(i, whole.em.max, |whole.em.pool|, |whole.code|)
    ensures Inside([i], whole)
  {
  }

  lemma Chained(a: Emit, b: Emit, c: Emit)
    requires a.Grows(b) && b.Grows(c)
    ensures a.Grows(c)
  {
  }

  lemma {:induction false} UnaryFits(ctx: Ctx, em: Emit, dest: int, n: Node)
    requires Roomy(ctx, em, dest) && Scoped(ctx, n) && n.Unary?
    ensures Inside(Compile(n, em, dest).code, Compile(n, em, dest))
    decreases n, 2
  {
    hide Compile, Inside, Separate, Agrees, Holds, Find, Extends;
    Simulation.Dispatch(n, em, dest);
    var o := Compile(n, em, dest);
    var o1 := Compile(n.arg, em.Alloc(), em.next);
    TempRoomy(ctx, em, dest, em.Alloc());
    NodeFits(ctx, em.Alloc(), em.next, n.arg);
    Wider(o1.code, o1, o);
    One(UnaryOp(n.unop, dest, em.next), o);
    Joined(o1.code, [UnaryOp(n.unop, dest, em.next)], o);
  }

  lemma {:induction false} ThrowFits(ctx: Ctx, em: Emit, dest: int, n: Node)
    requires Roomy(ctx, em, dest) && Scoped(ctx, n) && n.Throw?
    ensures Inside(Compile(n, em, dest).code, Compile(n, em, dest))
    decreases n, 2
  {
    hide Compile, Inside, Separate, Agrees, Holds, Find, Extends;
    Simulation.Dispatch(n, em, dest);
    var o := Compile(n, em, dest);
    var o1 := Compile(n.arg, em.Alloc(), em.next);
    TempRoomy(ctx, em, dest, em.Alloc());
    NodeFits(ctx, em.Alloc(), em.next, n.arg);
    Wider(o1.code, o1, o);
    One(ThrowReg(em.next), o);
    One(LoadUndefined(dest), o);
    Joined3(o1.code, [ThrowReg(em.next)], [LoadUndefined(dest)], o);
  }

  lemma {:induction false} BinaryFits(ctx: Ctx, em: Emit, dest: int, n: Node)
    requires Roomy(ctx, em, dest) && Scoped(ctx, n) && n.Binary?
    ensures Inside(Compile(n, em, dest).code, Compile(n, em, dest))
    decreases n, 2
  {
    hide Compile, Inside, Separate, Agrees, Holds, Find, Extends;
    Simulation.Dispatch(n, em, dest);
    var o := Compile(n, em, dest);
    var l, r := em.next, em.next + 1;
    var o1 := Compile(n.left, em.Alloc(), l);
    var em2 := o1.em.Alloc();
    var o2 := Compile(n.right, em2, r);
    KeepsBoth(ctx, n, n.left, n.right, em);
    TempRoomy(ctx, em, dest, em.Alloc());
    TempRoomy(ctx, em.Alloc(), dest, em2);
    NodeFits(ctx, em.Alloc(), l, n.left);
    NodeFits(ctx, em2, r, n.right);
    Chained(o1.em, o2.em, o.em);
    Wider(o1.code, o1, o);
    Wider(o2.code, o2, o);
    One(BinaryOp(n.op, dest, l, r), o);
    Joined3(o1.code, o2.code, [BinaryOp(n.op, dest, l, r)], o);
  }

  lemma {:induction false} LogicalFits(ctx: Ctx, em: Emit, dest: int, n: Node)
    requires Roomy(ctx, em, dest) && Scoped(ctx, n) && n.Logical?
    ensures Inside(Compile(n, em, dest).code, Compile(n, em, dest))
    decreases n, 2
  {
    hide Compile, Inside, Separate, Agrees, Holds, Find, Extends, JoinLeft, JoinRight;
    Simulation.Dispatch(n, em, dest);
    var o := Compile(n, em, dest);
    var l, r := em.next, em.next + 1;
    var o1 := Compile(n.left, em.Alloc(), l);
    var em2 := o1.em.Alloc();
    var o2 := Compile(n.right, em2, r);
    KeepsBoth(ctx, n, n.left, n.right, em);
    TempRoomy(ctx, em, dest, em.Alloc());
    TempRoomy(ctx, em.Alloc(), dest, em2);
    NodeFits(ctx, em.Alloc(), l, n.left);
    NodeFits(ctx, em2, r, n.right);
    Chained(o1.em, o2.em, o.em);
    Wider(o1.code, o1, o);
    Wider(o2.code, o2, o);
    JoinsFit(n.logic, dest, l, r, |o2.code|, o);
    Joined3(o1.code, JoinLeft(n.logic, dest, l, |o2.code|), o2.code, o);
    Joined(o1.code + JoinLeft(n.logic, dest, l, |o2.code|) + o2.code, JoinRight(n.logic, dest, l, r), o);
  }

  lemma JoinsFit(logic: Logic, dest: int, l: int, r: int, len: int, whole: Out)
    requires 0 <= dest < whole.em.max && 0 <= l < whole.em.max && 0 <= r < whole.em.max
    requires 0 <= len && len + |JoinLeft(logic, dest, l, len)| + |JoinRight(logic, dest, l, r)| <= |whole.code|
    ensures Inside(JoinLeft(logic, dest, l, len), whole) && Inside(JoinRight(logic, dest, l, r), whole)
  {
  }

  lemma SkipFits(logic: Logic, v: int, len: int, whole: Out)
    requires 0 <= v < whole.em.max && 0 <= len < |whole.code|
    ensures Inside(SkipAssign(logic, v, len), whole)
  {
  }

  lemma {:induction false} AssignFits(ctx: Ctx, em: Emit, dest: int, n: Node)
    requires Roomy(ctx, em, dest) && Scoped(ctx, n) && n.Assign?
    ensures Inside(Compile(n, em, dest).code, Compile(n, em, dest))
    decreases n, 2
  {
    hide Compile, Inside, Separate, Agrees, Holds, Find, Extends;
    Simulation.Dispatch(n, em, dest);
    var o := Compile(n, em, dest);
    var v := em.next;
    var o1 := Compile(n.rhs, em.Alloc(), v);
    var s := CompileStore(n.name, v, o1.em);
    Keeps(ctx, n.rhs, em.Alloc(), v);
    TempRoomy(ctx, em, dest, em.Alloc());
    NodeFits(ctx, em.Alloc(), v, n.rhs);
    StoreFits(ctx, o1.em, n.name, v);
    Wider(o1.code, o1, o);
    Wider(s.code, s, o);
    One(Move(dest, v), o);
    Joined3(o1.code, s.code, [Move(dest, v)], o);
  }

  lemma {:induction false} OpAssignFits(ctx: Ctx, em: Emit, dest: int, n: Node)
    requires Roomy(ctx, em, dest) && Scoped(ctx, n) && n.OpAssign?
    ensures Inside(Compile(n, em, dest).code, Compile(n, em, dest))
    decreases n, 2
  {
    hide Compile, Inside, Separate, Agrees, Holds, Find, Extends, CompileIdent, CompileStore;
    Simulation.Dispatch(n, em, dest);
    var o := Compile(n, em, dest);
    var v, l, r, em1 := em.next, em.next + 1, em.next + 2, em.Alloc().Alloc();
    var o1 := CompileIdent(n.name, em1, l);
    TempRoomy(ctx, em, dest, em.Alloc());
    TempRoomy(ctx, em.Alloc(), dest, em1);
    IdentFits(ctx, em1, n.name, l);
    var em2 := o1.em.Alloc();
    TempRoomy(ctx, em1, dest, em2);
    var o2 := Compile(n.rhs, em2, r);
    Keeps(ctx, n.rhs, em2, r);
    NodeFits(ctx, em2, r, n.rhs);
    var s := CompileStore(n.name, v, o2.em.Free(l));
    StoreFits(ctx, o2.em.Free(l), n.name, v);
    Chained(o2.em.Free(l), s.em, o.em);
    Chained(o1.em, o2.em, o.em);
    Wider(o1.code, o1, o);
    Wider(o2.code, o2, o);
    Wider(s.code, s, o);
    One(BinaryOp(n.op, v, l, r), o);
    One(Move(dest, v), o);
    Joined5(o1.code, o2.code, [BinaryOp(n.op, v, l, r)], s.code, [Move(dest, v)], o);
  }

  lemma {:induction false} LogicAssignFits(ctx: Ctx, em: Emit, dest: int, n: Node)
    requires Roomy(ctx, em, dest) && Scoped(ctx, n) && n.LogicAssign?
    ensures Inside(Compile(n, em, dest).code, Compile(n, em, dest))
    decreases n, 2
  {
    hide Compile, Inside, Separate, Agrees, Holds, Find, Extends, CompileIdent, CompileStore, SkipAssign;
    Simulation.Dispatch(n, em, dest);
    var o := Compile(n, em, dest);
    var v := em.next;
    var o1 := CompileIdent(n.name, em.Alloc(), v);
    TempRoomy(ctx, em, dest, em.Alloc());
    IdentFits(ctx, em.Alloc(), n.name, v);
    var o2 := Compile(n.rhs, o1.em, v);
    Keeps(ctx, n.rhs, o1.em, v);
    NodeFits(ctx, o1.em, v, n.rhs);
    var s := CompileStore(n.name, v, o2.em);
    StoreFits(ctx, o2.em, n.name, v);
    var skip := SkipAssign(n.logic, v, |o2.code| + |s.code|);
    Chained(o2.em, s.em, o.em);
    Chained(o1.em, o2.em, o.em);
    Wider(o1.code, o1, o);
    Wider(o2.code, o2, o);
    Wider(s.code, s, o);
    SkipFits(n.logic, v, |o2.code| + |s.code|, o);
    One(Move(dest, v), o);
    Joined5(o1.code, skip, o2.code, s.code, [Move(dest, v)], o);
  }

  lemma {:induction false} PrefixFits(ctx: Ctx, em: Emit, dest: int, n: Node)
    requires Roomy(ctx, em, dest) && Scoped(ctx, n) && n.Prefix?
    ensures Inside(Compile(n, em, dest).code, Compile(n, em, dest))
    decreases n, 2
  {
    hide Compile, Inside, Separate, Agrees, Holds, Find, Extends, CompileIdent, CompileStore;
    Simulation.Dispatch(n, em, dest);
    var o := Compile(n, em, dest);
    var e, one := em.next, em.next + 1;
    var o1 := CompileIdent(n.name, em.Alloc(), e);
    TempRoomy(ctx, em, dest, em.Alloc());
    IdentFits(ctx, em.Alloc(), n.name, e);
    var em1 := o1.em.Alloc().Free(one);
    var s := CompileStore(n.name, dest, em1);
    StoreFits(ctx, em1, n.name, dest);
    var i := BinaryOp(StepOp(n.step), dest, e, one);
    Chained(o1.em, em1, s.em);
    Wider(o1.code, o1, o);
    Wider(s.code, s, o);
    One(LoadInt(one, 1), o);
    One(i, o);
    Joined3(o1.code, [LoadInt(one, 1)], [i], o);
    Joined(o1.code + [LoadInt(one, 1)] + [i], s.code, o);
  }

  lemma {:induction false} PostfixFits(ctx: Ctx, em: Emit, dest: int, n: Node)
    requires Roomy(ctx, em, dest) && Scoped(ctx, n) && n.Postfix?
    ensures Inside(Compile(n, em, dest).code, Compile(n, em, dest))
    decreases n, 2
  {
    hide Compile, Inside, Separate, Agrees, Holds, Find, Extends, CompileIdent, CompileStore;
    Simulation.Dispatch(n, em, dest);
    var o := Compile(n, em, dest);
    var e, one, t := em.next, em.next + 1, em.next + 2;
    var o1 := CompileIdent(n.name, em.Alloc(), e);
    TempRoomy(ctx, em, dest, em.Alloc());
    IdentFits(ctx, em.Alloc(), n.name, e);
    var em1 := o1.em.Alloc().Alloc().Free(one);
    var s := CompileStore(n.name, t, em1);
    StoreFits(ctx, em1, n.name, t);
    var i := BinaryOp(StepOp(n.step), t, e, one);
    Chained(o1.em, em1, s.em);
    Wider(o1.code, o1, o);
    Wider(s.code, s, o);
    One(Move(dest, e), o);
    One(LoadInt(one, 1), o);
    One(i, o);
    Joined5(o1.code, [Move(dest, e)], [LoadInt(one, 1)], [i], s.code, o);
  }

  lemma {:induction false} TernaryFits(ctx: Ctx, em: Emit, dest: int, n: Node)
    requires Roomy(ctx, em, dest) && Scoped(ctx, n) && n.Ternary?
    ensures Inside(Compile(n, em, dest).code, Compile(n, em, dest))
    decreases n, 2
  {
    hide Compile, Inside, Separate, Agrees, Holds, Find, Extends;
    Simulation.Dispatch(n, em, dest);
    var o := Compile(n, em, dest);
    var r := em.next;
    var o1 := Compile(n.cond, em.Alloc(), r);
    var em2 := o1.em.Free(r);
    Keeps(ctx, n.cond, em.Alloc(), r);
    var o2 := Compile(n.thn, em2, dest);
    Keeps(ctx, n.thn, em2, dest);
    var o3 := Compile(n.els, o2.em, dest);
    TempRoomy(ctx, em, dest, em.Alloc());
    NodeFits(ctx, em.Alloc(), r, n.cond);
    NodeFits(ctx, em2, dest, n.thn);
    NodeFits(ctx, o2.em, dest, n.els);
    Chained(o2.em, o3.em, o.em);
    Chained(o1.em, o2.em, o.em);
    Wider(o1.code, o1, o);
    Wider(o2.code, o2, o);
    Wider(o3.code, o3, o);
    One(JumpIf(IfFalse, r, |o2.code| + 1), o);
    One(Jump(|o3.code|), o);
    Joined5(o1.code, [JumpIf(IfFalse, r, |o2.code| + 1)], o2.code, [Jump(|o3.code|)], o3.code, o);
  }

  lemma {:induction false} IfFits(ctx: Ctx, em: Emit, dest: int, n: Node)
    requires Roomy(ctx, em, dest) && Scoped(ctx, n) && n.If?
    ensures Inside(Compile(n, em, dest).code, Compile(n, em, dest))
    decreases n, 2
  {
    hide Compile, Inside, Separate, Agrees, Holds, Find, Extends, CompileElse;
    Simulation.Dispatch(n, em, dest);
    var o := Compile(n, em, dest);
    var r := em.next;
    var o1 := Compile(n.cond, em.Alloc(), r);
    var em2 := o1.em.Free(r).Alloc();
    var o2 := Compile(n.thn, em2, r);
    KeepsChain(ctx, n, n.cond, n.thn, em);
    var o3 := CompileElse(n.alt, o2.em.Free(r), r);
    TempRoomy(ctx, em, dest, em.Alloc());
    TempRoomy(ctx, em, dest, em2);
    NodeFits(ctx, em.Alloc(), r, n.cond);
    NodeFits(ctx, em2, r, n.thn);
    ElseFits(ctx, em, o2.em.Free(r), dest, n);
    Chained(o2.em.Free(r), o3.em, o.em);
    Chained(o1.em, o2.em, o.em);
    Wider(o1.code, o1, o);
    Wider(o2.code, o2, o);
    Wider(o3.code, o3, o);
    One(JumpIf(IfFalse, r, |o2.code| + 1), o);
    One(Jump(|o3.code|), o);
    One(LoadUndefined(dest), o);
    Joined5(o1.code, [JumpIf(IfFalse, r, |o2.code| + 1)], o2.code, [Jump(|o3.code|)], o3.code, o);
    Joined(o1.code + [JumpIf(IfFalse, r, |o2.code| + 1)] + o2.code + [Jump(|o3.code|)] + o3.code,
           [LoadUndefined(dest)], o);
  }

  lemma {:induction false} ElseFits(ctx: Ctx, em: Emit, em1: Emit, dest: int, n: Node)
    requires Roomy(ctx, em, dest) && n.If? && Scoped(ctx, n)
    requires em1.scope == em.scope && em1.next == em.next && em1.next <= em1.max
    ensures var o := CompileElse(n.alt, em1, em.next);
            Inside(o.code, o)
    decreases n, 1
  {
    if n.alt.Some? {
      TempRoomy(ctx, em, dest, em1.Alloc());
      NodeFits(ctx, em1.Alloc(), em.next, n.alt.value);
    }
  }

  lemma {:induction false} WhileFits(ctx: Ctx, em: Emit, dest: int, n: Node)
    requires Roomy(ctx, em, dest) && Scoped(ctx, n) && n.While?
    ensures Inside(Compile(n, em, dest).code, Compile(n, em, dest))
    decreases n, 2
  {
    hide Compile, Inside, Separate, Agrees, Holds, Find, Extends;
    Simulation.Dispatch(n, em, dest);
    var o := Compile(n, em, dest);
    var r := em.next;
    var o1 := Compile(n.cond, em.Alloc(), r);
    var em2 := o1.em.Free(r).Alloc();
    var o2 := Compile(n.body, em2, r);
    KeepsChain(ctx, n, n.cond, n.body, em);
    TempRoomy(ctx, em, dest, em.Alloc());
    TempRoomy(ctx, em, dest, em2);
    NodeFits(ctx, em.Alloc(), r, n.cond);
    NodeFits(ctx, em2, r, n.body);
    Chained(o1.em, o2.em, o.em);
    Wider(o1.code, o1, o);
    Wider(o2.code, o2, o);
    One(JumpIf(IfFalse, r, |o2.code| + 1), o);
    One(Jump(-(|o1.code| + |o2.code| + 2)), o);
    One(LoadUndefined(dest), o);
    Joined5(o1.code, [JumpIf(IfFalse, r, |o2.code| + 1)], o2.code, [Jump(-(|o1.code| + |o2.code| + 2))],
            [LoadUndefined(dest)], o);
  }

  lemma {:induction false} DoWhileFits(ctx: Ctx, em: Emit, dest: int, n: Node)
    requires Roomy(ctx, em, dest) && Scoped(ctx, n) && n.DoWhile?
    ensures Inside(Compile(n, em, dest).code, Compile(n, em, dest))
    decreases n, 2
  {
    hide Compile, Inside, Separate, Agrees, Holds, Find, Extends;
    Simulation.Dispatch(n, em, dest);
    var o := Compile(n, em, dest);
    var r := em.next;
    var o1 := Compile(n.body, em.Alloc(), r);
    var em2 := o1.em.Free(r).Alloc();
    var o2 := Compile(n.cond, em2, r);
    KeepsChain(ctx, n, n.body, n.cond, em);
    TempRoomy(ctx, em, dest, em.Alloc());
    TempRoomy(ctx, em, dest, em2);
    NodeFits(ctx, em.Alloc(), r, n.body);
    NodeFits(ctx, em2, r, n.cond);
    Chained(o1.em, o2.em, o.em);
    Wider(o1.code, o1, o);
    Wider(o2.code, o2, o);
    var back := JumpIf(IfTrue, r, -(|o1.code| + |o2.code| + 1));
    One(back, o);
    One(LoadUndefined(dest), o);
    Joined3(o1.code, o2.code, [back], o);
    Joined(o1.code + o2.code + [back], [LoadUndefined(dest)], o);
  }

  lemma {:induction false} SequenceFits(ctx: Ctx, em: Emit, dest: int, es: seq<Node>)
    requires Roomy(ctx, em, dest) && forall e :: e in es ==> Scoped(ctx, e)
    ensures Inside(CompileSequence(es, em, dest).code, CompileSequence(es, em, dest))
    decreases es, 0
  {
    hide Compile, Separate, Agrees, Holds, Find;
    if |es| == 1 {
      NodeFits(ctx, em, dest, es[0]);
    } else if |es| > 1 {
      var whole := CompileSequence(es, em, dest);
      var o := Compile(es[0], em.Alloc(), em.next);
      Keeps(ctx, es[0], em.Alloc(), em.next);
      TempRoomy(ctx, em, dest, em.Alloc());
      NodeFits(ctx, em.Alloc(), em.next, es[0]);
      var rest := CompileSequence(es[1..], o.em.Free(em.next), dest);
      SequenceFits(ctx, o.em.Free(em.next), dest, es[1..]);
      Wider(o.code, o, whole);
      Wider(rest.code, rest, whole);
      Joined(o.code, rest.code, whole);
    }
  }

  /** A statement list in the scope `frame`, whose registers start at `b`. */
  lemma {:induction false} BlockFits(ctx: Ctx, frame: Scope, b: int, em: Emit, dest: int, ss: seq<Node>)
    requires Simulation.InBlock(ctx, em.(scope := frame), b) && ScopedStmts(ctx, ss)
    requires em.next <= em.max && 0 <= dest < em.next
    ensures var o := CompileBlock(ss, frame, em, dest);
            Inside(o.code, o)
    decreases ss, 1
  {
    hide Compile, CompileStmts, Inside, Separate, Agrees, Holds, Find;
    var whole := CompileBlock(ss, frame, em, dest);
    var o := CompileStmts(ss, em.(scope := frame));
    StmtsFit(ctx, em.(scope := frame), b, ss);
    Wider(o.code, o, whole);
    One(LoadUndefined(dest), whole);
    Joined(o.code, [LoadUndefined(dest)], whole);
  }

  lemma {:induction false} StmtsFit(ctx: Ctx, em: Emit, b: int, ss: seq<Node>)
    requires Simulation.InBlock(ctx, em, b) && ScopedStmts(ctx, ss) && em.next <= em.max
    ensures Inside(CompileStmts(ss, em).code, CompileStmts(ss, em))
    decreases ss, 0
  {
    if |ss| > 0 {
      hide Compile, Inside, Separate, Agrees, Holds, Find, Scoped;
      Simulation.ScopedHead(ctx, ss);
      var whole := CompileStmts(ss, em);
      var o := Compile(ss[0], em.Alloc(), em.next);
      var em1 := AfterStmt(o.em, em.next);
      StmtFits(ctx, em, b, ss[0]);
      StmtsFit(AfterCtx(ctx, ss[0]), em1, b, ss[1..]);
      var rest := CompileStmts(ss[1..], em1);
      Wider(o.code, o, whole);
      Wider(rest.code, rest, whole);
      Joined(o.code, rest.code, whole);
    }
  }

  /** One statement of a block, and the state it leaves the generator in. */
  lemma {:induction false} StmtFits(ctx: Ctx, em: Emit, b: int, n: Node)
    requires Simulation.InBlock(ctx, em, b) && em.next <= em.max
    requires if n.Decl? then n.name in ctx.declared && (n.init.Some? ==> Scoped(ctx, n.init.value)) else Scoped(ctx, n)
    ensures var o := Compile(n, em.Alloc(), em.next);
            var em1 := AfterStmt(o.em, em.next);
            Inside(o.code, o) && Simulation.InBlock(AfterCtx(ctx, n), em1, b) && em1.next <= em1.max
    decreases n, 4
  {
    hide Compile, Inside, Scoped, Separate, Agrees, Holds, Find;
    var em0, r := em.Alloc(), em.next;
    Simulation.InBlockTidy(ctx, em, b);
    var o := Compile(n, em0, r);
    if n.Decl? {
      KeepsDecl(ctx, n, em0, r);
      Simulation.InBlockPlace(ctx, em, b, n.name);
      DeclFits(ctx, em0, r, n);
      Simulation.NextStmt(AfterCtx(ctx, n), o.em, b, r);
      BoundaryWithin(AfterCtx(ctx, n), o.em, b, r);
    } else {
      Keeps(ctx, n, em0, r);
      NodeFits(ctx, em0, r, n);
      SeparateAbove(em.scope, r, r + 1);
      Simulation.NextStmt(ctx, o.em, b, r);
      BoundaryWithin(ctx, o.em, b, r);
    }
  }

  /** The boundary between statements never passes a register that was not taken. */
  lemma BoundaryWithin(ctx: Ctx, em: Emit, b: int, r: int)
    requires Simulation.InBlock(ctx, em, b) && r + 1 <= em.next <= em.max
    ensures AfterStmt(em, r).next <= em.next
  {
    BoundaryBelow(em.scope.names, em.scope.regs, r + 1, em.next);
  }

  lemma {:induction false} BoundaryBelow(names: seq<string>, regs: map<string, int>, b: int, bound: int)
    requires b <= bound && forall x :: x in regs ==> regs[x] < bound
    ensures Boundary(names, regs, b) <= bound
    decreases |names|
  {
    if |names| > 0 {
      var x := names[0];
      BoundaryBelow(names[1..], regs, if x in regs && regs[x] >= b then regs[x] + 1 else b, bound);
    }
  }

  lemma {:induction false} DeclFits(ctx: Ctx, em: Emit, dest: int, n: Node)
    requires Roomy(ctx, em, dest) && n.Decl? && ctx.Ctx? && n.name in ctx.declared
    requires n.init.Some? ==> Scoped(ctx, n.init.value)
    ensures Inside(Compile(n, em, dest).code, Compile(n, em, dest))
    ensures Compile(n, em, dest).em.next <= Compile(n, em, dest).em.max
    decreases n, 2
  {
    hide Compile, Inside, Scoped, Separate, Agrees, Holds, Find, Extends;
    Simulation.Dispatch(n, em, dest);
    var whole := Compile(n, em, dest);
    PlaceTidy(ctx, em, dest, n.name);
    PlaceFound(ctx, em, dest, n.name);
    var em1 := em.Place(n.name);
    var t := em1.next;
    TempRoomy(ctx, em1, dest, em1.Alloc());
    if n.init.Some? {
      Keeps(ctx, n.init.value, em1.Alloc(), t);
      NodeFits(ctx, em1.Alloc(), t, n.init.value);
    }
    var o := if n.init.Some? then Compile(n.init.value, em1.Alloc(), t) else Out([LoadUndefined(t)], em1.Alloc());
    if n.init.None? {
      One(LoadUndefined(t), o);
    }
    var s := CompileStore(n.name, t, o.em);
    Chained(o.em, s.em, whole.em);
    Wider(o.code, o, whole);
    One(Move(em1.scope.regs[n.name], t), whole);
    One(LoadUndefined(dest), whole);
    Joined3(o.code, s.code, [LoadUndefined(dest)], whole);
  }

  lemma PlaceFound(ctx: Ctx, em: Emit, dest: int, x: string)
    requires Roomy(ctx, em, dest) && ctx.Ctx? && x in ctx.declared
    ensures var em1 := em.Place(x);
            && Roomy(ctx, em1, dest) && em1.scope.Frame? && x in em1.scope.regs && em1.max >= em.max
            && Find(em1.scope, x) == Some(em1.scope.regs[x]) && 0 <= em1.scope.regs[x] < em1.next
  {
    PlaceTidy(ctx, em, dest, x);
  }

  lemma {:induction false} TryFinallyFits(ctx: Ctx, em: Emit, dest: int, n: Node)
    requires Roomy(ctx, em, dest) && Scoped(ctx, n) && n.Try?
    ensures Inside(Compile(n, em, dest).code, Compile(n, em, dest))
    decreases n, 2
  {
    hide Compile, Inside, Separate, Agrees, Holds, Find, Extends;
    Simulation.Dispatch(n, em, dest);
    var o := Compile(n, em, dest);
    hide CompileTry;
    var o1 := CompileTry(n, em);
    TryFits(ctx, em, dest, n);
    KeepsTry(ctx, n, em);
    One(LoadUndefined(dest), o);
    if n.finalizer.None? {
      Wider(o1.code, o1, o);
      Joined(o1.code, [LoadUndefined(dest)], o);
    } else {
      FinalizerFits(ctx, em, dest, n);
    }
  }

  lemma GuardFits(body: seq<Instr>, catcher: seq<Instr>, whole: Out)
    requires Inside(body, whole) && Inside(catcher, whole) && |Guarded(body, catcher)| <= |whole.code|
    ensures Inside(Guarded(body, catcher), whole)
  {
    hide Inside;
    One(TryBegin(|body| + 2), whole);
    One(TryEnd, whole);
    One(Jump(|catcher|), whole);
    Joined5([TryBegin(|body| + 2)], body, [TryEnd], [Jump(|catcher|)], catcher, whole);
  }

  lemma {:induction false} FinalizerFits(ctx: Ctx, em: Emit, dest: int, n: Node)
    requires Roomy(ctx, em, dest) && Scoped(ctx, n) && n.Try? && n.finalizer.Some?
    requires Inside(CompileTry(n, em).code, CompileTry(n, em))
    ensures Inside(Compile(n, em, dest).code, Compile(n, em, dest))
    decreases n, 1
  {
    hide Compile, CompileTry, Inside, Separate, Agrees, Holds, Find, Extends, Guarded;
    Simulation.Dispatch(n, em, dest);
    KeepsTry(ctx, n, em);
    var whole, x, fin := Compile(n, em, dest), em.next, n.finalizer.value;
    var o1 := CompileTry(n, em);
    var em2 := o1.em.Alloc().Alloc();
    Keeps(ctx, fin, em2, x + 1);
    var o2 := Compile(fin, em2, x + 1);
    var em3 := o2.em.Free(x).Alloc();
    var o3 := Compile(fin, em3, x);
    TempRoomy(ctx, em, dest, o1.em.Alloc());
    TempRoomy(ctx, o1.em.Alloc(), dest, em2);
    TempRoomy(ctx, em, dest, em3);
    NodeFits(ctx, em2, x + 1, fin);
    NodeFits(ctx, em3, x, fin);
    var catcher := [CatchBegin(x)] + o2.code + [ThrowReg(x)];
    assert |Guarded(o1.code, catcher)| == |o1.code| + |catcher| + 3 by { GuardLength(o1.code, catcher); }
    Chained(o2.em, o3.em, whole.em);
    Chained(o1.em, o2.em, whole.em);
    Wider(o1.code, o1, whole);
    Wider(o2.code, o2, whole);
    Wider(o3.code, o3, whole);
    One(CatchBegin(x), whole);
    One(ThrowReg(x), whole);
    One(LoadUndefined(dest), whole);
    Joined3([CatchBegin(x)], o2.code, [ThrowReg(x)], whole);
    GuardFits(o1.code, catcher, whole);
    Joined3(Guarded(o1.code, catcher), o3.code, [LoadUndefined(dest)], whole);
  }

  lemma GuardLength(body: seq<Instr>, catcher: seq<Instr>)
    ensures |Guarded(body, catcher)| == |body| + |catcher| + 3
  {
  }

  lemma {:induction false} TryFits(ctx: Ctx, em: Emit, dest: int, n: Node)
    requires Roomy(ctx, em, dest) && Scoped(ctx, n) && n.Try?
    ensures Inside(CompileTry(n, em).code, CompileTry(n, em))
    decreases n, 1
  {
    hide Compile, CompileHandler, Inside, Separate, Agrees, Holds, Find, Extends, Guarded;
    var whole, r := CompileTry(n, em), em.next;
    var o1 := Compile(n.body, em.Alloc(), r);
    Keeps(ctx, n.body, em.Alloc(), r);
    TempRoomy(ctx, em, dest, em.Alloc());
    NodeFits(ctx, em.Alloc(), r, n.body);
    var em2 := o1.em.Free(r).Alloc();
    TempRoomy(ctx, em, dest, em2);
    var o2 := CompileHandler(n.handler, r, em2);
    HandlerFits(ctx, em2, r, n);
    GuardLength(o1.code, [CatchBegin(r)] + o2.code);
    Chained(o1.em, o2.em, whole.em);
    Wider(o1.code, o1, whole);
    Wider(o2.code, o2, whole);
    One(CatchBegin(r), whole);
    Joined([CatchBegin(r)], o2.code, whole);
    GuardFits(o1.code, [CatchBegin(r)] + o2.code, whole);
  }

  lemma {:induction false} HandlerFits(ctx: Ctx, em: Emit, err: int, n: Node)
    requires Roomy(ctx, em, err) && Scoped(ctx, n) && n.Try?
    ensures var o := CompileHandler(n.handler, err, em);
            Inside(o.code, o)
    decreases n, 0
  {
    hide Compile, CompileBlock, CompileParam, Inside, Separate, Agrees, Holds, Find;
    var o := CompileHandler(n.handler, err, em);
    if n.handler.None? {
      One(ThrowReg(err), o);
    } else {
      var cat := n.handler.value;
      var bind := CompileParam(cat, err, em);
      Simulation.CatchScope(ctx, em, cat, err);
      ParamRoomy(cat, err, em);
      var em1, d := bind.em.Alloc(), bind.em.next;
      var block := CompileBlock(cat.stmts, bind.em.scope, em1, d);
      assert o == CompileCatch(cat, err, em) == Out(bind.code + block.code, block.em);
      assert em1.(scope := bind.em.scope) == em1;
      BlockFits(EnterCtx(ctx, CatchNames(cat), CatchLive(cat)), bind.em.scope, err, em1, d, cat.stmts);
      Wider(block.code, block, o);
      if cat.param.Some? {
        One(Move(em.next, err), o);
      } else {
        Nothing(o);
      }
      Joined(bind.code, block.code, o);
    }
  }

  lemma Nothing(whole: Out)
    ensures Inside([], whole)
  {
  }

  lemma ParamRoomy(cat: Catch, err: int, em: Emit)
    requires em.next <= em.max
    ensures var em1 := CompileParam(cat, err, em).em;
            em1.next <= em1.max && (cat.param.Some? ==> em.next < em1.max)
  {
  }

  /** Below 256 registers, 65536 constants and 32768 instructions, the encoded program
      decodes to the emitted one, so the machine runs the code proved correct. */
  lemma ProgramDecodes(ss: seq<Node>)
    requires Scoped(Top, Block(ss))
    ensures var p := Program.CompileProgram(ss);
            && AllFit(p.code, p.em.max, |p.em.pool|, |p.code|)
            && (p.em.max <= 0x100 && |p.em.pool| <= 0x1_0000 && |p.code| <= 0x7FFF ==>
                  DecodeAll(EncodeAll(p.code)) == p.code)
  {
    hide Compile, Scoped;
    var p := Program.CompileProgram(ss);
    var o := Compile(Block(ss), Program.START.Alloc(), 0);
    NodeFits(Top, Program.START.Alloc(), 0, Block(ss));
    Wider(o.code, o, p);
    One(Return(0), p);
    Joined(o.code, [Return(0)], p);
    if p.em.max <= 0x100 && |p.em.pool| <= 0x1_0000 && |p.code| <= 0x7FFF {
      DecodeEncodeAll(p.code);
    }
  }

  /** End to end: within those limits, the machine that fetches its instructions from the
      encoded words ends as the source does, for every fuel. */
  lemma MachineCodeCorrect(ops: Ops, fuel: nat, ss: seq<Node>, regs: Regs, globals: Globals) returns (k: nat)
    requires Scoped(Top, Block(ss))
    requires var p := Program.CompileProgram(ss); p.em.max <= 0x100 && |p.em.pool| <= 0x1_0000 && |p.code| <= 0x7FFF
    ensures var p := Program.CompileProgram(ss);
            var vm := Vm(ops, DecodeAll(EncodeAll(p.code)), p.em.pool);
            var r := Program.Meaning(ops, fuel, ss, globals);
            var d := vm.Run(Program.Boot(regs, globals), k);
            if r.Timeout? then k >= fuel && !Halted(d) else d == Program.Final(r)
  {
    hide Compile, Scoped;
    ProgramDecodes(ss);
    k := Program.ProgramCorrect(ops, fuel, ss, regs, globals);
  }
}
