/** Which programs are in the fragment, and what the code generator keeps:
    registers of live variables are distinct and below the next free one. */
module Scoping {
  import opened Options
  import opened Syntax
  import opened CodeGen

  /** What is known of each enclosing scope: the names it declares, and those
      whose declaration has been executed. */
  datatype Ctx = Top | Ctx(declared: set<string>, live: set<string>, outer: Ctx)

  /** The nearest scope that declares `x` has already run that declaration. */
  predicate Resolvable(ctx: Ctx, x: string) {
    match ctx
    case Top => true
    case Ctx(declared, live, outer) => if x in declared then x in live else Resolvable(outer, x)
  }

  function Elements(names: seq<string>): set<string> {
    set x | x in names
  }

  function EnterCtx(ctx: Ctx, names: seq<string>, live: set<string>): Ctx {
    Ctx(Elements(names), live, ctx)
  }

  function CatchLive(c: Catch): set<string> {
    if c.param.Some? then {c.param.value} else {}
  }

  /** Declarations stand directly in blocks, every name is used after its
      declaration, and a finalizer declares nothing (its scope would be shared by
      the two copies that are compiled of it). */
  predicate Scoped(ctx: Ctx, n: Node)
    decreases n, 0
  {
    match n
    case Lit(v) => !v.Object?
    case Ident(x) => Resolvable(ctx, x)
    case Decl(_, _) => false
    case Assign(x, e) => Resolvable(ctx, x) && Scoped(ctx, e)
    case OpAssign(_, x, e) => Resolvable(ctx, x) && Scoped(ctx, e)
    case LogicAssign(_, x, e) => Resolvable(ctx, x) && Scoped(ctx, e)
    case Binary(_, a, b) => Scoped(ctx, a) && Scoped(ctx, b)
    case Logical(_, a, b) => Scoped(ctx, a) && Scoped(ctx, b)
    case Unary(_, a) => Scoped(ctx, a)
    case Prefix(_, x) => Resolvable(ctx, x)
    case Postfix(_, x) => Resolvable(ctx, x)
    case Ternary(c, t, e) => Scoped(ctx, c) && Scoped(ctx, t) && Scoped(ctx, e)
    case Sequence(es) => |es| > 0 && forall e :: e in es ==> Scoped(ctx, e)
    case ExprStmt(e) => Scoped(ctx, e)
    case Block(ss) => ScopedStmts(EnterCtx(ctx, Declared(ss), {}), ss)
    case If(c, t, alt) =>
      Scoped(ctx, c) && Scoped(ctx, t) && (alt.Some? ==> Scoped(ctx, alt.value))
    case While(c, b) => Scoped(ctx, c) && Scoped(ctx, b)
    case DoWhile(b, c) => Scoped(ctx, b) && Scoped(ctx, c)
    case Throw(e) => Scoped(ctx, e)
    case Try(b, h, f) =>
      && Scoped(ctx, b)
      && (h.Some? ==>
            ScopedStmts(EnterCtx(ctx, CatchNames(h.value), CatchLive(h.value)), h.value.stmts))
      && (f.Some? ==> Scoped(ctx, f.value) && Declares(f.value) == {})
  }

  predicate ScopedStmts(ctx: Ctx, ss: seq<Node>)
    decreases ss, 0
  {
    if |ss| == 0 then true
    else if ss[0].Decl? then
      && ctx.Ctx?
      && ss[0].name in ctx.declared
      && (ss[0].init.Some? ==> Scoped(ctx, ss[0].init.value))
      && ScopedStmts(ctx.(live := ctx.live + {ss[0].name}), ss[1..])
    else Scoped(ctx, ss[0]) && ScopedStmts(ctx, ss[1..])
  }

  /** All names declared anywhere inside, catch parameters included. */
  function Declares(n: Node): set<string>
    decreases n, 0
  {
    match n
    case Decl(x, _) => {x}
    case Block(ss) => DeclaresStmts(ss)
    case If(_, t, alt) => Declares(t) + (if alt.Some? then Declares(alt.value) else {})
    case While(_, b) => Declares(b)
    case DoWhile(b, _) => Declares(b)
    case Try(b, h, f) =>
      Declares(b)
      + (if h.Some? then CatchLive(h.value) + DeclaresStmts(h.value.stmts) else {})
      + (if f.Some? then Declares(f.value) else {})
    case _ => {}
  }

  function DeclaresStmts(ss: seq<Node>): set<string>
    decreases ss, 0
  {
    if |ss| == 0 then {} else Declares(ss[0]) + DeclaresStmts(ss[1..])
  }

  /** Some symbol in scope lives in register `r`. */
  predicate Holds(sc: Scope, r: int) {
    match sc
    case Root => false
    case Frame(_, regs, outer) => (exists x :: x in regs && regs[x] == r) || Holds(outer, r)
  }

  /** Allocated symbols have pairwise distinct registers below `bound`. */
  predicate Separate(sc: Scope, bound: int) {
    match sc
    case Root => true
    case Frame(_, regs, outer) =>
      && (forall x :: x in regs ==>
            regs[x] == UNALLOCATED || (0 <= regs[x] < bound && !Holds(outer, regs[x])))
      && (forall x, y :: x in regs && y in regs && x != y && regs[x] != UNALLOCATED ==>
            regs[x] != regs[y])
      && Separate(outer, bound)
  }

  /** The scope has the declared symbols, and the live ones have registers. */
  predicate Agrees(ctx: Ctx, sc: Scope) {
    match (ctx, sc)
    case (Top, Root) => true
    case (Ctx(declared, live, outerCtx), Frame(names, regs, outer)) =>
      && declared == regs.Keys == Elements(names)
      && live <= declared
      && (forall x :: x in live ==> regs[x] >= 0)
      && Agrees(outerCtx, outer)
    case _ => false
  }

  /** The state every compilation step starts from. */
  predicate Tidy(ctx: Ctx, em: Emit, dest: int) {
    && Agrees(ctx, em.scope)
    && Separate(em.scope, em.next)
    && 0 <= dest < em.next
    && !Holds(em.scope, dest)
  }

  lemma {:induction false} FreshRegister(sc: Scope, bound: int, r: int)
    requires Separate(sc, bound) && r >= bound >= 0
    ensures !Holds(sc, r)
  {
    if sc.Frame? {
      FreshRegister(sc.outer, bound, r);
    }
  }

  lemma {:induction false} SeparateAbove(sc: Scope, b: int, bound: int)
    requires Separate(sc, b) && b <= bound
    ensures Separate(sc, bound)
  {
    if sc.Frame? {
      SeparateAbove(sc.outer, b, bound);
    }
  }

  /** Allocating a temporary keeps the state tidy, with the temporary as target. */
  lemma Temporary(ctx: Ctx, em: Emit, dest: int, em1: Emit)
    requires Tidy(ctx, em, dest)
    requires em1.scope == em.scope && em1.next > em.next
    ensures Tidy(ctx, em1, em.next) && Tidy(ctx, em1, dest)
  {
    FreshRegister(em.scope, em.next, em.next);
    SeparateAbove(em.scope, em.next, em1.next);
  }

  /** A resolvable name is found with a register, or is global. */
  lemma {:induction false} ResolvableFound(ctx: Ctx, sc: Scope, x: string)
    requires Agrees(ctx, sc) && Resolvable(ctx, x)
    ensures Find(sc, x).Some? ==> Find(sc, x).value >= 0 && Holds(sc, Find(sc, x).value)
  {
    if sc.Frame? && x !in sc.regs {
      ResolvableFound(ctx.outer, sc.outer, x);
    }
  }

  lemma {:induction false} NewFrameTidy(ctx: Ctx, sc: Scope, bound: int, names: seq<string>)
    requires Agrees(ctx, sc) && Separate(sc, bound)
    ensures Agrees(EnterCtx(ctx, names, {}), NewFrame(names, sc))
    ensures Separate(NewFrame(names, sc), bound)
    ensures forall r :: r >= 0 ==> Holds(NewFrame(names, sc), r) == Holds(sc, r)
  {
  }

  lemma {:induction false} BoundaryAbove(names: seq<string>, regs: map<string, int>, b: int)
    ensures Boundary(names, regs, b) >= b
    ensures forall x :: x in names && x in regs ==> Boundary(names, regs, b) > regs[x] || regs[x] < b
    decreases |names|
  {
    if |names| > 0 {
      var x := names[0];
      BoundaryAbove(names[1..], regs, if x in regs && regs[x] >= b then regs[x] + 1 else b);
      forall y | y in names && y in regs
        ensures Boundary(names, regs, b) > regs[y] || regs[y] < b
      {
        if y != x {
          assert y in names[1..];
        }
      }
    }
  }

  /** The state after the declaration `x` has been given its register. */
  lemma PlaceTidy(ctx: Ctx, em: Emit, dest: int, x: string)
    requires Tidy(ctx, em, dest) && ctx.Ctx? && x in ctx.declared
    ensures var em1 := em.Place(x);
            && Tidy(ctx, em1, dest)
            && em.next <= em1.next <= em.next + 1
            && em1.scope == em.scope.(regs := em1.scope.regs) && em1.scope.regs.Keys == em.scope.regs.Keys
            && em1.scope.regs[x] >= 0 && em1.scope.regs[x] != dest
            && !Holds(em.scope.outer, em1.scope.regs[x])
            && (forall y :: y in em.scope.regs && y != x ==> em1.scope.regs[y] == em.scope.regs[y])
            && (em.scope.regs[x] >= 0 ==> em1 == em)
            && (em.scope.regs[x] < 0 ==> em1.scope.regs[x] == em.next && em1.next == em.next + 1)
  {
    FreshRegister(em.scope, em.next, em.next);
    SeparateAbove(em.scope.outer, em.next, em.next + 1);
  }

  predicate IsAssign(n: Node) {
    n.Decl? || n.Assign? || n.OpAssign? || n.LogicAssign? || n.Prefix? || n.Postfix?
  }

  predicate IsControl(n: Node) {
    n.Ternary? || n.If? || n.While? || n.DoWhile? || n.Throw? || n.Try?
  }

  /** Compiling anything but a declaration leaves the scopes and the next free
      register as they were. */
  lemma {:induction false} Keeps(ctx: Ctx, n: Node, em: Emit, dest: int)
    requires Agrees(ctx, em.scope) && em.next >= 0 && Scoped(ctx, n)
    ensures Compile(n, em, dest).em.scope == em.scope
    ensures Compile(n, em, dest).em.next == em.next
    decreases n, 3
  {
    if IsAssign(n) {
      KeepsAssign(ctx, n, em, dest);
    } else if IsControl(n) {
      KeepsControl(ctx, n, em, dest);
    } else {
      match n
      case Lit(_) =>
      case Ident(x) => ResolvableFound(ctx, em.scope, x);
      case Binary(_, a, b) => KeepsBoth(ctx, n, a, b, em);
      case Logical(_, a, b) => KeepsBoth(ctx, n, a, b, em);
      case Unary(_, a) => Keeps(ctx, a, em.Alloc(), em.next);
      case Sequence(es) => KeepsSequence(ctx, es, em, dest);
      case ExprStmt(e) => Keeps(ctx, e, em, dest);
      case Block(ss) =>
        NewFrameAgrees(ctx, em.scope, Declared(ss));
        KeepsStmts(EnterCtx(ctx, Declared(ss), {}), ss, em.(scope := NewFrame(Declared(ss), em.scope)));
    }
  }

  lemma {:induction false} KeepsAssign(ctx: Ctx, n: Node, em: Emit, dest: int)
    requires Agrees(ctx, em.scope) && em.next >= 0 && Scoped(ctx, n) && IsAssign(n)
    ensures Compile(n, em, dest).em.scope == em.scope
    ensures Compile(n, em, dest).em.next == em.next
    decreases n, 2
  {
    ResolvableFound(ctx, em.scope, n.name);
    match n
    case Assign(x, e) => Keeps(ctx, e, em.Alloc(), em.next);
    case OpAssign(_, x, e) =>
      var o1 := CompileIdent(x, em.Alloc().Alloc(), em.next + 1);
      Keeps(ctx, e, o1.em.Alloc(), o1.em.next);
    case LogicAssign(_, x, e) =>
      Keeps(ctx, e, CompileIdent(x, em.Alloc(), em.next).em, em.next);
    case _ =>
  }

  lemma {:induction false} KeepsControl(ctx: Ctx, n: Node, em: Emit, dest: int)
    requires Agrees(ctx, em.scope) && em.next >= 0 && Scoped(ctx, n) && IsControl(n)
    ensures Compile(n, em, dest).em.scope == em.scope
    ensures Compile(n, em, dest).em.next == em.next
    decreases n, 2
  {
    match n
    case Ternary(c, t, e) =>
      var o1 := Compile(c, em.Alloc(), em.next);
      Keeps(ctx, c, em.Alloc(), em.next);
      Keeps(ctx, t, o1.em.Free(em.next), dest);
      Keeps(ctx, e, Compile(t, o1.em.Free(em.next), dest).em, dest);
    case If(c, t, alt) =>
      KeepsChain(ctx, n, c, t, em);
      var o2 := Compile(t, Compile(c, em.Alloc(), em.next).em.Free(em.next).Alloc(), em.next);
      assert CompileElse(alt, o2.em.Free(em.next), em.next).em.scope == em.scope by {
        if alt.Some? {
          Keeps(ctx, alt.value, o2.em.Free(em.next).Alloc(), em.next);
        }
      }
    case While(c, b) => KeepsChain(ctx, n, c, b, em);
    case DoWhile(b, c) => KeepsChain(ctx, n, b, c, em);
    case Throw(e) => Keeps(ctx, e, em.Alloc(), em.next);
    case Try(_, _, f) =>
      KeepsTry(ctx, n, em);
      if f.Some? {
        var em2 := CompileTry(n, em).em.Alloc();
        Keeps(ctx, f.value, em2.Alloc(), em2.next);
        Keeps(ctx, f.value, Compile(f.value, em2.Alloc(), em2.next).em.Free(em.next).Alloc(), em.next);
      }
  }

  lemma {:induction false} KeepsBoth(ctx: Ctx, n: Node, a: Node, b: Node, em: Emit)
    requires Agrees(ctx, em.scope) && em.next >= 0 && Scoped(ctx, a) && Scoped(ctx, b) && a < n && b < n
    ensures var o1 := Compile(a, em.Alloc(), em.next);
            var o2 := Compile(b, o1.em.Alloc(), o1.em.next);
            && o1.em.scope == o2.em.scope == em.scope
            && o1.em.next == em.next + 1
            && o2.em.next == em.next + 2
    decreases n, 1
  {
    Keeps(ctx, a, em.Alloc(), em.next);
    var o1 := Compile(a, em.Alloc(), em.next);
    Keeps(ctx, b, o1.em.Alloc(), o1.em.next);
  }

  /** Two nodes compiled one after the other into the same temporary. */
  lemma {:induction false} KeepsChain(ctx: Ctx, n: Node, a: Node, b: Node, em: Emit)
    requires Agrees(ctx, em.scope) && em.next >= 0 && Scoped(ctx, a) && Scoped(ctx, b) && a < n && b < n
    ensures var o1 := Compile(a, em.Alloc(), em.next);
            var o2 := Compile(b, o1.em.Free(em.next).Alloc(), em.next);
            && o1.em.scope == o2.em.scope == em.scope
            && o1.em.next == o2.em.next == em.next + 1
    decreases n, 1
  {
    Keeps(ctx, a, em.Alloc(), em.next);
    Keeps(ctx, b, Compile(a, em.Alloc(), em.next).em.Free(em.next).Alloc(), em.next);
  }

  lemma {:induction false} KeepsSequence(ctx: Ctx, es: seq<Node>, em: Emit, dest: int)
    requires Agrees(ctx, em.scope) && em.next >= 0 && forall e :: e in es ==> Scoped(ctx, e)
    ensures CompileSequence(es, em, dest).em.scope == em.scope
    ensures CompileSequence(es, em, dest).em.next == em.next
    decreases es, 0
  {
    if |es| == 1 {
      Keeps(ctx, es[0], em, dest);
    } else if |es| > 1 {
      Keeps(ctx, es[0], em.Alloc(), em.next);
      KeepsSequence(ctx, es[1..], Compile(es[0], em.Alloc(), em.next).em.Free(em.next), dest);
    }
  }

  lemma NewFrameAgrees(ctx: Ctx, sc: Scope, names: seq<string>)
    requires Agrees(ctx, sc)
    ensures Agrees(EnterCtx(ctx, names, {}), NewFrame(names, sc))
  {
  }

  /** Placing a declared symbol changes only its own register. */
  lemma PlaceAgrees(ctx: Ctx, em: Emit, x: string)
    requires Agrees(ctx, em.scope) && ctx.Ctx? && x in ctx.declared
    ensures var em1 := em.Place(x);
            && Agrees(ctx, em1.scope)
            && Agrees(ctx.(live := ctx.live + {x}), em1.scope) == (em1.scope.regs[x] >= 0)
            && em1.scope.Frame? && em1.scope.outer == em.scope.outer
  {
  }

  /** Symbols of the innermost frame are unallocated or have a register. */
  predicate Shaped(sc: Scope) {
    sc.Frame? && forall x :: x in sc.regs ==> sc.regs[x] >= UNALLOCATED
  }

  lemma {:induction false} KeepsStmts(ctx: Ctx, ss: seq<Node>, em: Emit)
    requires Agrees(ctx, em.scope) && em.scope.Frame? && ScopedStmts(ctx, ss)
    requires em.next >= 0 && Shaped(em.scope)
    ensures CompileStmts(ss, em).em.scope.Frame?
    ensures CompileStmts(ss, em).em.scope.outer == em.scope.outer
    decreases ss, 0
  {
    if |ss| > 0 {
      KeepsStmt(ctx, ss, em);
      KeepsStmts(AfterCtx(ctx, ss[0]), ss[1..], AfterStmt(Compile(ss[0], em.Alloc(), em.next).em, em.next));
    }
  }

  /** What is known of the innermost scope after a statement. */
  function AfterCtx(ctx: Ctx, n: Node): Ctx {
    if n.Decl? && ctx.Ctx? then ctx.(live := ctx.live + {n.name}) else ctx
  }

  lemma {:induction false} KeepsStmt(ctx: Ctx, ss: seq<Node>, em: Emit)
    requires |ss| > 0 && Agrees(ctx, em.scope) && em.next >= 0 && Shaped(em.scope) && ScopedStmts(ctx, ss)
    ensures var em1 := AfterStmt(Compile(ss[0], em.Alloc(), em.next).em, em.next);
            && Agrees(AfterCtx(ctx, ss[0]), em1.scope) && em1.next > em.next && Shaped(em1.scope)
            && em1.scope.outer == em.scope.outer
    decreases ss[0], 4
  {
    hide Compile, Boundary;
    var em0 := em.Alloc();
    var o := Compile(ss[0], em0, em.next);
    if ss[0].Decl? {
      KeepsDecl(ctx, ss[0], em0, em.next);
      PlaceAgrees(ctx, em0, ss[0].name);
    } else {
      Keeps(ctx, ss[0], em0, em.next);
    }
    BoundaryAbove(o.em.scope.names, o.em.scope.regs, em.next + 1);
  }

  /** A declaration only gives its own symbol a register. */
  lemma {:induction false} KeepsDecl(ctx: Ctx, n: Node, em: Emit, dest: int)
    requires Agrees(ctx, em.scope) && em.next >= 0 && n.Decl? && ctx.Ctx? && n.name in ctx.declared
    requires n.init.Some? ==> Scoped(ctx, n.init.value)
    ensures Compile(n, em, dest).em.scope == em.Place(n.name).scope
    ensures Compile(n, em, dest).em.next == em.Place(n.name).next
    decreases n, 1
  {
    PlaceAgrees(ctx, em, n.name);
    var em1 := em.Place(n.name);
    if n.init.Some? {
      Keeps(ctx, n.init.value, em1.Alloc(), em1.next);
    }
  }

  lemma {:induction false} KeepsTry(ctx: Ctx, n: Node, em: Emit)
    requires Agrees(ctx, em.scope) && em.next >= 0 && n.Try? && Scoped(ctx, n)
    ensures CompileTry(n, em).em.scope == em.scope
    ensures CompileTry(n, em).em.next == em.next
    decreases n, 1
  {
    Keeps(ctx, n.body, em.Alloc(), em.next);
    if n.handler.Some? {
      var o1 := Compile(n.body, em.Alloc(), em.next);
      KeepsCatch(ctx, n.handler.value, em.next, o1.em.Free(em.next).Alloc());
    }
  }

  lemma {:induction false} KeepsCatch(ctx: Ctx, c: Catch, err: int, em: Emit)
    requires Agrees(ctx, em.scope) && em.next >= 0
    requires ScopedStmts(EnterCtx(ctx, CatchNames(c), CatchLive(c)), c.stmts)
    ensures CompileCatch(c, err, em).em.scope == em.scope
    decreases c, 0
  {
    ParamAgrees(ctx, c, err, em);
    KeepsStmts(EnterCtx(ctx, CatchNames(c), CatchLive(c)), c.stmts, CompileParam(c, err, em).em.Alloc());
  }

  /** The scope of a catch clause, with its parameter live. */
  lemma ParamAgrees(ctx: Ctx, c: Catch, err: int, em: Emit)
    requires Agrees(ctx, em.scope) && em.next >= 0
    ensures var em1 := CompileParam(c, err, em).em;
            && Agrees(EnterCtx(ctx, CatchNames(c), CatchLive(c)), em1.scope) && Shaped(em1.scope)
            && em1.scope.outer == em.scope && em1.next >= em.next
  {
    var names := CatchNames(c);
    NewFrameAgrees(ctx, em.scope, names);
    if c.param.Some? {
      PlaceAgrees(EnterCtx(ctx, names, {}), em.(scope := NewFrame(names, em.scope)), c.param.value);
    }
  }
}
