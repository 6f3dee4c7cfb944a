/** The emitted code simulates the source semantics: values, stores, exceptions,
    handler depth and divergence. */
module Simulation {
  import opened Options
  import opened Syntax
  import opened SourceSemantics
  import opened Bytecode
  import opened Machine
  import opened CodeGen
  import opened Scoping

  /** `frag` stands in `code` at position `pc`. */
  predicate At(code: seq<Instr>, pc: int, frag: seq<Instr>) {
    0 <= pc && pc + |frag| <= |code| && code[pc..pc + |frag|] == frag
  }

  lemma Split(code: seq<Instr>, pc: int, f: seq<Instr>, g: seq<Instr>)
    requires At(code, pc, f + g)
    ensures At(code, pc, f) && At(code, pc + |f|, g)
  {
    assert code[pc..pc + |f|] == (f + g)[..|f|];
    assert code[pc + |f|..pc + |f| + |g|] == (f + g)[|f|..];
  }

  lemma Split3(code: seq<Instr>, pc: int, f: seq<Instr>, g: seq<Instr>, h: seq<Instr>)
    requires At(code, pc, f + g + h)
    ensures At(code, pc, f) && At(code, pc + |f|, g) && At(code, pc + |f| + |g|, h)
  {
    Split(code, pc, f + g, h);
    Split(code, pc, f, g);
  }

  lemma Split4(code: seq<Instr>, pc: int, f: seq<Instr>, g: seq<Instr>, h: seq<Instr>, i: seq<Instr>)
    requires At(code, pc, f + g + h + i)
    ensures At(code, pc, f) && At(code, pc + |f|, g) && At(code, pc + |f| + |g|, h)
    ensures At(code, pc + |f| + |g| + |h|, i)
  {
    Split(code, pc, f + g + h, i);
    Split3(code, pc, f, g, h);
  }

  lemma Split5(code: seq<Instr>, pc: int, f: seq<Instr>, g: seq<Instr>, h: seq<Instr>, i: seq<Instr>, j: seq<Instr>)
    requires At(code, pc, f + g + h + i + j)
    ensures At(code, pc, f) && At(code, pc + |f|, g) && At(code, pc + |f| + |g|, h)
    ensures At(code, pc + |f| + |g| + |h|, i) && At(code, pc + |f| + |g| + |h| + |i|, j)
  {
    Split(code, pc, f + g + h + i, j);
    Split4(code, pc, f, g, h, i);
  }

  lemma SplitHead(code: seq<Instr>, pc: int, i: Instr, g: seq<Instr>)
    requires At(code, pc, [i] + g)
    ensures At(code, pc, [i]) && At(code, pc + 1, g) && |[i] + g| == |g| + 1
  {
    Split(code, pc, [i], g);
  }

  /** The parts of a protected region. */
  lemma SplitGuarded(code: seq<Instr>, pc: int, body: seq<Instr>, catcher: seq<Instr>)
    requires At(code, pc, Guarded(body, catcher))
    ensures At(code, pc, [TryBegin(|body| + 2)]) && At(code, pc + 1, body) && At(code, pc + |body| + 1, [TryEnd])
    ensures At(code, pc + |body| + 2, [Jump(|catcher|)]) && At(code, pc + |body| + 3, catcher)
    ensures |Guarded(body, catcher)| == |body| + 3 + |catcher|
  {
    Split5(code, pc, [TryBegin(|body| + 2)], body, [TryEnd], [Jump(|catcher|)], catcher);
    hide At;
  }

  lemma Within(p: seq<Value>, q: seq<Value>, r: seq<Value>)
    requires Extends(p, q) && Extends(q, r)
    ensures Extends(p, r)
  {
  }

  /** Live variables of every scope are in their registers. */
  predicate Matches(ctx: Ctx, sc: Scope, env: Env, regs: Regs) {
    match (ctx, sc, env)
    case (Top, Root, Empty) => true
    case (Ctx(_, live, outerCtx), Frame(_, at, outer), Env(vars, outerEnv)) =>
      && live == vars.Keys
      && (forall x :: x in live ==> x in at && Get(regs, at[x]) == vars[x])
      && Matches(outerCtx, outer, outerEnv, regs)
    case _ => false
  }

  /** Below `next` only variables and `dest` may have changed. */
  predicate Preserved(sc: Scope, next: int, dest: int, before: Regs, after: Regs) {
    forall r :: 0 <= r < next && r != dest && !Holds(sc, r) ==> Get(after, r) == Get(before, r)
  }

  /** Machine and source state agree, and only permitted registers have changed. */
  predicate Settled(ctx: Ctx, em: Emit, dest: int, st: Store, before: Regs, after: Regs, globals: Globals) {
    && globals == st.globals
    && Matches(ctx, em.scope, st.env, after)
    && Preserved(em.scope, em.next, dest, before, after)
  }

  /** The machine is about to run the fragment `o` in the state `st`. */
  predicate Ready(vm: Vm, ctx: Ctx, em: Emit, dest: int, o: Out, st: Store, c: Config) {
    && Tidy(ctx, em, dest)
    && c.Running?
    && At(vm.code, c.pc, o.code)
    && Extends(o.em.pool, vm.pool)
    && c.globals == st.globals
    && Matches(ctx, em.scope, st.env, c.regs)
  }

  /** How a run of `len` instructions from `c` must end, given the source result. */
  predicate Ends(r: Result, ctx: Ctx, em: Emit, dest: int, len: int, fuel: nat,
                 c: Config, k: nat, d: Config)
    requires c.Running?
  {
    match r
    case Normal(v, st) =>
      && d.Running? && d.pc == c.pc + len && d.handlers == c.handlers
      && Get(d.regs, dest) == v
      && Settled(ctx, em, dest, st, c.regs, d.regs, d.globals)
    case Throws(e, st) =>
      && d.Raising? && d.e == e && d.handlers == c.handlers
      && Settled(ctx, em, dest, st, c.regs, d.regs, d.globals)
    case Timeout => k >= fuel && !Halted(d)
  }

  // ----- Registers and stores -----

  lemma {:induction false} MatchesElsewhere(ctx: Ctx, sc: Scope, env: Env, regs: Regs, regs': Regs)
    requires Matches(ctx, sc, env, regs)
    requires forall r :: Holds(sc, r) ==> Get(regs', r) == Get(regs, r)
    ensures Matches(ctx, sc, env, regs')
  {
    if sc.Frame? {
      MatchesElsewhere(ctx.outer, sc.outer, env.outer, regs, regs');
    }
  }

  /** Writing a register that holds no variable disturbs no variable. */
  lemma MatchesTemp(ctx: Ctx, sc: Scope, env: Env, regs: Regs, r: int, v: Value)
    requires Matches(ctx, sc, env, regs) && !Holds(sc, r)
    ensures Matches(ctx, sc, env, regs[r := v])
  {
    MatchesElsewhere(ctx, sc, env, regs, regs[r := v]);
  }

  lemma {:induction false} ReadVariable(ctx: Ctx, sc: Scope, env: Env, regs: Regs, x: string)
    requires Agrees(ctx, sc) && Matches(ctx, sc, env, regs) && Resolvable(ctx, x)
    ensures Find(sc, x).None? <==> Lookup(env, x).None?
    ensures Find(sc, x).Some? ==> Find(sc, x).value >= 0 && Get(regs, Find(sc, x).value) == Lookup(env, x).value
  {
    if sc.Frame? && x !in sc.regs {
      ReadVariable(ctx.outer, sc.outer, env.outer, regs, x);
    }
  }

  lemma {:induction false} WriteVariable(ctx: Ctx, sc: Scope, bound: int, env: Env, regs: Regs, x: string, v: Value)
    requires Agrees(ctx, sc) && Separate(sc, bound) && Matches(ctx, sc, env, regs) && Resolvable(ctx, x)
    requires Find(sc, x).Some? && Lookup(env, x).Some?
    ensures Holds(sc, Find(sc, x).value)
    ensures Matches(ctx, sc, Update(env, x, v), regs[Find(sc, x).value := v])
  {
    var r := Find(sc, x).value;
    if x in sc.regs {
      MatchesTemp(ctx.outer, sc.outer, env.outer, regs, r, v);
    } else {
      WriteVariable(ctx.outer, sc.outer, bound, env.outer, regs, x, v);
    }
  }

  // ----- Running pieces -----

  /** One instruction. */
  lemma Step1(vm: Vm, c: Config, i: Instr)
    requires c.Running? && At(vm.code, c.pc, [i])
    ensures vm.Run(c, 1) == vm.Execute(i, c)
  {
    assert vm.code[c.pc] == [i][0];
    assert vm.Run(c, 1) == vm.Run(vm.Next(c), 0);
  }

  lemma Then(vm: Vm, c: Config, j: nat, d: Config, k: nat, e: Config)
    requires vm.Run(c, j) == d && vm.Run(d, k) == e
    ensures vm.Run(c, j + k) == e
  {
    vm.RunAdd(c, j, k);
  }

  /** Part of a fragment has run: `d` is `off` instructions into it, in state `st`. */
  predicate Mid(vm: Vm, ctx: Ctx, em: Emit, dest: int, st: Store, c: Config, k: nat, d: Config, off: int) {
    && Tidy(ctx, em, dest)
    && c.Running? && d.Running?
    && vm.Run(c, k) == d
    && d.pc == c.pc + off && d.handlers == c.handlers
    && Settled(ctx, em, dest, st, c.regs, d.regs, d.globals)
  }

  lemma Begin(vm: Vm, ctx: Ctx, em: Emit, dest: int, o: Out, st: Store, c: Config)
    requires Ready(vm, ctx, em, dest, o, st, c)
    ensures Mid(vm, ctx, em, dest, st, c, 0, c, 0)
  {
  }

  lemma Finish(vm: Vm, ctx: Ctx, em: Emit, dest: int, st: Store, c: Config, k: nat, d: Config, len: int, fuel: nat)
    requires Mid(vm, ctx, em, dest, st, c, k, d, len)
    ensures vm.Run(c, k) == d
    ensures Ends(Normal(Get(d.regs, dest), st), ctx, em, dest, len, fuel, c, k, d)
  {
  }

  lemma AtMid(vm: Vm, ctx: Ctx, em: Emit, dest: int, st: Store, c: Config, k: nat, d: Config, off: int)
    requires Mid(vm, ctx, em, dest, st, c, k, d, off)
    ensures c.Running? && d.Running? && d.pc == c.pc + off
  {
  }

  /** An instruction that loads a temporary, or the target. */
  lemma Loads(vm: Vm, ctx: Ctx, em: Emit, dest: int, st: Store, c: Config, k: nat, d: Config, off: int,
              i: Instr, a: int, v: Value)
    requires Mid(vm, ctx, em, dest, st, c, k, d, off) && At(vm.code, c.pc + off, [i])
    requires vm.Execute(i, d) == vm.Load(d, a, v) && (a >= em.next || a == dest)
    ensures Mid(vm, ctx, em, dest, st, c, k + 1, vm.Load(d, a, v), off + 1)
  {
    Step1(vm, d, i);
    Then(vm, c, k, d, 1, vm.Load(d, a, v));
    FreshRegister(em.scope, em.next, if a == dest then em.next else a);
    MatchesTemp(ctx, em.scope, st.env, d.regs, a, v);
  }

  /** An instruction that only moves the program counter. */
  lemma Jumps(vm: Vm, ctx: Ctx, em: Emit, dest: int, st: Store, c: Config, k: nat, d: Config, off: int,
              i: Instr, target: int)
    requires Mid(vm, ctx, em, dest, st, c, k, d, off) && At(vm.code, c.pc + off, [i])
    requires vm.Execute(i, d) == d.(pc := c.pc + target)
    ensures Mid(vm, ctx, em, dest, st, c, k + 1, d.(pc := c.pc + target), target)
  {
    Step1(vm, d, i);
    Then(vm, c, k, d, 1, d.(pc := c.pc + target));
  }

  /** An instruction that throws. */
  lemma Raises(vm: Vm, ctx: Ctx, em: Emit, dest: int, st: Store, c: Config, k: nat, d: Config, off: int,
               i: Instr, e: Value, len: int, fuel: nat)
    returns (k': nat, d': Config)
    requires Mid(vm, ctx, em, dest, st, c, k, d, off) && At(vm.code, c.pc + off, [i])
    requires vm.Execute(i, d) == Raising(e, d.regs, d.globals, d.handlers)
    ensures vm.Run(c, k') == d' && Ends(Throws(e, st), ctx, em, dest, len, fuel, c, k', d')
  {
    k', d' := k + 1, vm.Execute(i, d);
    Step1(vm, d, i);
    Then(vm, c, k, d, 1, d');
  }

  lemma LoadsLit(vm: Vm, ctx: Ctx, em: Emit, dest: int, st: Store, c: Config, k: nat, d: Config, off: int,
                 v: Value, em1: Emit, a: int)
    requires Mid(vm, ctx, em, dest, st, c, k, d, off) && !v.Object?
    requires At(vm.code, c.pc + off, CompileLit(v, em1, a).code) && Extends(CompileLit(v, em1, a).em.pool, vm.pool)
    requires a >= em.next || a == dest
    ensures |CompileLit(v, em1, a).code| == 1
    ensures Mid(vm, ctx, em, dest, st, c, k + 1, vm.Load(d, a, v), off + 1)
  {
    Loads(vm, ctx, em, dest, st, c, k, d, off, CompileLit(v, em1, a).code[0], a, v);
  }

  lemma LoadsIdent(vm: Vm, ctx: Ctx, em: Emit, dest: int, st: Store, c: Config, k: nat, d: Config, off: int,
                   x: string, em1: Emit, a: int)
    requires Mid(vm, ctx, em, dest, st, c, k, d, off) && Resolvable(ctx, x) && em1.scope == em.scope
    requires At(vm.code, c.pc + off, CompileIdent(x, em1, a).code) && Extends(CompileIdent(x, em1, a).em.pool, vm.pool)
    requires a >= em.next || a == dest
    ensures var o := CompileIdent(x, em1, a);
            |o.code| == 1 && o.em.scope == em1.scope && o.em.next == em1.next
    ensures Mid(vm, ctx, em, dest, st, c, k + 1, vm.Load(d, a, Read(st, x)), off + 1)
  {
    ReadVariable(ctx, em.scope, st.env, d.regs, x);
    Loads(vm, ctx, em, dest, st, c, k, d, off, CompileIdent(x, em1, a).code[0], a, Read(st, x));
  }

  /** Storing register `r` into `x` changes no register but that of `x`. */
  lemma Stores(vm: Vm, ctx: Ctx, em: Emit, dest: int, st: Store, c: Config, k: nat, d: Config, off: int,
               x: string, r: int, em1: Emit) returns (d': Config)
    requires Mid(vm, ctx, em, dest, st, c, k, d, off) && Resolvable(ctx, x) && em1.scope == em.scope
    requires At(vm.code, c.pc + off, CompileStore(x, r, em1).code) && Extends(CompileStore(x, r, em1).em.pool, vm.pool)
    ensures |CompileStore(x, r, em1).code| == 1
    ensures Mid(vm, ctx, em, dest, Write(st, x, Get(d.regs, r)), c, k + 1, d', off + 1)
    ensures d'.Running? && forall q :: !Holds(em.scope, q) ==> Get(d'.regs, q) == Get(d.regs, q)
  {
    var i := CompileStore(x, r, em1).code[0];
    d' := vm.Execute(i, d);
    Step1(vm, d, i);
    Then(vm, c, k, d, 1, d');
    ReadVariable(ctx, em.scope, st.env, d.regs, x);
    if Find(em.scope, x).Some? {
      WriteVariable(ctx, em.scope, em.next, st.env, d.regs, x, Get(d.regs, r));
    }
  }

  /** A child ended as `r`: either the whole goes on, or it ends as the child did. */
  lemma Joins(r: Result, vm: Vm, ctx: Ctx, em: Emit, dest: int, st: Store, c: Config, k: nat, d: Config, off: int,
              em1: Emit, dest1: int, len1: int, fuel: nat, k1: nat, d1: Config, len: int)
    requires Mid(vm, ctx, em, dest, st, c, k, d, off)
    requires em1.scope == em.scope && em1.next >= em.next && (dest1 >= em.next || dest1 == dest)
    requires vm.Run(d, k1) == d1 && Ends(r, ctx, em1, dest1, len1, fuel, d, k1, d1)
    ensures vm.Run(c, k + k1) == d1
    ensures r.Normal? ==>
              && Mid(vm, ctx, em, dest, r.st, c, k + k1, d1, off + len1)
              && Get(d1.regs, dest1) == r.v
              && forall q :: em.next <= q < em1.next && q != dest1 ==> Get(d1.regs, q) == Get(d.regs, q)
    ensures !r.Normal? ==> Ends(r, ctx, em, dest, len, fuel, c, k + k1, d1)
  {
    Then(vm, c, k, d, k1, d1);
    if r.Normal? {
      forall q | em.next <= q < em1.next && q != dest1
        ensures Get(d1.regs, q) == Get(d.regs, q)
      {
        FreshRegister(em.scope, em.next, q);
      }
    }
  }

  /** The final instruction of a statement, which clears the target. */
  lemma Clears(vm: Vm, fuel: nat, ctx: Ctx, em: Emit, dest: int, st: Store, c: Config, k: nat, d: Config, len: int)
    returns (k': nat, d': Config)
    requires Mid(vm, ctx, em, dest, st, c, k, d, len - 1) && At(vm.code, c.pc + (len - 1), [LoadUndefined(dest)])
    ensures vm.Run(c, k') == d' && Ends(Normal(Undefined, st), ctx, em, dest, len, fuel, c, k', d')
  {
    k', d' := k + 1, vm.Load(d, dest, Undefined);
    Loads(vm, ctx, em, dest, st, c, k, d, len - 1, LoadUndefined(dest), dest, Undefined);
    Finish(vm, ctx, em, dest, st, c, k', d', len, fuel);
  }

  /** The instruction that applies an operator, as the last one of a fragment. */
  lemma Computes(vm: Vm, fuel: nat, ctx: Ctx, em: Emit, dest: int, st: Store, c: Config, k: nat, d: Config,
                 i: Instr, o: Outcome, len: int)
    returns (k': nat, d': Config)
    requires Mid(vm, ctx, em, dest, st, c, k, d, len - 1) && At(vm.code, c.pc + len - 1, [i])
    requires vm.Execute(i, d) == vm.Finish(d, dest, o)
    ensures vm.Run(c, k') == d' && Ends(Lift(o, st), ctx, em, dest, len, fuel, c, k', d')
  {
    k', d' := k + 1, vm.Execute(i, d);
    match o
    case Yields(v) =>
      Loads(vm, ctx, em, dest, st, c, k, d, len - 1, i, dest, v);
      Finish(vm, ctx, em, dest, st, c, k', d', len, fuel);
    case Fails(e) => k', d' := Raises(vm, ctx, em, dest, st, c, k, d, len - 1, i, e, len, fuel);
  }

  /** Stores the temporary `v` into `x` and copies it to the target. */
  lemma StoreAndMove(vm: Vm, fuel: nat, ctx: Ctx, em: Emit, dest: int, st: Store, c: Config, k: nat, d: Config,
                     off: int, x: string, v: int, em1: Emit)
    returns (k': nat, d': Config)
    requires Mid(vm, ctx, em, dest, st, c, k, d, off) && Resolvable(ctx, x) && em1.scope == em.scope && v >= em.next
    requires At(vm.code, c.pc + off, CompileStore(x, v, em1).code) && Extends(CompileStore(x, v, em1).em.pool, vm.pool)
    requires At(vm.code, c.pc + off + |CompileStore(x, v, em1).code|, [Move(dest, v)])
    ensures |CompileStore(x, v, em1).code| == 1 && vm.Run(c, k') == d'
    ensures Ends(Normal(Get(d.regs, v), Write(st, x, Get(d.regs, v))), ctx, em, dest, off + 2, fuel, c, k', d')
  {
    hide Matches, Separate, Agrees, Vm.Run, Holds;
    d' := Stores(vm, ctx, em, dest, st, c, k, d, off, x, v, em1);
    FreshRegister(em.scope, em.next, v);
    var st' := Write(st, x, Get(d.regs, v));
    Loads(vm, ctx, em, dest, st', c, k + 1, d', off + 1, Move(dest, v), dest, Get(d.regs, v));
    k', d' := k + 2, vm.Load(d', dest, Get(d.regs, v));
    Finish(vm, ctx, em, dest, st', c, k', d', off + 2, fuel);
  }

  // ----- The simulation, case by case -----

  lemma {:induction false} Simulate(vm: Vm, fuel: nat, ctx: Ctx, em: Emit, dest: int, n: Node, st: Store, c: Config)
    returns (k: nat, d: Config)
    requires Scoped(ctx, n) && Ready(vm, ctx, em, dest, Compile(n, em, dest), st, c)
    ensures vm.Run(c, k) == d
    ensures Ends(Eval(vm.ops, fuel, n, st), ctx, em, dest, |Compile(n, em, dest).code|, fuel, c, k, d)
    decreases fuel, n, 3
  {
    hide Compile, Eval, Scoped, Matches, Separate, Agrees, Holds, Vm.Run, Extends, At, Find, Mid, Settled;
    match n
    case Lit(_) => k, d := SimLeaf(vm, fuel, ctx, em, dest, n, st, c);
    case Ident(_) => k, d := SimLeaf(vm, fuel, ctx, em, dest, n, st, c);
    case Binary(_, _, _) => k, d := SimBinary(vm, fuel, ctx, em, dest, n, st, c);
    case Unary(_, _) => k, d := SimUnary(vm, fuel, ctx, em, dest, n, st, c);
    case Throw(_) => k, d := SimThrow(vm, fuel, ctx, em, dest, n, st, c);
    case Assign(_, _) => k, d := SimAssign(vm, fuel, ctx, em, dest, n, st, c);
    case OpAssign(_, _, _) => k, d := SimOpAssign(vm, fuel, ctx, em, dest, n, st, c);
    case LogicAssign(_, _, _) => k, d := SimLogicAssign(vm, fuel, ctx, em, dest, n, st, c);
    case Logical(_, _, _) => k, d := SimLogical(vm, fuel, ctx, em, dest, n, st, c);
    case Prefix(_, _) => k, d := SimPrefix(vm, fuel, ctx, em, dest, n, st, c);
    case Postfix(_, _) => k, d := SimPostfix(vm, fuel, ctx, em, dest, n, st, c);
    case Ternary(_, _, _) => k, d := SimTernary(vm, fuel, ctx, em, dest, n, st, c);
    case Sequence(es) =>
      Lists(vm.ops, fuel, ctx, em, dest, n, st);
      k, d := SimSequence(vm, fuel, ctx, em, dest, es, st, c);
    case ExprStmt(e) =>
      Lists(vm.ops, fuel, ctx, em, dest, n, st);
      k, d := Simulate(vm, fuel, ctx, em, dest, e, st, c);
    case Block(_) => k, d := SimBlock(vm, fuel, ctx, em, dest, n, st, c);
    case If(_, _, _) => k, d := SimIf(vm, fuel, ctx, em, dest, n, st, c);
    case While(_, _) => k, d := SimWhile(vm, fuel, ctx, em, dest, n, st, c);
    case DoWhile(_, _) => k, d := SimDoWhile(vm, fuel, ctx, em, dest, n, st, c);
    case Try(_, _, f) =>
      if f.None? {
        k, d := SimPlainTry(vm, fuel, ctx, em, dest, n, st, c);
      } else {
        k, d := SimFinally(vm, fuel, ctx, em, dest, n, st, c);
      }
    case Decl(_, _) => NoDecl(ctx, n);
  }

  lemma NoDecl(ctx: Ctx, n: Node)
    requires n.Decl?
    ensures !Scoped(ctx, n)
  {
  }

  /** Nodes that are compiled and evaluated as what they wrap. */
  lemma Lists(ops: Ops, fuel: nat, ctx: Ctx, em: Emit, dest: int, n: Node, st: Store)
    requires (n.Sequence? || n.ExprStmt?) && Scoped(ctx, n)
    ensures n.Sequence? ==>
              && Compile(n, em, dest) == CompileSequence(n.exprs, em, dest)
              && Eval(ops, fuel, n, st) == EvalSequence(ops, fuel, n.exprs, st)
              && |n.exprs| > 0 && forall e :: e in n.exprs ==> Scoped(ctx, e)
    ensures n.ExprStmt? ==>
              && Compile(n, em, dest) == Compile(n.arg, em, dest)
              && Eval(ops, fuel, n, st) == Eval(ops, fuel, n.arg, st)
              && Scoped(ctx, n.arg)
  {
  }

  lemma SimLeaf(vm: Vm, fuel: nat, ctx: Ctx, em: Emit, dest: int, n: Node, st: Store, c: Config)
    returns (k: nat, d: Config)
    requires (n.Lit? || n.Ident?) && Scoped(ctx, n) && Ready(vm, ctx, em, dest, Compile(n, em, dest), st, c)
    ensures vm.Run(c, k) == d
    ensures Ends(Eval(vm.ops, fuel, n, st), ctx, em, dest, |Compile(n, em, dest).code|, fuel, c, k, d)
  {
    hide Matches, Separate, Agrees, Holds, Vm.Run;
    Begin(vm, ctx, em, dest, Compile(n, em, dest), st, c);
    if n.Lit? {
      LoadsLit(vm, ctx, em, dest, st, c, 0, c, 0, n.value, em, dest);
      k, d := 1, vm.Load(c, dest, n.value);
    } else {
      LoadsIdent(vm, ctx, em, dest, st, c, 0, c, 0, n.name, em, dest);
      k, d := 1, vm.Load(c, dest, Read(st, n.name));
    }
    Finish(vm, ctx, em, dest, st, c, k, d, 1, fuel);
  }

  /** Runs the child `n1` from the middle of a fragment. */
  lemma {:induction false} Child(vm: Vm, fuel: nat, ctx: Ctx, em: Emit, dest: int, st: Store,
                                 c: Config, k: nat, d: Config, off: int,
                                 n1: Node, em1: Emit, dest1: int, len: int)
    returns (k': nat, d': Config)
    requires Mid(vm, ctx, em, dest, st, c, k, d, off)
    requires em1.scope == em.scope && em1.next >= em.next && (em.next <= dest1 < em1.next || dest1 == dest)
    requires Scoped(ctx, n1)
    requires At(vm.code, c.pc + off, Compile(n1, em1, dest1).code) && Extends(Compile(n1, em1, dest1).em.pool, vm.pool)
    ensures vm.Run(c, k') == d' && k' >= k
    ensures var r := Eval(vm.ops, fuel, n1, st);
            if r.Normal? then
              && d'.Running?
              && Mid(vm, ctx, em, dest, r.st, c, k', d', off + |Compile(n1, em1, dest1).code|)
              && Get(d'.regs, dest1) == r.v
              && forall q :: em.next <= q < em1.next && q != dest1 ==> Get(d'.regs, q) == Get(d.regs, q)
            else Ends(r, ctx, em, dest, len, fuel, c, k', d')
    decreases fuel, n1, 4
  {
    hide Compile, Eval, Scoped, Matches, Separate, Agrees, Holds, Vm.Run;
    if em1.next > em.next {
      Temporary(ctx, em, dest, em1);
    }
    assert Tidy(ctx, em1, dest1) by {
      if dest1 != dest {
        FreshRegister(em.scope, em.next, dest1);
      }
    }
    var k1, d1 := Simulate(vm, fuel, ctx, em1, dest1, n1, st, d);
    Joins(Eval(vm.ops, fuel, n1, st), vm, ctx, em, dest, st, c, k, d, off,
          em1, dest1, |Compile(n1, em1, dest1).code|, fuel, k1, d1, len);
    k', d' := k + k1, d1;
  }

  /** Runs a loop again from its first instruction. */
  lemma {:induction false} Repeats(vm: Vm, fuel: nat, ctx: Ctx, em: Emit, dest: int, n: Node, st: Store,
                                   c: Config, k: nat, d: Config)
    returns (k': nat, d': Config)
    requires fuel > 0 && k > 0 && Mid(vm, ctx, em, dest, st, c, k, d, 0) && Scoped(ctx, n)
    requires At(vm.code, c.pc, Compile(n, em, dest).code) && Extends(Compile(n, em, dest).em.pool, vm.pool)
    ensures vm.Run(c, k') == d'
    ensures Ends(Eval(vm.ops, fuel - 1, n, st), ctx, em, dest, |Compile(n, em, dest).code|, fuel, c, k', d')
    decreases fuel, n, 1
  {
    hide Compile, Eval, Scoped, Matches, Separate, Agrees, Holds, Vm.Run, Extends, At;
    var k1, d1 := Simulate(vm, fuel - 1, ctx, em, dest, n, st, d);
    Then(vm, c, k, d, k1, d1);
    k', d' := k + k1, d1;
  }

  lemma Dispatch(n: Node, em: Emit, dest: int)
    ensures n.Decl? ==> Compile(n, em, dest) == CompileDecl(n, em, dest)
    ensures n.Assign? ==> Compile(n, em, dest) == CompileAssign(n, em, dest)
    ensures n.OpAssign? ==> Compile(n, em, dest) == CompileOpAssign(n, em, dest)
    ensures n.LogicAssign? ==> Compile(n, em, dest) == CompileLogicAssign(n, em, dest)
    ensures n.Binary? ==> Compile(n, em, dest) == CompileBinary(n, em, dest)
    ensures n.Logical? ==> Compile(n, em, dest) == CompileLogical(n, em, dest)
    ensures n.Unary? ==> Compile(n, em, dest) == CompileUnary(n, em, dest)
    ensures n.Prefix? ==> Compile(n, em, dest) == CompilePrefix(n, em, dest)
    ensures n.Postfix? ==> Compile(n, em, dest) == CompilePostfix(n, em, dest)
    ensures n.Ternary? ==> Compile(n, em, dest) == CompileTernary(n, em, dest)
    ensures n.If? ==> Compile(n, em, dest) == CompileIf(n, em, dest)
    ensures n.While? ==> Compile(n, em, dest) == CompileWhile(n, em, dest)
    ensures n.DoWhile? ==> Compile(n, em, dest) == CompileDoWhile(n, em, dest)
    ensures n.Throw? ==> Compile(n, em, dest) == CompileThrow(n, em, dest)
    ensures n.Try? ==> Compile(n, em, dest) == CompileTryFinally(n, em, dest)
  {
    hide CompileDecl, CompileAssign, CompileOpAssign, CompileLogicAssign, CompileBinary, CompileLogical, CompileUnary,
         CompilePrefix, CompilePostfix, CompileTernary, CompileIf, CompileWhile, CompileDoWhile, CompileThrow,
         CompileTryFinally, CompileLit, CompileIdent, CompileSequence, CompileBlock;
  }

  // ----- Cases -----

  lemma LayoutBinary(vm: Vm, ctx: Ctx, em: Emit, dest: int, n: Node, c: Config)
    requires n.Binary? && Scoped(ctx, n) && Agrees(ctx, em.scope) && em.next >= 0
    requires c.Running? && At(vm.code, c.pc, Compile(n, em, dest).code)
    requires Extends(Compile(n, em, dest).em.pool, vm.pool)
    ensures var l, r := em.next, em.next + 1;
            var o1 := Compile(n.left, em.Alloc(), l);
            var o2 := Compile(n.right, o1.em.Alloc(), r);
            && At(vm.code, c.pc, o1.code) && Extends(o1.em.pool, vm.pool)
            && At(vm.code, c.pc + |o1.code|, o2.code) && Extends(o2.em.pool, vm.pool)
            && At(vm.code, c.pc + |o1.code| + |o2.code|, [BinaryOp(n.op, dest, l, r)])
            && |Compile(n, em, dest).code| == |o1.code| + |o2.code| + 1
            && o1.em.scope == em.scope && o1.em.next == r
            && Scoped(ctx, n.left) && Scoped(ctx, n.right)
  {
    hide Find, At, Extends, Compile;
    Dispatch(n, em, dest);
    KeepsBoth(ctx, n, n.left, n.right, em);
    var o1 := Compile(n.left, em.Alloc(), em.next);
    var o2 := Compile(n.right, o1.em.Alloc(), em.next + 1);
    Within(o1.em.pool, o2.em.pool, vm.pool);
    Split3(vm.code, c.pc, o1.code, o2.code, [BinaryOp(n.op, dest, em.next, em.next + 1)]);
  }

  lemma MeaningBinary(ops: Ops, fuel: nat, n: Node, st: Store)
    requires n.Binary?
    ensures var r1 := Eval(ops, fuel, n.left, st);
            if !r1.Normal? then Eval(ops, fuel, n, st) == r1
            else
              var r2 := Eval(ops, fuel, n.right, r1.st);
              Eval(ops, fuel, n, st) == if r2.Normal? then Lift(ops.binary(n.op, r1.v, r2.v), r2.st) else r2
  {
  }

  lemma {:induction false} SimBinary(vm: Vm, fuel: nat, ctx: Ctx, em: Emit, dest: int, n: Node, st: Store, c: Config)
    returns (k: nat, d: Config)
    requires n.Binary? && Scoped(ctx, n) && Ready(vm, ctx, em, dest, Compile(n, em, dest), st, c)
    ensures vm.Run(c, k) == d
    ensures Ends(Eval(vm.ops, fuel, n, st), ctx, em, dest, |Compile(n, em, dest).code|, fuel, c, k, d)
    decreases fuel, n, 2
  {
    hide Compile, CompileIdent, CompileStore, CompileLit, Eval, Scoped,
      Matches, Separate, Agrees, Holds, Vm.Run, Mid, Extends, Find, Lookup, At, Ends;
    LayoutBinary(vm, ctx, em, dest, n, c);
    MeaningBinary(vm.ops, fuel, n, st);
    Begin(vm, ctx, em, dest, Compile(n, em, dest), st, c);
    var l, r, em1 := em.next, em.next + 1, em.Alloc();
    var o1 := Compile(n.left, em1, l);
    var o2 := Compile(n.right, o1.em.Alloc(), r);
    var len := |o1.code| + |o2.code| + 1;
    var r1 := Eval(vm.ops, fuel, n.left, st);
    k, d := Child(vm, fuel, ctx, em, dest, st, c, 0, c, 0, n.left, em1, l, len);
    if r1.Normal? {
      var r2 := Eval(vm.ops, fuel, n.right, r1.st);
      k, d := Child(vm, fuel, ctx, em, dest, r1.st, c, k, d, |o1.code|, n.right, o1.em.Alloc(), r, len);
      if r2.Normal? {
        k, d := Computes(vm, fuel, ctx, em, dest, r2.st, c, k, d, BinaryOp(n.op, dest, l, r),
                         vm.ops.binary(n.op, r1.v, r2.v), len);
      }
    }
  }

  lemma LayoutUnary(vm: Vm, ctx: Ctx, em: Emit, dest: int, n: Node, c: Config)
    requires n.Unary? && Scoped(ctx, n) && Agrees(ctx, em.scope) && em.next >= 0
    requires c.Running? && At(vm.code, c.pc, Compile(n, em, dest).code)
    requires Extends(Compile(n, em, dest).em.pool, vm.pool)
    ensures var o := Compile(n.arg, em.Alloc(), em.next);
            && At(vm.code, c.pc, o.code) && Extends(o.em.pool, vm.pool)
            && At(vm.code, c.pc + |o.code|, [UnaryOp(n.unop, dest, em.next)])
            && |Compile(n, em, dest).code| == |o.code| + 1
            && Scoped(ctx, n.arg)
  {
    hide Find, At, Extends, Compile;
    Dispatch(n, em, dest);
    var o := Compile(n.arg, em.Alloc(), em.next);
    Split(vm.code, c.pc, o.code, [UnaryOp(n.unop, dest, em.next)]);
  }

  lemma MeaningUnary(ops: Ops, fuel: nat, n: Node, st: Store)
    requires n.Unary?
    ensures var r := Eval(ops, fuel, n.arg, st);
            Eval(ops, fuel, n, st) == if r.Normal? then Lift(ops.unary(n.unop, r.v), r.st) else r
  {
  }

  lemma {:induction false} SimUnary(vm: Vm, fuel: nat, ctx: Ctx, em: Emit, dest: int, n: Node, st: Store, c: Config)
    returns (k: nat, d: Config)
    requires n.Unary? && Scoped(ctx, n) && Ready(vm, ctx, em, dest, Compile(n, em, dest), st, c)
    ensures vm.Run(c, k) == d
    ensures Ends(Eval(vm.ops, fuel, n, st), ctx, em, dest, |Compile(n, em, dest).code|, fuel, c, k, d)
    decreases fuel, n, 2
  {
    hide Compile, CompileIdent, CompileStore, CompileLit, Eval, Scoped,
      Matches, Separate, Agrees, Holds, Vm.Run, Mid, Extends, Find, Lookup, At, Ends;
    LayoutUnary(vm, ctx, em, dest, n, c);
    MeaningUnary(vm.ops, fuel, n, st);
    Begin(vm, ctx, em, dest, Compile(n, em, dest), st, c);
    var o := Compile(n.arg, em.Alloc(), em.next);
    var r := Eval(vm.ops, fuel, n.arg, st);
    k, d := Child(vm, fuel, ctx, em, dest, st, c, 0, c, 0, n.arg, em.Alloc(), em.next, |o.code| + 1);
    if r.Normal? {
      k, d := Computes(vm, fuel, ctx, em, dest, r.st, c, k, d, UnaryOp(n.unop, dest, em.next),
                       vm.ops.unary(n.unop, r.v), |o.code| + 1);
    }
  }

  lemma LayoutThrow(vm: Vm, ctx: Ctx, em: Emit, dest: int, n: Node, c: Config)
    requires n.Throw? && Scoped(ctx, n) && Agrees(ctx, em.scope) && em.next >= 0
    requires c.Running? && At(vm.code, c.pc, Compile(n, em, dest).code)
    requires Extends(Compile(n, em, dest).em.pool, vm.pool)
    ensures var o := Compile(n.arg, em.Alloc(), em.next);
            && At(vm.code, c.pc, o.code) && Extends(o.em.pool, vm.pool)
            && At(vm.code, c.pc + |o.code|, [ThrowReg(em.next)])
            && Scoped(ctx, n.arg)
  {
    hide Find, At, Extends, Compile;
    Dispatch(n, em, dest);
    var o := Compile(n.arg, em.Alloc(), em.next);
    Split3(vm.code, c.pc, o.code, [ThrowReg(em.next)], [LoadUndefined(dest)]);
  }

  lemma MeaningThrow(ops: Ops, fuel: nat, n: Node, st: Store)
    requires n.Throw?
    ensures var r := Eval(ops, fuel, n.arg, st);
            Eval(ops, fuel, n, st) == if r.Normal? then Throws(r.v, r.st) else r
  {
  }

  lemma {:induction false} SimThrow(vm: Vm, fuel: nat, ctx: Ctx, em: Emit, dest: int, n: Node, st: Store, c: Config)
    returns (k: nat, d: Config)
    requires n.Throw? && Scoped(ctx, n) && Ready(vm, ctx, em, dest, Compile(n, em, dest), st, c)
    ensures vm.Run(c, k) == d
    ensures Ends(Eval(vm.ops, fuel, n, st), ctx, em, dest, |Compile(n, em, dest).code|, fuel, c, k, d)
    decreases fuel, n, 2
  {
    hide Compile, CompileIdent, CompileStore, CompileLit, Eval, Scoped,
      Matches, Separate, Agrees, Holds, Vm.Run, Mid, Extends, Find, Lookup, At, Ends;
    LayoutThrow(vm, ctx, em, dest, n, c);
    MeaningThrow(vm.ops, fuel, n, st);
    Begin(vm, ctx, em, dest, Compile(n, em, dest), st, c);
    var o := Compile(n.arg, em.Alloc(), em.next);
    var len := |Compile(n, em, dest).code|;
    var r := Eval(vm.ops, fuel, n.arg, st);
    k, d := Child(vm, fuel, ctx, em, dest, st, c, 0, c, 0, n.arg, em.Alloc(), em.next, len);
    if r.Normal? {
      k, d := Raises(vm, ctx, em, dest, r.st, c, k, d, |o.code|, ThrowReg(em.next), r.v, len, fuel);
    }
  }

  lemma LayoutAssign(vm: Vm, ctx: Ctx, em: Emit, dest: int, n: Node, c: Config)
    requires n.Assign? && Scoped(ctx, n) && Agrees(ctx, em.scope) && em.next >= 0
    requires c.Running? && At(vm.code, c.pc, Compile(n, em, dest).code)
    requires Extends(Compile(n, em, dest).em.pool, vm.pool)
    ensures var v := em.next;
            var o := Compile(n.rhs, em.Alloc(), v);
            var s := CompileStore(n.name, v, o.em);
            && At(vm.code, c.pc, o.code) && Extends(o.em.pool, vm.pool)
            && At(vm.code, c.pc + |o.code|, s.code) && Extends(s.em.pool, vm.pool)
            && At(vm.code, c.pc + |o.code| + |s.code|, [Move(dest, v)])
            && |Compile(n, em, dest).code| == |o.code| + 2
            && o.em.scope == em.scope
            && |s.code| == 1 && Scoped(ctx, n.rhs) && Resolvable(ctx, n.name)
  {
    hide Find, At, Extends, Compile;
    Dispatch(n, em, dest);
    Keeps(ctx, n.rhs, em.Alloc(), em.next);
    var o := Compile(n.rhs, em.Alloc(), em.next);
    var s := CompileStore(n.name, em.next, o.em);
    Within(o.em.pool, s.em.pool, vm.pool);
    Split3(vm.code, c.pc, o.code, s.code, [Move(dest, em.next)]);
  }

  lemma MeaningAssign(ops: Ops, fuel: nat, n: Node, st: Store)
    requires n.Assign?
    ensures var r := Eval(ops, fuel, n.rhs, st);
            Eval(ops, fuel, n, st) == if r.Normal? then Normal(r.v, Write(r.st, n.name, r.v)) else r
  {
  }

  lemma {:induction false} SimAssign(vm: Vm, fuel: nat, ctx: Ctx, em: Emit, dest: int, n: Node, st: Store, c: Config)
    returns (k: nat, d: Config)
    requires n.Assign? && Scoped(ctx, n) && Ready(vm, ctx, em, dest, Compile(n, em, dest), st, c)
    ensures vm.Run(c, k) == d
    ensures Ends(Eval(vm.ops, fuel, n, st), ctx, em, dest, |Compile(n, em, dest).code|, fuel, c, k, d)
    decreases fuel, n, 2
  {
    hide Compile, CompileIdent, CompileStore, CompileLit, Eval, Scoped,
      Matches, Separate, Agrees, Holds, Vm.Run, Mid, Extends, Find, Lookup, At, Ends;
    LayoutAssign(vm, ctx, em, dest, n, c);
    MeaningAssign(vm.ops, fuel, n, st);
    Begin(vm, ctx, em, dest, Compile(n, em, dest), st, c);
    var v := em.next;
    var o := Compile(n.rhs, em.Alloc(), v);
    var r := Eval(vm.ops, fuel, n.rhs, st);
    k, d := Child(vm, fuel, ctx, em, dest, st, c, 0, c, 0, n.rhs, em.Alloc(), v, |o.code| + 2);
    if r.Normal? {
      k, d := StoreAndMove(vm, fuel, ctx, em, dest, r.st, c, k, d, |o.code|, n.name, v, o.em);
    }
  }

  lemma LayoutOpAssign(vm: Vm, ctx: Ctx, em: Emit, dest: int, n: Node, c: Config)
    requires n.OpAssign? && Scoped(ctx, n) && Agrees(ctx, em.scope) && em.next >= 0
    requires c.Running? && At(vm.code, c.pc, Compile(n, em, dest).code)
    requires Extends(Compile(n, em, dest).em.pool, vm.pool)
    ensures var v, l, r := em.next, em.next + 1, em.next + 2;
            var o1 := CompileIdent(n.name, em.Alloc().Alloc(), l);
            var o2 := Compile(n.rhs, o1.em.Alloc(), r);
            var s := CompileStore(n.name, v, o2.em.Free(l));
            && At(vm.code, c.pc, o1.code) && Extends(o1.em.pool, vm.pool)
            && At(vm.code, c.pc + 1, o2.code) && Extends(o2.em.pool, vm.pool)
            && At(vm.code, c.pc + 1 + |o2.code|, [BinaryOp(n.op, v, l, r)])
            && At(vm.code, c.pc + 2 + |o2.code|, s.code) && Extends(s.em.pool, vm.pool)
            && At(vm.code, c.pc + 2 + |o2.code| + |s.code|, [Move(dest, v)])
            && |Compile(n, em, dest).code| == |o2.code| + 4
            && o1.em.scope == o2.em.scope == em.scope && o1.em.next == r
            && |s.code| == 1 && Scoped(ctx, n.rhs) && Resolvable(ctx, n.name)
  {
    hide Find, At, Extends, Compile;
    Dispatch(n, em, dest);
    ResolvableFound(ctx, em.scope, n.name);
    var o1 := CompileIdent(n.name, em.Alloc().Alloc(), em.next + 1);
    Keeps(ctx, n.rhs, o1.em.Alloc(), em.next + 2);
    var o2 := Compile(n.rhs, o1.em.Alloc(), em.next + 2);
    var s := CompileStore(n.name, em.next, o2.em.Free(em.next + 1));
    Within(o2.em.pool, s.em.pool, vm.pool);
    Within(o1.em.pool, o2.em.pool, vm.pool);
    Split5(vm.code, c.pc, o1.code, o2.code, [BinaryOp(n.op, em.next, em.next + 1, em.next + 2)], s.code,
           [Move(dest, em.next)]);
  }

  lemma MeaningOpAssign(ops: Ops, fuel: nat, n: Node, st: Store)
    requires n.OpAssign?
    ensures var r := Eval(ops, fuel, n.rhs, st);
            Eval(ops, fuel, n, st) ==
              if !r.Normal? then r
              else
                var w := ops.binary(n.op, Read(st, n.name), r.v);
                if w.Yields? then Normal(w.v, Write(r.st, n.name, w.v)) else Throws(w.e, r.st)
  {
  }

  lemma {:induction false} SimOpAssign(vm: Vm, fuel: nat, ctx: Ctx, em: Emit, dest: int, n: Node, st: Store, c: Config)
    returns (k: nat, d: Config)
    requires n.OpAssign? && Scoped(ctx, n) && Ready(vm, ctx, em, dest, Compile(n, em, dest), st, c)
    ensures vm.Run(c, k) == d
    ensures Ends(Eval(vm.ops, fuel, n, st), ctx, em, dest, |Compile(n, em, dest).code|, fuel, c, k, d)
    decreases fuel, n, 2
  {
    hide Compile, CompileIdent, CompileStore, CompileLit, Eval, Scoped,
      Matches, Separate, Agrees, Holds, Vm.Run, Mid, Extends, Find, Lookup, At, Ends;
    LayoutOpAssign(vm, ctx, em, dest, n, c);
    MeaningOpAssign(vm.ops, fuel, n, st);
    Begin(vm, ctx, em, dest, Compile(n, em, dest), st, c);
    var v, l, r, em1 := em.next, em.next + 1, em.next + 2, em.Alloc().Alloc();
    var o1 := CompileIdent(n.name, em1, l);
    var o2 := Compile(n.rhs, o1.em.Alloc(), r);
    var len, off := |o2.code| + 4, |o2.code| + 1;
    var op := BinaryOp(n.op, v, l, r);
    LoadsIdent(vm, ctx, em, dest, st, c, 0, c, 0, n.name, em1, l);
    var res := Eval(vm.ops, fuel, n.rhs, st);
    k, d := Child(vm, fuel, ctx, em, dest, st, c, 1, vm.Load(c, l, Read(st, n.name)), 1, n.rhs, o1.em.Alloc(), r, len);
    if res.Normal? {
      var w := vm.ops.binary(n.op, Read(st, n.name), res.v);
      if w.Yields? {
        Loads(vm, ctx, em, dest, res.st, c, k, d, off, op, v, w.v);
        k, d := StoreAndMove(vm, fuel, ctx, em, dest, res.st, c, k + 1, vm.Load(d, v, w.v), off + 1, n.name, v,
                             o2.em.Free(l));
      } else {
        k, d := Raises(vm, ctx, em, dest, res.st, c, k, d, off, op, w.e, len, fuel);
      }
    }
  }

  /** They reach the assignment or pass it, as the operator stops or not. */
  lemma Skips(vm: Vm, ctx: Ctx, em: Emit, dest: int, st: Store, c: Config, k: nat, d: Config, off: int,
              logic: Logic, v: int, len: int)
    returns (k': nat, d': Config)
    requires Mid(vm, ctx, em, dest, st, c, k, d, off) && At(vm.code, c.pc + off, SkipAssign(logic, v, len))
    ensures d'.Running? && d' == d.(pc := d'.pc)
    ensures var after := off + |SkipAssign(logic, v, len)|;
            Mid(vm, ctx, em, dest, st, c, k', d', if Stops(vm.ops, logic, Get(d.regs, v)) then after + len else after)
  {
    hide Matches, Separate, Agrees, Vm.Run, Holds;
    if logic.Nullish? {
      Split(vm.code, c.pc + off, [JumpIf(IfNullish, v, 1)], [Jump(len)]);
      if Stops(vm.ops, logic, Get(d.regs, v)) {
        Jumps(vm, ctx, em, dest, st, c, k, d, off, JumpIf(IfNullish, v, 1), off + 1);
        Jumps(vm, ctx, em, dest, st, c, k + 1, d.(pc := c.pc + (off + 1)), off + 1, Jump(len), off + 2 + len);
        k', d' := k + 2, d.(pc := c.pc + (off + 2 + len));
      } else {
        Jumps(vm, ctx, em, dest, st, c, k, d, off, JumpIf(IfNullish, v, 1), off + 2);
        k', d' := k + 1, d.(pc := c.pc + (off + 2));
      }
    } else {
      var target := if Stops(vm.ops, logic, Get(d.regs, v)) then off + 1 + len else off + 1;
      Jumps(vm, ctx, em, dest, st, c, k, d, off, JumpIf(SkipGuard(logic), v, len), target);
      k', d' := k + 1, d.(pc := c.pc + target);
    }
  }

  lemma LayoutLogicAssign(vm: Vm, ctx: Ctx, em: Emit, dest: int, n: Node, c: Config)
    requires n.LogicAssign? && Scoped(ctx, n) && Agrees(ctx, em.scope) && em.next >= 0
    requires c.Running? && At(vm.code, c.pc, Compile(n, em, dest).code)
    requires Extends(Compile(n, em, dest).em.pool, vm.pool)
    ensures var v := em.next;
            var o1 := CompileIdent(n.name, em.Alloc(), v);
            var o2 := Compile(n.rhs, o1.em, v);
            var s := CompileStore(n.name, v, o2.em);
            var skip := SkipAssign(n.logic, v, |o2.code| + 1);
            && At(vm.code, c.pc, o1.code) && Extends(o1.em.pool, vm.pool)
            && At(vm.code, c.pc + 1, skip)
            && At(vm.code, c.pc + 1 + |skip|, o2.code) && Extends(o2.em.pool, vm.pool)
            && At(vm.code, c.pc + 1 + |skip| + |o2.code|, s.code) && Extends(s.em.pool, vm.pool)
            && At(vm.code, c.pc + 1 + |skip| + |o2.code| + |s.code|, [Move(dest, v)])
            && |Compile(n, em, dest).code| == |skip| + |o2.code| + 3
            && o1.em.scope == o2.em.scope == em.scope && o1.em.next == v + 1
            && |s.code| == 1 && Scoped(ctx, n.rhs) && Resolvable(ctx, n.name)
  {
    hide Find, At, Extends, Compile;
    Dispatch(n, em, dest);
    ResolvableFound(ctx, em.scope, n.name);
    var o1 := CompileIdent(n.name, em.Alloc(), em.next);
    Keeps(ctx, n.rhs, o1.em, em.next);
    var o2 := Compile(n.rhs, o1.em, em.next);
    var s := CompileStore(n.name, em.next, o2.em);
    var skip := SkipAssign(n.logic, em.next, |o2.code| + 1);
    Within(o2.em.pool, s.em.pool, vm.pool);
    Within(o1.em.pool, o2.em.pool, vm.pool);
    Split5(vm.code, c.pc, o1.code, skip, o2.code, s.code, [Move(dest, em.next)]);
  }

  lemma MeaningLogicAssign(ops: Ops, fuel: nat, n: Node, st: Store)
    requires n.LogicAssign?
    ensures var l := Read(st, n.name);
            Eval(ops, fuel, n, st) ==
              if Stops(ops, n.logic, l) then Normal(l, st)
              else
                var r := Eval(ops, fuel, n.rhs, st);
                if r.Normal? then Normal(r.v, Write(r.st, n.name, r.v)) else r
  {
  }

  lemma {:induction false} SimLogicAssign(vm: Vm, fuel: nat, ctx: Ctx, em: Emit, dest: int, n: Node, st: Store,
                                          c: Config)
    returns (k: nat, d: Config)
    requires n.LogicAssign? && Scoped(ctx, n) && Ready(vm, ctx, em, dest, Compile(n, em, dest), st, c)
    ensures vm.Run(c, k) == d
    ensures Ends(Eval(vm.ops, fuel, n, st), ctx, em, dest, |Compile(n, em, dest).code|, fuel, c, k, d)
    decreases fuel, n, 2
  {
    hide Compile, CompileIdent, CompileStore, CompileLit, Eval, Scoped,
      Matches, Separate, Agrees, Holds, Vm.Run, Mid, Extends, Find, Lookup, At, Ends;
    LayoutLogicAssign(vm, ctx, em, dest, n, c);
    MeaningLogicAssign(vm.ops, fuel, n, st);
    Begin(vm, ctx, em, dest, Compile(n, em, dest), st, c);
    var v, l := em.next, Read(st, n.name);
    var o1 := CompileIdent(n.name, em.Alloc(), v);
    var o2 := Compile(n.rhs, o1.em, v);
    var skip := |SkipAssign(n.logic, v, |o2.code| + 1)|;
    var len := skip + |o2.code| + 3;
    LoadsIdent(vm, ctx, em, dest, st, c, 0, c, 0, n.name, em.Alloc(), v);
    k, d := Skips(vm, ctx, em, dest, st, c, 1, vm.Load(c, v, l), 1, n.logic, v, |o2.code| + 1);
    if Stops(vm.ops, n.logic, l) {
      Loads(vm, ctx, em, dest, st, c, k, d, len - 1, Move(dest, v), dest, l);
      k, d := k + 1, vm.Load(d, dest, l);
      Finish(vm, ctx, em, dest, st, c, k, d, len, fuel);
    } else {
      var r := Eval(vm.ops, fuel, n.rhs, st);
      k, d := Child(vm, fuel, ctx, em, dest, st, c, k, d, 1 + skip, n.rhs, o1.em, v, len);
      if r.Normal? {
        k, d := StoreAndMove(vm, fuel, ctx, em, dest, r.st, c, k, d, 1 + skip + |o2.code|, n.name, v, o2.em);
      }
    }
  }

  /** After the left operand the machine either has the result in the target and is
      at the end, or is about to run the right operand. */
  lemma JoinsLeft(vm: Vm, fuel: nat, ctx: Ctx, em: Emit, dest: int, st: Store, c: Config, k: nat, d: Config, off: int,
                  logic: Logic, l: int, r: int, len: int)
    returns (k': nat, d': Config)
    requires Mid(vm, ctx, em, dest, st, c, k, d, off) && At(vm.code, c.pc + off, JoinLeft(logic, dest, l, len))
    requires l >= em.next && len >= 0
    requires At(vm.code, c.pc + off + |JoinLeft(logic, dest, l, len)| + len, JoinRight(logic, dest, l, r))
    ensures d'.Running? && vm.Run(c, k') == d'
    ensures var v := Get(d.regs, l);
            if Stops(vm.ops, logic, v) then
              Ends(Normal(v, st), ctx, em, dest,
                   off + |JoinLeft(logic, dest, l, len)| + len + |JoinRight(logic, dest, l, r)|, fuel, c, k', d')
            else Mid(vm, ctx, em, dest, st, c, k', d', off + |JoinLeft(logic, dest, l, len)|)
  {
    hide Matches, Separate, Agrees, Vm.Run, Holds, At, Mid, Ends, JoinLeft, JoinRight, Stops;
    if logic.Nullish? {
      k', d' := JoinsNullish(vm, fuel, ctx, em, dest, st, c, k, d, off, logic, l, r, len);
    } else {
      k', d' := JoinsShort(vm, fuel, ctx, em, dest, st, c, k, d, off, logic, l, r, len);
    }
  }

  lemma JoinsNullish(vm: Vm, fuel: nat, ctx: Ctx, em: Emit, dest: int, st: Store, c: Config, k: nat, d: Config,
                     off: int, logic: Logic, l: int, r: int, len: int)
    returns (k': nat, d': Config)
    requires Mid(vm, ctx, em, dest, st, c, k, d, off) && At(vm.code, c.pc + off, JoinLeft(logic, dest, l, len))
    requires logic.Nullish? && l >= em.next && len >= 0
    requires At(vm.code, c.pc + off + |JoinLeft(logic, dest, l, len)| + len, JoinRight(logic, dest, l, r))
    ensures d'.Running? && vm.Run(c, k') == d'
    ensures var v := Get(d.regs, l);
            if Stops(vm.ops, logic, v) then
              Ends(Normal(v, st), ctx, em, dest,
                   off + |JoinLeft(logic, dest, l, len)| + len + |JoinRight(logic, dest, l, r)|, fuel, c, k', d')
            else Mid(vm, ctx, em, dest, st, c, k', d', off + |JoinLeft(logic, dest, l, len)|)
  {
    hide Matches, Separate, Agrees, Vm.Run, Holds, At, Mid, Ends;
    AtMid(vm, ctx, em, dest, st, c, k, d, off);
    var v := Get(d.regs, l);
    assert JoinLeft(logic, dest, l, len) == [Move(dest, l)] + [JumpIf(IfNullish, l, 1)] + [Jump(len + 1)];
    Split3(vm.code, c.pc + off, [Move(dest, l)], [JumpIf(IfNullish, l, 1)], [Jump(len + 1)]);
    Loads(vm, ctx, em, dest, st, c, k, d, off, Move(dest, l), dest, v);
    var d1 := vm.Load(d, dest, v);
    if Stops(vm.ops, logic, v) {
      Jumps(vm, ctx, em, dest, st, c, k + 1, d1, off + 1, JumpIf(IfNullish, l, 1), off + 2);
      Jumps(vm, ctx, em, dest, st, c, k + 2, d1.(pc := c.pc + (off + 2)), off + 2, Jump(len + 1), off + 4 + len);
      k', d' := k + 3, d1.(pc := c.pc + (off + 4 + len));
      Finish(vm, ctx, em, dest, st, c, k', d', off + 4 + len, fuel);
    } else {
      Jumps(vm, ctx, em, dest, st, c, k + 1, d1, off + 1, JumpIf(IfNullish, l, 1), off + 3);
      k', d' := k + 2, d1.(pc := c.pc + (off + 3));
      RunsTo(vm, ctx, em, dest, st, c, k', d', off + 3);
    }
  }

  lemma JoinsShort(vm: Vm, fuel: nat, ctx: Ctx, em: Emit, dest: int, st: Store, c: Config, k: nat, d: Config, off: int,
                   logic: Logic, l: int, r: int, len: int)
    returns (k': nat, d': Config)
    requires Mid(vm, ctx, em, dest, st, c, k, d, off) && At(vm.code, c.pc + off, JoinLeft(logic, dest, l, len))
    requires !logic.Nullish? && l >= em.next && len >= 0
    requires At(vm.code, c.pc + off + |JoinLeft(logic, dest, l, len)| + len, JoinRight(logic, dest, l, r))
    ensures d'.Running? && vm.Run(c, k') == d'
    ensures var v := Get(d.regs, l);
            if Stops(vm.ops, logic, v) then
              Ends(Normal(v, st), ctx, em, dest,
                   off + |JoinLeft(logic, dest, l, len)| + len + |JoinRight(logic, dest, l, r)|, fuel, c, k', d')
            else Mid(vm, ctx, em, dest, st, c, k', d', off + |JoinLeft(logic, dest, l, len)|)
  {
    hide Matches, Separate, Agrees, Vm.Run, Holds, At, Mid, Ends;
    AtMid(vm, ctx, em, dest, st, c, k, d, off);
    var v := Get(d.regs, l);
    var target := if Stops(vm.ops, logic, v) then off + 3 + len else off + 1;
    Jumps(vm, ctx, em, dest, st, c, k, d, off, JumpIf(SkipGuard(logic), l, len + 2), target);
    k', d' := k + 1, d.(pc := c.pc + target);
    RunsTo(vm, ctx, em, dest, st, c, k', d', target);
    if Stops(vm.ops, logic, v) {
      assert JoinRight(logic, dest, l, r) == [Move(dest, r)] + [Jump(1)] + [Move(dest, l)];
      Split3(vm.code, c.pc + off + 1 + len, [Move(dest, r)], [Jump(1)], [Move(dest, l)]);
      Loads(vm, ctx, em, dest, st, c, k', d', target, Move(dest, l), dest, v);
      k', d' := k + 2, vm.Load(d', dest, v);
      Finish(vm, ctx, em, dest, st, c, k', d', off + 4 + len, fuel);
    }
  }

  lemma RunsTo(vm: Vm, ctx: Ctx, em: Emit, dest: int, st: Store, c: Config, k: nat, d: Config, off: int)
    requires Mid(vm, ctx, em, dest, st, c, k, d, off)
    ensures vm.Run(c, k) == d && d.Running?
  {
  }

  lemma JoinsRight(vm: Vm, fuel: nat, ctx: Ctx, em: Emit, dest: int, st: Store, c: Config, k: nat, d: Config, off: int,
                   logic: Logic, l: int, r: int)
    returns (k': nat, d': Config)
    requires Mid(vm, ctx, em, dest, st, c, k, d, off) && At(vm.code, c.pc + off, JoinRight(logic, dest, l, r))
    ensures vm.Run(c, k') == d'
    ensures Ends(Normal(Get(d.regs, r), st), ctx, em, dest, off + |JoinRight(logic, dest, l, r)|, fuel, c, k', d')
  {
    hide Matches, Separate, Agrees, Vm.Run, Holds, At, Mid, Ends;
    AtMid(vm, ctx, em, dest, st, c, k, d, off);
    var v := Get(d.regs, r);
    k', d' := k + 1, vm.Load(d, dest, v);
    if logic.Nullish? {
      Loads(vm, ctx, em, dest, st, c, k, d, off, Move(dest, r), dest, v);
      Finish(vm, ctx, em, dest, st, c, k', d', off + 1, fuel);
    } else {
      assert JoinRight(logic, dest, l, r) == [Move(dest, r)] + [Jump(1)] + [Move(dest, l)];
      Split3(vm.code, c.pc + off, [Move(dest, r)], [Jump(1)], [Move(dest, l)]);
      Loads(vm, ctx, em, dest, st, c, k, d, off, Move(dest, r), dest, v);
      Jumps(vm, ctx, em, dest, st, c, k', d', off + 1, Jump(1), off + 3);
      k', d' := k + 2, d'.(pc := c.pc + (off + 3));
      Finish(vm, ctx, em, dest, st, c, k', d', off + 3, fuel);
    }
  }

  lemma LayoutLogical(vm: Vm, ctx: Ctx, em: Emit, dest: int, n: Node, c: Config)
    requires n.Logical? && Scoped(ctx, n) && Agrees(ctx, em.scope) && em.next >= 0
    requires c.Running? && At(vm.code, c.pc, Compile(n, em, dest).code)
    requires Extends(Compile(n, em, dest).em.pool, vm.pool)
    ensures var l, r := em.next, em.next + 1;
            var o1 := Compile(n.left, em.Alloc(), l);
            var o2 := Compile(n.right, o1.em.Alloc(), r);
            var j1, j2 := JoinLeft(n.logic, dest, l, |o2.code|), JoinRight(n.logic, dest, l, r);
            && At(vm.code, c.pc, o1.code) && Extends(o1.em.pool, vm.pool)
            && At(vm.code, c.pc + |o1.code|, j1)
            && At(vm.code, c.pc + |o1.code| + |j1|, o2.code) && Extends(o2.em.pool, vm.pool)
            && At(vm.code, c.pc + |o1.code| + |j1| + |o2.code|, j2)
            && |Compile(n, em, dest).code| == |o1.code| + |j1| + |o2.code| + |j2|
            && o1.em.scope == em.scope && o1.em.next == r
            && Scoped(ctx, n.left) && Scoped(ctx, n.right)
  {
    hide Find, At, Extends, Compile;
    Dispatch(n, em, dest);
    KeepsBoth(ctx, n, n.left, n.right, em);
    var l, r := em.next, em.next + 1;
    var o1 := Compile(n.left, em.Alloc(), l);
    var o2 := Compile(n.right, o1.em.Alloc(), r);
    var j1, j2 := JoinLeft(n.logic, dest, l, |o2.code|), JoinRight(n.logic, dest, l, r);
    Within(o1.em.pool, o2.em.pool, vm.pool);
    Split4(vm.code, c.pc, o1.code, j1, o2.code, j2);
  }

  lemma MeaningLogical(ops: Ops, fuel: nat, n: Node, st: Store)
    requires n.Logical?
    ensures var r := Eval(ops, fuel, n.left, st);
            Eval(ops, fuel, n, st) ==
              if !r.Normal? then r
              else if Stops(ops, n.logic, r.v) then Normal(r.v, r.st)
              else Eval(ops, fuel, n.right, r.st)
  {
  }

  lemma {:induction false} SimLogical(vm: Vm, fuel: nat, ctx: Ctx, em: Emit, dest: int, n: Node, st: Store, c: Config)
    returns (k: nat, d: Config)
    requires n.Logical? && Scoped(ctx, n) && Ready(vm, ctx, em, dest, Compile(n, em, dest), st, c)
    ensures vm.Run(c, k) == d
    ensures Ends(Eval(vm.ops, fuel, n, st), ctx, em, dest, |Compile(n, em, dest).code|, fuel, c, k, d)
    decreases fuel, n, 2
  {
    hide Compile, CompileIdent, CompileStore, CompileLit, Eval, Scoped,
      Matches, Separate, Agrees, Holds, Vm.Run, Mid, Extends, Find, Lookup, At, Ends;
    LayoutLogical(vm, ctx, em, dest, n, c);
    MeaningLogical(vm.ops, fuel, n, st);
    Begin(vm, ctx, em, dest, Compile(n, em, dest), st, c);
    var l, r, em1 := em.next, em.next + 1, em.Alloc();
    var o1 := Compile(n.left, em1, l);
    var o2 := Compile(n.right, o1.em.Alloc(), r);
    var j1 := JoinLeft(n.logic, dest, l, |o2.code|);
    var len := |Compile(n, em, dest).code|;
    var r1 := Eval(vm.ops, fuel, n.left, st);
    k, d := Child(vm, fuel, ctx, em, dest, st, c, 0, c, 0, n.left, em1, l, len);
    if r1.Normal? {
      k, d := JoinsLeft(vm, fuel, ctx, em, dest, r1.st, c, k, d, |o1.code|, n.logic, l, r, |o2.code|);
      if !Stops(vm.ops, n.logic, r1.v) {
        var r2 := Eval(vm.ops, fuel, n.right, r1.st);
        k, d := Child(vm, fuel, ctx, em, dest, r1.st, c, k, d, |o1.code| + |j1|, n.right, o1.em.Alloc(), r, len);
        if r2.Normal? {
          k, d := JoinsRight(vm, fuel, ctx, em, dest, r2.st, c, k, d, |o1.code| + |j1| + |o2.code|, n.logic, l, r);
        }
      }
    }
  }

  lemma LayoutPrefix(vm: Vm, ctx: Ctx, em: Emit, dest: int, n: Node, c: Config)
    requires n.Prefix? && Scoped(ctx, n) && Agrees(ctx, em.scope) && em.next >= 0
    requires c.Running? && At(vm.code, c.pc, Compile(n, em, dest).code)
    requires Extends(Compile(n, em, dest).em.pool, vm.pool)
    ensures var e, one := em.next, em.next + 1;
            var o := CompileIdent(n.name, em.Alloc(), e);
            var s := CompileStore(n.name, dest, o.em.Alloc().Free(one));
            && At(vm.code, c.pc, o.code) && Extends(o.em.pool, vm.pool)
            && At(vm.code, c.pc + 1, [LoadInt(one, 1)])
            && At(vm.code, c.pc + 2, [BinaryOp(StepOp(n.step), dest, e, one)])
            && At(vm.code, c.pc + 3, s.code) && Extends(s.em.pool, vm.pool)
            && |Compile(n, em, dest).code| == 4 && o.em.scope == em.scope
            && |s.code| == 1 && Resolvable(ctx, n.name)
  {
    hide Find, At, Extends, Compile;
    Dispatch(n, em, dest);
    ResolvableFound(ctx, em.scope, n.name);
    var e, one := em.next, em.next + 1;
    var o := CompileIdent(n.name, em.Alloc(), e);
    var s := CompileStore(n.name, dest, o.em.Alloc().Free(one));
    Within(o.em.pool, s.em.pool, vm.pool);
    Split4(vm.code, c.pc, o.code, [LoadInt(one, 1)], [BinaryOp(StepOp(n.step), dest, e, one)], s.code);
  }

  lemma MeaningPrefix(ops: Ops, fuel: nat, n: Node, st: Store)
    requires n.Prefix?
    ensures var w := ops.binary(StepOp(n.step), Read(st, n.name), Num(Integral(1)));
            Eval(ops, fuel, n, st) == if w.Yields? then Normal(w.v, Write(st, n.name, w.v)) else Throws(w.e, st)
  {
  }

  lemma {:induction false} SimPrefix(vm: Vm, fuel: nat, ctx: Ctx, em: Emit, dest: int, n: Node, st: Store, c: Config)
    returns (k: nat, d: Config)
    requires n.Prefix? && Scoped(ctx, n) && Ready(vm, ctx, em, dest, Compile(n, em, dest), st, c)
    ensures vm.Run(c, k) == d
    ensures Ends(Eval(vm.ops, fuel, n, st), ctx, em, dest, |Compile(n, em, dest).code|, fuel, c, k, d)
    decreases fuel, n, 2
  {
    hide Compile, CompileIdent, CompileStore, CompileLit, Eval, Scoped,
      Matches, Separate, Agrees, Holds, Vm.Run, Mid, Extends, Find, Lookup, At, Ends;
    LayoutPrefix(vm, ctx, em, dest, n, c);
    MeaningPrefix(vm.ops, fuel, n, st);
    Begin(vm, ctx, em, dest, Compile(n, em, dest), st, c);
    var e, one, x := em.next, em.next + 1, Read(st, n.name);
    var o := CompileIdent(n.name, em.Alloc(), e);
    var op := BinaryOp(StepOp(n.step), dest, e, one);
    var w := vm.ops.binary(StepOp(n.step), x, Num(Integral(1)));
    LoadsIdent(vm, ctx, em, dest, st, c, 0, c, 0, n.name, em.Alloc(), e);
    d := vm.Load(c, e, x);
    Loads(vm, ctx, em, dest, st, c, 1, d, 1, LoadInt(one, 1), one, Num(Integral(1)));
    d := vm.Load(d, one, Num(Integral(1)));
    if w.Yields? {
      Loads(vm, ctx, em, dest, st, c, 2, d, 2, op, dest, w.v);
      var d1 := vm.Load(d, dest, w.v);
      d := Stores(vm, ctx, em, dest, st, c, 3, d1, 3, n.name, dest, o.em.Alloc().Free(one));
      k := 4;
      Finish(vm, ctx, em, dest, Write(st, n.name, w.v), c, k, d, 4, fuel);
    } else {
      k, d := Raises(vm, ctx, em, dest, st, c, 2, d, 2, op, w.e, 4, fuel);
    }
  }

  lemma LayoutPostfix(vm: Vm, ctx: Ctx, em: Emit, dest: int, n: Node, c: Config)
    requires n.Postfix? && Scoped(ctx, n) && Agrees(ctx, em.scope) && em.next >= 0
    requires c.Running? && At(vm.code, c.pc, Compile(n, em, dest).code)
    requires Extends(Compile(n, em, dest).em.pool, vm.pool)
    ensures var e, one, t := em.next, em.next + 1, em.next + 2;
            var o := CompileIdent(n.name, em.Alloc(), e);
            var s := CompileStore(n.name, t, o.em.Alloc().Alloc().Free(one));
            && At(vm.code, c.pc, o.code) && Extends(o.em.pool, vm.pool)
            && At(vm.code, c.pc + 1, [Move(dest, e)])
            && At(vm.code, c.pc + 2, [LoadInt(one, 1)])
            && At(vm.code, c.pc + 3, [BinaryOp(StepOp(n.step), t, e, one)])
            && At(vm.code, c.pc + 4, s.code) && Extends(s.em.pool, vm.pool)
            && |Compile(n, em, dest).code| == 5 && o.em.scope == em.scope
            && |s.code| == 1 && Resolvable(ctx, n.name)
  {
    hide Find, At, Extends, Compile;
    Dispatch(n, em, dest);
    ResolvableFound(ctx, em.scope, n.name);
    var e, one, t := em.next, em.next + 1, em.next + 2;
    var o := CompileIdent(n.name, em.Alloc(), e);
    var s := CompileStore(n.name, t, o.em.Alloc().Alloc().Free(one));
    var i1, i2, i3 := [Move(dest, e)], [LoadInt(one, 1)], [BinaryOp(StepOp(n.step), t, e, one)];
    Within(o.em.pool, s.em.pool, vm.pool);
    assert Compile(n, em, dest).code == o.code + i1 + i2 + i3 + s.code;
    Split5(vm.code, c.pc, o.code, i1, i2, i3, s.code);
  }

  lemma MeaningPostfix(ops: Ops, fuel: nat, n: Node, st: Store)
    requires n.Postfix?
    ensures var w := ops.binary(StepOp(n.step), Read(st, n.name), Num(Integral(1)));
            Eval(ops, fuel, n, st) ==
            if w.Yields? then Normal(Read(st, n.name), Write(st, n.name, w.v)) else Throws(w.e, st)
  {
  }

  lemma {:induction false} SimPostfix(vm: Vm, fuel: nat, ctx: Ctx, em: Emit, dest: int, n: Node, st: Store, c: Config)
    returns (k: nat, d: Config)
    requires n.Postfix? && Scoped(ctx, n) && Ready(vm, ctx, em, dest, Compile(n, em, dest), st, c)
    ensures vm.Run(c, k) == d
    ensures Ends(Eval(vm.ops, fuel, n, st), ctx, em, dest, |Compile(n, em, dest).code|, fuel, c, k, d)
    decreases fuel, n, 2
  {
    hide Compile, CompileIdent, CompileStore, CompileLit, Eval, Scoped,
      Matches, Separate, Agrees, Holds, Vm.Run, Mid, Extends, Find, Lookup, At, Ends, Resolvable, Read, StepOp;
    LayoutPostfix(vm, ctx, em, dest, n, c);
    MeaningPostfix(vm.ops, fuel, n, st);
    Begin(vm, ctx, em, dest, Compile(n, em, dest), st, c);
    var e, one, t, x := em.next, em.next + 1, em.next + 2, Read(st, n.name);
    var o := CompileIdent(n.name, em.Alloc(), e);
    var op := BinaryOp(StepOp(n.step), t, e, one);
    var w := vm.ops.binary(StepOp(n.step), x, Num(Integral(1)));
    LoadsIdent(vm, ctx, em, dest, st, c, 0, c, 0, n.name, em.Alloc(), e);
    d := vm.Load(c, e, x);
    Loads(vm, ctx, em, dest, st, c, 1, d, 1, Move(dest, e), dest, x);
    d := vm.Load(d, dest, x);
    Loads(vm, ctx, em, dest, st, c, 2, d, 2, LoadInt(one, 1), one, Num(Integral(1)));
    d := vm.Load(d, one, Num(Integral(1)));
    if w.Yields? {
      k, d := PostfixStores(vm, fuel, ctx, em, dest, st, c, d, n.name, op, t, w.v, x, o.em.Alloc().Alloc().Free(one));
    } else {
      k, d := Raises(vm, ctx, em, dest, st, c, 3, d, 3, op, w.e, 5, fuel);
    }
  }

  /** The new value goes to a temporary and into the variable; the target keeps the old one. */
  lemma PostfixStores(vm: Vm, fuel: nat, ctx: Ctx, em: Emit, dest: int, st: Store, c: Config, d: Config,
                      name: string, op: Instr, t: int, v: Value, x: Value, em1: Emit)
    returns (k: nat, d': Config)
    requires Mid(vm, ctx, em, dest, st, c, 3, d, 3) && At(vm.code, c.pc + 3, [op])
    requires vm.Execute(op, d) == vm.Load(d, t, v)
    requires t >= em.next && t != dest && !Holds(em.scope, dest) && Get(d.regs, dest) == x
    requires Resolvable(ctx, name) && em1.scope == em.scope
    requires At(vm.code, c.pc + 4, CompileStore(name, t, em1).code)
    requires Extends(CompileStore(name, t, em1).em.pool, vm.pool)
    ensures vm.Run(c, k) == d' && Ends(Normal(x, Write(st, name, v)), ctx, em, dest, 5, fuel, c, k, d')
  {
    hide CompileStore, Matches, Separate, Agrees, Holds, Vm.Run, Mid, Extends, Find, Lookup, At, Ends;
    AtMid(vm, ctx, em, dest, st, c, 3, d, 3);
    Loads(vm, ctx, em, dest, st, c, 3, d, 3, op, t, v);
    var d1 := vm.Load(d, t, v);
    d' := Stores(vm, ctx, em, dest, st, c, 4, d1, 4, name, t, em1);
    k := 5;
    Finish(vm, ctx, em, dest, Write(st, name, v), c, k, d', 5, fuel);
  }


  lemma LayoutTernary(vm: Vm, ctx: Ctx, em: Emit, dest: int, n: Node, c: Config)
    requires n.Ternary? && Scoped(ctx, n) && Agrees(ctx, em.scope) && em.next >= 0
    requires c.Running? && At(vm.code, c.pc, Compile(n, em, dest).code)
    requires Extends(Compile(n, em, dest).em.pool, vm.pool)
    ensures var r := em.next;
            var o1 := Compile(n.cond, em.Alloc(), r);
            var o2 := Compile(n.thn, o1.em.Free(r), dest);
            var o3 := Compile(n.els, o2.em, dest);
            && At(vm.code, c.pc, o1.code) && Extends(o1.em.pool, vm.pool)
            && At(vm.code, c.pc + |o1.code|, [JumpIf(IfFalse, r, |o2.code| + 1)])
            && At(vm.code, c.pc + |o1.code| + 1, o2.code) && Extends(o2.em.pool, vm.pool)
            && At(vm.code, c.pc + |o1.code| + 1 + |o2.code|, [Jump(|o3.code|)])
            && At(vm.code, c.pc + |o1.code| + 2 + |o2.code|, o3.code) && Extends(o3.em.pool, vm.pool)
            && |Compile(n, em, dest).code| == |o1.code| + |o2.code| + |o3.code| + 2
            && o1.em.scope == o2.em.scope == em.scope && o2.em.next == r
            && Scoped(ctx, n.cond) && Scoped(ctx, n.thn) && Scoped(ctx, n.els)
  {
    hide Find, At, Extends, Compile;
    Dispatch(n, em, dest);
    var r := em.next;
    var o1 := Compile(n.cond, em.Alloc(), r);
    Keeps(ctx, n.cond, em.Alloc(), r);
    var o2 := Compile(n.thn, o1.em.Free(r), dest);
    Keeps(ctx, n.thn, o1.em.Free(r), dest);
    var o3 := Compile(n.els, o2.em, dest);
    Within(o2.em.pool, o3.em.pool, vm.pool);
    Within(o1.em.pool, o2.em.pool, vm.pool);
    Split5(vm.code, c.pc, o1.code, [JumpIf(IfFalse, r, |o2.code| + 1)], o2.code, [Jump(|o3.code|)], o3.code);
  }

  lemma MeaningTernary(ops: Ops, fuel: nat, n: Node, st: Store)
    requires n.Ternary?
    ensures var r := Eval(ops, fuel, n.cond, st);
            Eval(ops, fuel, n, st) ==
              if !r.Normal? then r
              else if ops.truthy(r.v) then Eval(ops, fuel, n.thn, r.st)
              else Eval(ops, fuel, n.els, r.st)
  {
  }

  lemma {:induction false} SimTernary(vm: Vm, fuel: nat, ctx: Ctx, em: Emit, dest: int, n: Node, st: Store, c: Config)
    returns (k: nat, d: Config)
    requires n.Ternary? && Scoped(ctx, n) && Ready(vm, ctx, em, dest, Compile(n, em, dest), st, c)
    ensures vm.Run(c, k) == d
    ensures Ends(Eval(vm.ops, fuel, n, st), ctx, em, dest, |Compile(n, em, dest).code|, fuel, c, k, d)
    decreases fuel, n, 2
  {
    hide Compile, CompileIdent, CompileStore, CompileLit, Eval, Scoped,
      Matches, Separate, Agrees, Holds, Vm.Run, Mid, Extends, Find, Lookup, At, Ends;
    LayoutTernary(vm, ctx, em, dest, n, c);
    MeaningTernary(vm.ops, fuel, n, st);
    Begin(vm, ctx, em, dest, Compile(n, em, dest), st, c);
    var r := em.next;
    var o1 := Compile(n.cond, em.Alloc(), r);
    var o2 := Compile(n.thn, o1.em.Free(r), dest);
    var o3 := Compile(n.els, o2.em, dest);
    var len := |Compile(n, em, dest).code|;
    var branch := JumpIf(IfFalse, r, |o2.code| + 1);
    var r1 := Eval(vm.ops, fuel, n.cond, st);
    k, d := Child(vm, fuel, ctx, em, dest, st, c, 0, c, 0, n.cond, em.Alloc(), r, len);
    if r1.Normal? {
      var target := if vm.ops.truthy(r1.v) then |o1.code| + 1 else |o1.code| + 2 + |o2.code|;
      AtMid(vm, ctx, em, dest, r1.st, c, k, d, |o1.code|);
      Jumps(vm, ctx, em, dest, r1.st, c, k, d, |o1.code|, branch, target);
      k, d := k + 1, d.(pc := c.pc + target);
      if vm.ops.truthy(r1.v) {
        var r2 := Eval(vm.ops, fuel, n.thn, r1.st);
        k, d := Child(vm, fuel, ctx, em, dest, r1.st, c, k, d, target, n.thn, o1.em.Free(r), dest, len);
        if r2.Normal? {
          AtMid(vm, ctx, em, dest, r2.st, c, k, d, target + |o2.code|);
          Jumps(vm, ctx, em, dest, r2.st, c, k, d, target + |o2.code|, Jump(|o3.code|), len);
          k, d := k + 1, d.(pc := c.pc + len);
          Finish(vm, ctx, em, dest, r2.st, c, k, d, len, fuel);
        }
      } else {
        var r3 := Eval(vm.ops, fuel, n.els, r1.st);
        k, d := Child(vm, fuel, ctx, em, dest, r1.st, c, k, d, target, n.els, o2.em, dest, len);
        if r3.Normal? {
          Finish(vm, ctx, em, dest, r3.st, c, k, d, len, fuel);
        }
      }
    }
  }

  lemma LayoutIf(vm: Vm, ctx: Ctx, em: Emit, dest: int, n: Node, c: Config)
    requires n.If? && Scoped(ctx, n) && Agrees(ctx, em.scope) && em.next >= 0
    requires c.Running? && At(vm.code, c.pc, Compile(n, em, dest).code)
    requires Extends(Compile(n, em, dest).em.pool, vm.pool)
    ensures var r := em.next;
            var o1 := Compile(n.cond, em.Alloc(), r);
            var o2 := Compile(n.thn, o1.em.Free(r).Alloc(), r);
            var o3 := CompileElse(n.alt, o2.em.Free(r), r);
            && At(vm.code, c.pc, o1.code) && Extends(o1.em.pool, vm.pool)
            && At(vm.code, c.pc + |o1.code|, [JumpIf(IfFalse, r, |o2.code| + 1)])
            && At(vm.code, c.pc + |o1.code| + 1, o2.code) && Extends(o2.em.pool, vm.pool)
            && At(vm.code, c.pc + |o1.code| + 1 + |o2.code|, [Jump(|o3.code|)])
            && At(vm.code, c.pc + |o1.code| + 2 + |o2.code|, o3.code) && Extends(o3.em.pool, vm.pool)
            && At(vm.code, c.pc + |o1.code| + 2 + |o2.code| + |o3.code|, [LoadUndefined(dest)])
            && |Compile(n, em, dest).code| == |o1.code| + |o2.code| + |o3.code| + 3
            && o1.em.scope == o2.em.scope == em.scope
            && Scoped(ctx, n.cond) && Scoped(ctx, n.thn) && (n.alt.Some? ==> Scoped(ctx, n.alt.value))
  {
    hide Find, At, Extends, Compile, CompileElse, CompileIf, Scoped, Agrees;
    ScopedIf(ctx, n);
    KeepsChain(ctx, n, n.cond, n.thn, em);
    var r := em.next;
    var o1 := Compile(n.cond, em.Alloc(), r);
    var o2 := Compile(n.thn, o1.em.Free(r).Alloc(), r);
    var o3 := CompileElse(n.alt, o2.em.Free(r), r);
    ShapeIf(n, em, dest);
    Within(o2.em.pool, o3.em.pool, vm.pool);
    Within(o1.em.pool, o2.em.pool, vm.pool);
    SplitBranches(vm.code, c.pc, o1.code, JumpIf(IfFalse, r, |o2.code| + 1), o2.code, Jump(|o3.code|), o3.code,
                  [LoadUndefined(dest)]);
  }

  /** The parts of a conditional: two pieces of code after a test, with a jump between. */
  lemma SplitBranches(code: seq<Instr>, pc: int, f: seq<Instr>, i: Instr, g: seq<Instr>, j: Instr, h: seq<Instr>,
                      l: seq<Instr>)
    requires At(code, pc, f + [i] + g + [j] + h + l)
    ensures At(code, pc, f) && At(code, pc + |f|, [i]) && At(code, pc + |f| + 1, g)
    ensures At(code, pc + |f| + 1 + |g|, [j]) && At(code, pc + |f| + 2 + |g|, h)
    ensures At(code, pc + |f| + 2 + |g| + |h|, l) && |f + [i] + g + [j] + h + l| == |f| + |g| + |h| + |l| + 2
  {
    Split(code, pc, f + [i] + g + [j] + h, l);
    Split5(code, pc, f, [i], g, [j], h);
    hide At;
  }

  lemma ScopedIf(ctx: Ctx, n: Node)
    requires n.If? && Scoped(ctx, n)
    ensures Scoped(ctx, n.cond) && Scoped(ctx, n.thn) && (n.alt.Some? ==> Scoped(ctx, n.alt.value))
  {
  }

  lemma ShapeIf(n: Node, em: Emit, dest: int)
    requires n.If?
    ensures var r := em.next;
            var o1 := Compile(n.cond, em.Alloc(), r);
            var o2 := Compile(n.thn, o1.em.Free(r).Alloc(), r);
            var o3 := CompileElse(n.alt, o2.em.Free(r), r);
            Compile(n, em, dest) ==
              Out(o1.code + [JumpIf(IfFalse, r, |o2.code| + 1)] + o2.code + [Jump(|o3.code|)] + o3.code
                  + [LoadUndefined(dest)], o3.em.Free(r))
  {
    Dispatch(n, em, dest);
    hide Compile, CompileElse;
  }

  lemma MeaningIf(ops: Ops, fuel: nat, n: Node, st: Store)
    requires n.If?
    ensures var r := Eval(ops, fuel, n.cond, st);
            Eval(ops, fuel, n, st) ==
              if !r.Normal? then r
              else if ops.truthy(r.v) then Discard(Eval(ops, fuel, n.thn, r.st))
              else if n.alt.Some? then Discard(Eval(ops, fuel, n.alt.value, r.st))
              else Normal(Undefined, r.st)
  {
  }

  lemma {:induction false} SimIf(vm: Vm, fuel: nat, ctx: Ctx, em: Emit, dest: int, n: Node, st: Store, c: Config)
    returns (k: nat, d: Config)
    requires n.If? && Scoped(ctx, n) && Ready(vm, ctx, em, dest, Compile(n, em, dest), st, c)
    ensures vm.Run(c, k) == d
    ensures Ends(Eval(vm.ops, fuel, n, st), ctx, em, dest, |Compile(n, em, dest).code|, fuel, c, k, d)
    decreases fuel, n, 2
  {
    hide Compile, CompileIdent, CompileStore, CompileLit, Eval, Scoped,
      Matches, Separate, Agrees, Holds, Vm.Run, Mid, Extends, Find, Lookup, At, Ends;
    LayoutIf(vm, ctx, em, dest, n, c);
    MeaningIf(vm.ops, fuel, n, st);
    Begin(vm, ctx, em, dest, Compile(n, em, dest), st, c);
    var r := em.next;
    var o1 := Compile(n.cond, em.Alloc(), r);
    var em2 := o1.em.Free(r).Alloc();
    var o2 := Compile(n.thn, em2, r);
    var em3 := o2.em.Free(r);
    var o3 := CompileElse(n.alt, em3, r);
    var len := |Compile(n, em, dest).code|;
    var r1 := Eval(vm.ops, fuel, n.cond, st);
    k, d := Child(vm, fuel, ctx, em, dest, st, c, 0, c, 0, n.cond, em.Alloc(), r, len);
    if r1.Normal? {
      var target := if vm.ops.truthy(r1.v) then |o1.code| + 1 else |o1.code| + 2 + |o2.code|;
      AtMid(vm, ctx, em, dest, r1.st, c, k, d, |o1.code|);
      Jumps(vm, ctx, em, dest, r1.st, c, k, d, |o1.code|, JumpIf(IfFalse, r, |o2.code| + 1), target);
      k, d := k + 1, d.(pc := c.pc + target);
      if vm.ops.truthy(r1.v) {
        var r2 := Eval(vm.ops, fuel, n.thn, r1.st);
        k, d := Child(vm, fuel, ctx, em, dest, r1.st, c, k, d, target, n.thn, em2, r, len);
        if r2.Normal? {
          AtMid(vm, ctx, em, dest, r2.st, c, k, d, target + |o2.code|);
          Jumps(vm, ctx, em, dest, r2.st, c, k, d, target + |o2.code|, Jump(|o3.code|), len - 1);
          k, d := Clears(vm, fuel, ctx, em, dest, r2.st, c, k + 1, d.(pc := c.pc + (len - 1)), len);
        }
      } else if n.alt.Some? {
        var r3 := Eval(vm.ops, fuel, n.alt.value, r1.st);
        k, d := Child(vm, fuel, ctx, em, dest, r1.st, c, k, d, target, n.alt.value, em3.Alloc(), r, len);
        if r3.Normal? {
          k, d := Clears(vm, fuel, ctx, em, dest, r3.st, c, k, d, len);
        }
      } else {
        k, d := Clears(vm, fuel, ctx, em, dest, r1.st, c, k, d, len);
      }
    }
  }

  lemma LayoutWhile(vm: Vm, ctx: Ctx, em: Emit, dest: int, n: Node, c: Config)
    requires n.While? && Scoped(ctx, n) && Agrees(ctx, em.scope) && em.next >= 0
    requires c.Running? && At(vm.code, c.pc, Compile(n, em, dest).code)
    requires Extends(Compile(n, em, dest).em.pool, vm.pool)
    ensures var r := em.next;
            var o1 := Compile(n.cond, em.Alloc(), r);
            var o2 := Compile(n.body, o1.em.Free(r).Alloc(), r);
            && At(vm.code, c.pc, o1.code) && Extends(o1.em.pool, vm.pool)
            && At(vm.code, c.pc + |o1.code|, [JumpIf(IfFalse, r, |o2.code| + 1)])
            && At(vm.code, c.pc + |o1.code| + 1, o2.code) && Extends(o2.em.pool, vm.pool)
            && At(vm.code, c.pc + |o1.code| + 1 + |o2.code|, [Jump(-(|o1.code| + |o2.code| + 2))])
            && At(vm.code, c.pc + |o1.code| + 2 + |o2.code|, [LoadUndefined(dest)])
            && |Compile(n, em, dest).code| == |o1.code| + |o2.code| + 3
            && o1.em.scope == em.scope
            && Scoped(ctx, n.cond) && Scoped(ctx, n.body)
  {
    hide Find, At, Extends, Compile;
    Dispatch(n, em, dest);
    var r := em.next;
    var o1 := Compile(n.cond, em.Alloc(), r);
    KeepsChain(ctx, n, n.cond, n.body, em);
    var o2 := Compile(n.body, o1.em.Free(r).Alloc(), r);
    Within(o1.em.pool, o2.em.pool, vm.pool);
    var back := [Jump(-(|o1.code| + |o2.code| + 2))];
    Split5(vm.code, c.pc, o1.code, [JumpIf(IfFalse, r, |o2.code| + 1)], o2.code, back, [LoadUndefined(dest)]);
  }

  lemma MeaningWhile(ops: Ops, fuel: nat, n: Node, st: Store)
    requires n.While?
    ensures Eval(ops, fuel, n, st) ==
              if fuel == 0 then Timeout
              else
                var r := Eval(ops, fuel, n.cond, st);
                if !r.Normal? then r
                else if !ops.truthy(r.v) then Normal(Undefined, r.st)
                else
                  var b := Eval(ops, fuel, n.body, r.st);
                  if b.Normal? then Eval(ops, fuel - 1, n, b.st) else b
  {
  }

  lemma {:induction false} SimWhile(vm: Vm, fuel: nat, ctx: Ctx, em: Emit, dest: int, n: Node, st: Store, c: Config)
    returns (k: nat, d: Config)
    requires n.While? && Scoped(ctx, n) && Ready(vm, ctx, em, dest, Compile(n, em, dest), st, c)
    ensures vm.Run(c, k) == d
    ensures Ends(Eval(vm.ops, fuel, n, st), ctx, em, dest, |Compile(n, em, dest).code|, fuel, c, k, d)
    decreases fuel, n, 2
  {
    hide Compile, CompileIdent, CompileStore, CompileLit, Eval, Scoped,
      Matches, Separate, Agrees, Holds, Vm.Run, Mid, Extends, Find, Lookup, At;
    LayoutWhile(vm, ctx, em, dest, n, c);
    MeaningWhile(vm.ops, fuel, n, st);
    Begin(vm, ctx, em, dest, Compile(n, em, dest), st, c);
    var r := em.next;
    var o1 := Compile(n.cond, em.Alloc(), r);
    var em2 := o1.em.Free(r).Alloc();
    var o2 := Compile(n.body, em2, r);
    var len := |Compile(n, em, dest).code|;
    if fuel == 0 {
      k, d := 0, c;
      Finish(vm, ctx, em, dest, st, c, 0, c, 0, 0);
      return;
    }
    var r1 := Eval(vm.ops, fuel, n.cond, st);
    k, d := Child(vm, fuel, ctx, em, dest, st, c, 0, c, 0, n.cond, em.Alloc(), r, len);
    if r1.Normal? {
      var target := if vm.ops.truthy(r1.v) then |o1.code| + 1 else len - 1;
      AtMid(vm, ctx, em, dest, r1.st, c, k, d, |o1.code|);
      Jumps(vm, ctx, em, dest, r1.st, c, k, d, |o1.code|, JumpIf(IfFalse, r, |o2.code| + 1), target);
      k, d := k + 1, d.(pc := c.pc + target);
      if vm.ops.truthy(r1.v) {
        var r2 := Eval(vm.ops, fuel, n.body, r1.st);
        k, d := Child(vm, fuel, ctx, em, dest, r1.st, c, k, d, target, n.body, em2, r, len);
        if r2.Normal? {
          AtMid(vm, ctx, em, dest, r2.st, c, k, d, target + |o2.code|);
          Jumps(vm, ctx, em, dest, r2.st, c, k, d, target + |o2.code|, Jump(-(|o1.code| + |o2.code| + 2)), 0);
          k, d := Repeats(vm, fuel, ctx, em, dest, n, r2.st, c, k + 1, d.(pc := c.pc));
        }
      } else {
        k, d := Clears(vm, fuel, ctx, em, dest, r1.st, c, k, d, len);
      }
    }
  }

  lemma LayoutDoWhile(vm: Vm, ctx: Ctx, em: Emit, dest: int, n: Node, c: Config)
    requires n.DoWhile? && Scoped(ctx, n) && Agrees(ctx, em.scope) && em.next >= 0
    requires c.Running? && At(vm.code, c.pc, Compile(n, em, dest).code)
    requires Extends(Compile(n, em, dest).em.pool, vm.pool)
    ensures var r := em.next;
            var o1 := Compile(n.body, em.Alloc(), r);
            var o2 := Compile(n.cond, o1.em.Free(r).Alloc(), r);
            && At(vm.code, c.pc, o1.code) && Extends(o1.em.pool, vm.pool)
            && At(vm.code, c.pc + |o1.code|, o2.code) && Extends(o2.em.pool, vm.pool)
            && At(vm.code, c.pc + |o1.code| + |o2.code|, [JumpIf(IfTrue, r, -(|o1.code| + |o2.code| + 1))])
            && At(vm.code, c.pc + |o1.code| + |o2.code| + 1, [LoadUndefined(dest)])
            && |Compile(n, em, dest).code| == |o1.code| + |o2.code| + 2
            && o1.em.scope == em.scope
            && Scoped(ctx, n.cond) && Scoped(ctx, n.body)
  {
    hide Find, At, Extends, Compile;
    Dispatch(n, em, dest);
    var r := em.next;
    var o1 := Compile(n.body, em.Alloc(), r);
    KeepsChain(ctx, n, n.body, n.cond, em);
    var o2 := Compile(n.cond, o1.em.Free(r).Alloc(), r);
    Within(o1.em.pool, o2.em.pool, vm.pool);
    var back := [JumpIf(IfTrue, r, -(|o1.code| + |o2.code| + 1))];
    Split4(vm.code, c.pc, o1.code, o2.code, back, [LoadUndefined(dest)]);
  }

  lemma MeaningDoWhile(ops: Ops, fuel: nat, n: Node, st: Store)
    requires n.DoWhile?
    ensures Eval(ops, fuel, n, st) ==
              if fuel == 0 then Timeout
              else
                var b := Eval(ops, fuel, n.body, st);
                if !b.Normal? then b
                else
                  var r := Eval(ops, fuel, n.cond, b.st);
                  if !r.Normal? then r
                  else if ops.truthy(r.v) then Eval(ops, fuel - 1, n, r.st)
                  else Normal(Undefined, r.st)
  {
  }

  lemma {:induction false} SimDoWhile(vm: Vm, fuel: nat, ctx: Ctx, em: Emit, dest: int, n: Node, st: Store, c: Config)
    returns (k: nat, d: Config)
    requires n.DoWhile? && Scoped(ctx, n) && Ready(vm, ctx, em, dest, Compile(n, em, dest), st, c)
    ensures vm.Run(c, k) == d
    ensures Ends(Eval(vm.ops, fuel, n, st), ctx, em, dest, |Compile(n, em, dest).code|, fuel, c, k, d)
    decreases fuel, n, 2
  {
    hide Compile, CompileIdent, CompileStore, CompileLit, Eval, Scoped,
      Matches, Separate, Agrees, Holds, Vm.Run, Mid, Extends, Find, Lookup, At;
    LayoutDoWhile(vm, ctx, em, dest, n, c);
    MeaningDoWhile(vm.ops, fuel, n, st);
    Begin(vm, ctx, em, dest, Compile(n, em, dest), st, c);
    var r := em.next;
    var o1 := Compile(n.body, em.Alloc(), r);
    var em2 := o1.em.Free(r).Alloc();
    var o2 := Compile(n.cond, em2, r);
    var len := |Compile(n, em, dest).code|;
    if fuel == 0 {
      k, d := 0, c;
      Finish(vm, ctx, em, dest, st, c, 0, c, 0, 0);
      return;
    }
    var r1 := Eval(vm.ops, fuel, n.body, st);
    k, d := Child(vm, fuel, ctx, em, dest, st, c, 0, c, 0, n.body, em.Alloc(), r, len);
    if r1.Normal? {
      var r2 := Eval(vm.ops, fuel, n.cond, r1.st);
      k, d := Child(vm, fuel, ctx, em, dest, r1.st, c, k, d, |o1.code|, n.cond, em2, r, len);
      if r2.Normal? {
        var target := if vm.ops.truthy(r2.v) then 0 else len - 1;
        AtMid(vm, ctx, em, dest, r2.st, c, k, d, len - 2);
        Jumps(vm, ctx, em, dest, r2.st, c, k, d, len - 2, JumpIf(IfTrue, r, -(|o1.code| + |o2.code| + 1)), target);
        k, d := k + 1, d.(pc := c.pc + target);
        if vm.ops.truthy(r2.v) {
          k, d := Repeats(vm, fuel, ctx, em, dest, n, r2.st, c, k, d);
        } else {
          k, d := Clears(vm, fuel, ctx, em, dest, r2.st, c, k, d, len);
        }
      }
    }
  }

  lemma MeaningSequence(ops: Ops, fuel: nat, es: seq<Node>, st: Store)
    requires |es| > 0
    ensures var r := Eval(ops, fuel, es[0], st);
            EvalSequence(ops, fuel, es, st) ==
              if r.Normal? && |es| > 1 then EvalSequence(ops, fuel, es[1..], r.st) else r
  {
  }

  lemma LayoutSequence(vm: Vm, ctx: Ctx, em: Emit, dest: int, es: seq<Node>, c: Config)
    requires |es| > 1 && Agrees(ctx, em.scope) && em.next >= 0 && Scoped(ctx, es[0])
    requires c.Running? && At(vm.code, c.pc, CompileSequence(es, em, dest).code)
    requires Extends(CompileSequence(es, em, dest).em.pool, vm.pool)
    ensures var o := Compile(es[0], em.Alloc(), em.next);
            var rest := CompileSequence(es[1..], o.em.Free(em.next), dest);
            && At(vm.code, c.pc, o.code) && Extends(o.em.pool, vm.pool)
            && At(vm.code, c.pc + |o.code|, rest.code) && Extends(rest.em.pool, vm.pool)
            && |CompileSequence(es, em, dest).code| == |o.code| + |rest.code|
            && o.em.scope == em.scope
  {
    hide Compile, At, Extends, Find;
    var o := Compile(es[0], em.Alloc(), em.next);
    Keeps(ctx, es[0], em.Alloc(), em.next);
    var rest := CompileSequence(es[1..], o.em.Free(em.next), dest);
    Within(o.em.pool, rest.em.pool, vm.pool);
    Split(vm.code, c.pc, o.code, rest.code);
  }

  lemma SingleSequence(es: seq<Node>, em: Emit, dest: int)
    requires |es| > 0
    ensures |es| == 1 ==> CompileSequence(es, em, dest) == Compile(es[0], em, dest)
  {
    hide Compile;
  }

  lemma {:induction false} SimSequence(vm: Vm, fuel: nat, ctx: Ctx, em: Emit, dest: int, es: seq<Node>, st: Store,
                                       c: Config)
    returns (k: nat, d: Config)
    requires |es| > 0 && (forall e :: e in es ==> Scoped(ctx, e))
    requires Ready(vm, ctx, em, dest, CompileSequence(es, em, dest), st, c)
    ensures vm.Run(c, k) == d
    ensures Ends(EvalSequence(vm.ops, fuel, es, st), ctx, em, dest, |CompileSequence(es, em, dest).code|, fuel, c, k, d)
    decreases fuel, es, 0
  {
    hide Compile, CompileStmts, CompileSequence, Eval, EvalStmts, EvalSequence, Scoped, ScopedStmts,
      Matches, Separate, Agrees, Holds, Vm.Run, Extends, At, Find, Lookup, Boundary, Preserved, Get;
    SingleSequence(es, em, dest);
    MeaningSequence(vm.ops, fuel, es, st);
    if |es| == 1 {
      k, d := Simulate(vm, fuel, ctx, em, dest, es[0], st, c);
      return;
    }
    LayoutSequence(vm, ctx, em, dest, es, c);
    Begin(vm, ctx, em, dest, CompileSequence(es, em, dest), st, c);
    var o := Compile(es[0], em.Alloc(), em.next);
    var em1 := o.em.Free(em.next);
    var len, len1 := |CompileSequence(es, em, dest).code|, |CompileSequence(es[1..], em1, dest).code|;
    var r := Eval(vm.ops, fuel, es[0], st);
    k, d := Child(vm, fuel, ctx, em, dest, st, c, 0, c, 0, es[0], em.Alloc(), em.next, len);
    if r.Normal? {
      var k1, d1 := SimSequence(vm, fuel, ctx, em1, dest, es[1..], r.st, d);
      var r2 := EvalSequence(vm.ops, fuel, es[1..], r.st);
      Joins(r2, vm, ctx, em, dest, r.st, c, k, d, |o.code|, em1, dest, len1, fuel, k1, d1, len);
      k, d := k + k1, d1;
      if r2.Normal? {
        Finish(vm, ctx, em, dest, r2.st, c, k, d, len, fuel);
      }
    }
  }

  // ----- Blocks -----

  /** Compiling statements of the innermost scope, whose variables and temporaries
      all live at register `b` or above. */
  predicate InBlock(ctx: Ctx, em: Emit, b: int) {
    && ctx.Ctx? && em.scope.Frame?
    && Agrees(ctx, em.scope) && Separate(em.scope, em.next)
    && 0 <= b <= em.next
    && forall x :: x in em.scope.regs ==> em.scope.regs[x] == UNALLOCATED || em.scope.regs[x] >= b
  }

  /** Below `b` only variables of `sc` may have changed, and they agree with `st`. */
  predicate Outside(ctx: Ctx, sc: Scope, b: int, st: Store, before: Regs, after: Regs, globals: Globals) {
    && globals == st.globals
    && Matches(ctx, sc, st.env, after)
    && Preserved(sc, b, b, before, after)
  }

  /** How a statement list must end: its own scope is gone. */
  predicate EndsBlock(r: Result, ctx: Ctx, sc: Scope, b: int, len: int, fuel: nat, c: Config, k: nat, d: Config)
    requires c.Running?
  {
    match r
    case Normal(_, st) =>
      && d.Running? && d.pc == c.pc + len && d.handlers == c.handlers
      && Outside(ctx, sc, b, st, c.regs, d.regs, d.globals)
    case Throws(e, st) =>
      && d.Raising? && d.e == e && d.handlers == c.handlers
      && Outside(ctx, sc, b, st, c.regs, d.regs, d.globals)
    case Timeout => k >= fuel && !Halted(d)
  }

  /** How one statement of a block must end. */
  predicate EndsStmt(r: Result, ctx: Ctx, em: Emit, ctx1: Ctx, em1: Emit, b: int, len: int, fuel: nat,
                     c: Config, k: nat, d: Config)
    requires c.Running? && ctx.Ctx? && em.scope.Frame?
  {
    match r
    case Normal(_, st) =>
      && d.Running? && d.pc == c.pc + len && d.handlers == c.handlers
      && InBlock(ctx1, em1, b) && em1.scope.outer == em.scope.outer && ctx1.outer == ctx.outer
      && d.globals == st.globals && Matches(ctx1, em1.scope, st.env, d.regs)
      && Preserved(em.scope.outer, b, b, c.regs, d.regs)
    case Throws(e, st) =>
      && d.Raising? && d.e == e && d.handlers == c.handlers
      && Outside(ctx.outer, em.scope.outer, b, Leave(st), c.regs, d.regs, d.globals)
    case Timeout => k >= fuel && !Halted(d)
  }

  /** What `Ends` says of the whole scope chain, said of the enclosing scopes. */
  lemma LeaveScope(ctx: Ctx, em: Emit, dest: int, st: Store, b: int, before: Regs, after: Regs, globals: Globals)
    requires InBlock(ctx, em, b) && dest >= b && Settled(ctx, em, dest, st, before, after, globals)
    ensures Outside(ctx.outer, em.scope.outer, b, Leave(st), before, after, globals)
  {
    forall r | 0 <= r < b && !Holds(em.scope.outer, r)
      ensures Get(after, r) == Get(before, r)
    {
      assert !Holds(em.scope, r);
    }
  }

  /** Between two statements: only the temporaries are given up. */
  lemma NextStmt(ctx: Ctx, em: Emit, b: int, r: int)
    requires InBlock(ctx, em, b) && b <= r && Separate(em.scope.outer, r)
    ensures InBlock(ctx, AfterStmt(em, r), b)
  {
    BoundaryAbove(em.scope.names, em.scope.regs, r + 1);
    var next := Boundary(em.scope.names, em.scope.regs, r + 1);
    forall x | x in em.scope.regs
      ensures em.scope.regs[x] == UNALLOCATED || em.scope.regs[x] < next
    {
      assert x in Elements(em.scope.names);
    }
    SeparateAbove(em.scope.outer, r, next);
  }

  lemma {:induction false} SimPlain(vm: Vm, fuel: nat, ctx: Ctx, em: Emit, b: int, n: Node, st: Store, c: Config)
    returns (k: nat, d: Config)
    requires InBlock(ctx, em, b) && Scoped(ctx, n) && c.Running?
    requires At(vm.code, c.pc, Compile(n, em.Alloc(), em.next).code)
    requires Extends(Compile(n, em.Alloc(), em.next).em.pool, vm.pool)
    requires c.globals == st.globals && Matches(ctx, em.scope, st.env, c.regs)
    ensures vm.Run(c, k) == d
    ensures var o := Compile(n, em.Alloc(), em.next);
            EndsStmt(Eval(vm.ops, fuel, n, st), ctx, em, ctx, AfterStmt(o.em, em.next), b, |o.code|, fuel, c, k, d)
    decreases fuel, n, 4
  {
    hide Compile, Eval, Scoped, Matches, Holds, Vm.Run, Extends, At, Agrees;
    var r, em0 := em.next, em.Alloc();
    FreshRegister(em.scope, r, r);
    SeparateAbove(em.scope, r, r + 1);
    Keeps(ctx, n, em0, r);
    var o := Compile(n, em0, r);
    k, d := Simulate(vm, fuel, ctx, em0, r, n, st, c);
    NextStmt(ctx, o.em, b, r);
    var res := Eval(vm.ops, fuel, n, st);
    if !res.Timeout? {
      LeaveScope(ctx, em0, r, res.st, b, c.regs, d.regs, d.globals);
    }
  }

  /** Giving an unallocated symbol its register disturbs no live variable. */
  lemma PlaceMatches(ctx: Ctx, em: Emit, dest: int, x: string, env: Env, regs: Regs)
    requires Tidy(ctx, em, dest) && ctx.Ctx? && x in ctx.declared && Matches(ctx, em.scope, env, regs)
    ensures Matches(ctx, em.Place(x).scope, env, regs)
  {
    PlaceTidy(ctx, em, dest, x);
  }

  /** The store of a declaration makes its variable live. */
  lemma Declares(vm: Vm, ctx: Ctx, em: Emit, dest: int, st: Store, c: Config, k: nat, d: Config, off: int,
                 x: string, t: int, em1: Emit)
    returns (d': Config)
    requires Mid(vm, ctx, em, dest, st, c, k, d, off) && ctx.Ctx? && x in ctx.declared
    requires em1.scope == em.scope && em.scope.regs[x] >= 0 && t >= em.next
    requires At(vm.code, c.pc + off, CompileStore(x, t, em1).code)
    ensures |CompileStore(x, t, em1).code| == 1
    ensures var ctx' := ctx.(live := ctx.live + {x});
            Mid(vm, ctx', em, dest, Declare(st, x, Get(d.regs, t)), c, k + 1, d', off + 1)
  {
    var rx, v := em.scope.regs[x], Get(d.regs, t);
    Step1(vm, d, Move(rx, t));
    d' := vm.Load(d, rx, v);
    Then(vm, c, k, d, 1, d');
    MatchesTemp(ctx.outer, em.scope.outer, st.env.outer, d.regs, rx, v);
  }

  lemma LayoutDecl(vm: Vm, ctx: Ctx, em: Emit, dest: int, n: Node, c: Config)
    requires n.Decl? && Agrees(ctx, em.scope) && em.next >= 0 && ctx.Ctx? && n.name in ctx.declared
    requires n.init.Some? ==> Scoped(ctx, n.init.value)
    requires c.Running? && At(vm.code, c.pc, Compile(n, em, dest).code)
    requires Extends(Compile(n, em, dest).em.pool, vm.pool)
    ensures var em1 := em.Place(n.name);
            var t := em1.next;
            var e := em1.Alloc();
            var o := if n.init.Some? then Compile(n.init.value, e, t) else Out([LoadUndefined(t)], e);
            var s := CompileStore(n.name, t, o.em);
            && At(vm.code, c.pc, o.code) && Extends(o.em.pool, vm.pool)
            && At(vm.code, c.pc + |o.code|, s.code)
            && At(vm.code, c.pc + |o.code| + 1, [LoadUndefined(dest)])
            && |Compile(n, em, dest).code| == |o.code| + 2
            && o.em.scope == em1.scope
            && Compile(n, em, dest).em.scope == em1.scope && Compile(n, em, dest).em.next == em1.next
  {
    hide Find, At, Extends, Compile, Agrees;
    Dispatch(n, em, dest);
    KeepsDecl(ctx, n, em, dest);
    PlaceAgrees(ctx, em, n.name);
    var em1 := em.Place(n.name);
    var t := em1.next;
    if n.init.Some? {
      Keeps(ctx, n.init.value, em1.Alloc(), t);
    }
    var o := if n.init.Some? then Compile(n.init.value, em1.Alloc(), t) else Out([LoadUndefined(t)], em1.Alloc());
    var s := CompileStore(n.name, t, o.em);
    Within(o.em.pool, s.em.pool, vm.pool);
    Split3(vm.code, c.pc, o.code, s.code, [LoadUndefined(dest)]);
  }

  lemma {:induction false} SimDecl(vm: Vm, fuel: nat, ctx: Ctx, em: Emit, b: int, n: Node, st: Store, c: Config)
    returns (k: nat, d: Config)
    requires InBlock(ctx, em, b) && n.Decl? && n.name in ctx.declared && c.Running?
    requires n.init.Some? ==> Scoped(ctx, n.init.value)
    requires At(vm.code, c.pc, Compile(n, em.Alloc(), em.next).code)
    requires Extends(Compile(n, em.Alloc(), em.next).em.pool, vm.pool)
    requires c.globals == st.globals && Matches(ctx, em.scope, st.env, c.regs)
    ensures vm.Run(c, k) == d
    ensures var o := Compile(n, em.Alloc(), em.next);
            EndsStmt(Eval(vm.ops, fuel, n, st), ctx, em, AfterCtx(ctx, n), AfterStmt(o.em, em.next), b, |o.code|,
                     fuel, c, k, d)
    decreases fuel, n, 4
  {
    hide Compile, CompileStore, Eval, Scoped, Matches, Holds, Vm.Run, Extends, At, Agrees, Separate, Mid, Find,
         Boundary;
    var r, em0, x := em.next, em.Alloc(), n.name;
    var ctx' := AfterCtx(ctx, n);
    InBlockTidy(ctx, em, b);
    LayoutDecl(vm, ctx, em0, r, n, c);
    MeaningDecl(vm.ops, fuel, n, st);
    PlaceMatches(ctx, em0, r, x, st.env, c.regs);
    var em1 := em0.Place(x);
    InBlockPlace(ctx, em, b, x);
    var t := em1.next;
    var o := if n.init.Some? then Compile(n.init.value, em1.Alloc(), t) else Out([LoadUndefined(t)], em1.Alloc());
    var len := |o.code| + 2;
    Begin(vm, ctx, em1, r, o, st, c);
    var res := if n.init.Some? then Eval(vm.ops, fuel, n.init.value, st) else Normal(Undefined, st);
    if n.init.Some? {
      k, d := Child(vm, fuel, ctx, em1, r, st, c, 0, c, 0, n.init.value, em1.Alloc(), t, len);
      if !res.Normal? {
        if res.Throws? {
          LeaveScope(ctx, em1, r, res.st, b, c.regs, d.regs, d.globals);
        }
        return;
      }
    } else {
      Loads(vm, ctx, em1, r, st, c, 0, c, 0, LoadUndefined(t), t, Undefined);
      k, d := 1, vm.Load(c, t, Undefined);
    }
    d := Declares(vm, ctx, em1, r, res.st, c, k, d, |o.code|, x, t, o.em);
    var st' := Declare(res.st, x, res.v);
    AtMid(vm, ctx', em1, r, st', c, k + 1, d, |o.code| + 1);
    Loads(vm, ctx', em1, r, st', c, k + 1, d, |o.code| + 1, LoadUndefined(r), r, Undefined);
    k, d := k + 2, vm.Load(d, r, Undefined);
    Finish(vm, ctx', em1, r, st', c, k, d, len, fuel);
    LeaveScope(ctx', em1, r, st', b, c.regs, d.regs, d.globals);
    NextStmt(ctx', Compile(n, em0, r).em, b, r);
  }

  lemma MeaningDecl(ops: Ops, fuel: nat, n: Node, st: Store)
    requires n.Decl?
    ensures var r := if n.init.Some? then Eval(ops, fuel, n.init.value, st) else Normal(Undefined, st);
            Eval(ops, fuel, n, st) == if r.Normal? then Normal(Undefined, Declare(r.st, n.name, r.v)) else r
  {
  }

  lemma InBlockTidy(ctx: Ctx, em: Emit, b: int)
    requires InBlock(ctx, em, b)
    ensures Tidy(ctx, em.Alloc(), em.next) && Separate(em.scope.outer, em.next)
  {
    FreshRegister(em.scope, em.next, em.next);
    SeparateAbove(em.scope, em.next, em.next + 1);
  }

  /** The block after one of its declared symbols has been placed. */
  lemma InBlockPlace(ctx: Ctx, em: Emit, b: int, x: string)
    requires InBlock(ctx, em, b) && x in ctx.declared
    ensures var em1 := em.Alloc().Place(x);
            && InBlock(ctx, em1, b) && InBlock(ctx.(live := ctx.live + {x}), em1, b)
            && Tidy(ctx, em1, em.next) && em1.scope.regs[x] >= 0 && em1.scope.outer == em.scope.outer
  {
    InBlockTidy(ctx, em, b);
    PlaceTidy(ctx, em.Alloc(), em.next, x);
    PlaceAgrees(ctx, em.Alloc(), x);
  }

  lemma MeaningBlock(ops: Ops, fuel: nat, ss: seq<Node>, st: Store)
    ensures |ss| == 0 ==> EvalBlock(ops, fuel, ss, st) == Normal(Undefined, Leave(st))
    ensures |ss| > 0 ==>
              var r := Eval(ops, fuel, ss[0], st);
              EvalBlock(ops, fuel, ss, st) ==
                if r.Normal? then EvalBlock(ops, fuel, ss[1..], r.st)
                else if r.Throws? then Throws(r.e, Leave(r.st))
                else Timeout
  {
  }

  lemma ShapeStmts(ss: seq<Node>, em: Emit)
    requires |ss| > 0
    ensures var o := Compile(ss[0], em.Alloc(), em.next);
            var rest := CompileStmts(ss[1..], AfterStmt(o.em, em.next));
            CompileStmts(ss, em) == Out(o.code + rest.code, rest.em)
  {
    hide Compile, AfterStmt;
  }

  lemma LayoutStmts(vm: Vm, em: Emit, ss: seq<Node>, pc: int)
    requires |ss| > 0 && At(vm.code, pc, CompileStmts(ss, em).code) && Extends(CompileStmts(ss, em).em.pool, vm.pool)
    ensures var o := Compile(ss[0], em.Alloc(), em.next);
            var rest := CompileStmts(ss[1..], AfterStmt(o.em, em.next));
            && At(vm.code, pc, o.code) && Extends(o.em.pool, vm.pool)
            && At(vm.code, pc + |o.code|, rest.code) && Extends(rest.em.pool, vm.pool)
            && |CompileStmts(ss, em).code| == |o.code| + |rest.code|
  {
    hide Compile, At, Extends, CompileStmts;
    var o := Compile(ss[0], em.Alloc(), em.next);
    var rest := CompileStmts(ss[1..], AfterStmt(o.em, em.next));
    ShapeStmts(ss, em);
    Within(o.em.pool, rest.em.pool, vm.pool);
    Split(vm.code, pc, o.code, rest.code);
  }

  lemma {:induction false} SimStmts(vm: Vm, fuel: nat, ctx: Ctx, em: Emit, b: int, ss: seq<Node>, st: Store, c: Config)
    returns (k: nat, d: Config)
    requires InBlock(ctx, em, b) && ScopedStmts(ctx, ss) && c.Running?
    requires At(vm.code, c.pc, CompileStmts(ss, em).code) && Extends(CompileStmts(ss, em).em.pool, vm.pool)
    requires c.globals == st.globals && Matches(ctx, em.scope, st.env, c.regs)
    ensures vm.Run(c, k) == d
    ensures EndsBlock(EvalBlock(vm.ops, fuel, ss, st), ctx.outer, em.scope.outer, b,
                      |CompileStmts(ss, em).code|, fuel, c, k, d)
    decreases fuel, ss, 0
  {
    hide Compile, CompileStmts, Eval, EvalBlock, Scoped, ScopedStmts, Matches, Holds, Vm.Run, Extends, At, Agrees,
      Separate, Find, Preserved;
    MeaningBlock(vm.ops, fuel, ss, st);
    if |ss| == 0 {
      k, d := NoStmts(vm, fuel, ctx, em, b, st, c);
      return;
    }
    LayoutStmts(vm, em, ss, c.pc);
    ScopedHead(ctx, ss);
    var o := Compile(ss[0], em.Alloc(), em.next);
    var em1 := AfterStmt(o.em, em.next);
    var len1 := |CompileStmts(ss[1..], em1).code|;
    if ss[0].Decl? {
      k, d := SimDecl(vm, fuel, ctx, em, b, ss[0], st, c);
    } else {
      k, d := SimPlain(vm, fuel, ctx, em, b, ss[0], st, c);
    }
    var r := Eval(vm.ops, fuel, ss[0], st);
    if r.Normal? {
      var k1, d1 := SimStmts(vm, fuel, AfterCtx(ctx, ss[0]), em1, b, ss[1..], r.st, d);
      Then(vm, c, k, d, k1, d1);
      JoinsStmts(EvalBlock(vm.ops, fuel, ss[1..], r.st), ctx.outer, em.scope.outer, b, |o.code|, len1, fuel, c, k, d,
                 k1, d1);
      k, d := k + k1, d1;
    }
  }

  lemma NoStmts(vm: Vm, fuel: nat, ctx: Ctx, em: Emit, b: int, st: Store, c: Config)
    returns (k: nat, d: Config)
    requires InBlock(ctx, em, b) && c.Running?
    requires c.globals == st.globals && Matches(ctx, em.scope, st.env, c.regs)
    ensures vm.Run(c, k) == d && CompileStmts([], em).code == []
    ensures EndsBlock(Normal(Undefined, Leave(st)), ctx.outer, em.scope.outer, b, 0, fuel, c, k, d)
  {
    k, d := 0, c;
  }

  lemma ScopedHead(ctx: Ctx, ss: seq<Node>)
    requires |ss| > 0 && ScopedStmts(ctx, ss)
    ensures if ss[0].Decl? then
              && ctx.Ctx? && ss[0].name in ctx.declared
              && (ss[0].init.Some? ==> Scoped(ctx, ss[0].init.value))
            else Scoped(ctx, ss[0])
    ensures ScopedStmts(AfterCtx(ctx, ss[0]), ss[1..])
  {
  }

  /** A statement that ended normally, followed by the rest of its block. */
  lemma JoinsStmts(r: Result, ctx: Ctx, sc: Scope, b: int, len: int, len1: int, fuel: nat,
                   c: Config, k: nat, d: Config, k1: nat, d1: Config)
    requires c.Running? && d.Running? && d.pc == c.pc + len && d.handlers == c.handlers
    requires Preserved(sc, b, b, c.regs, d.regs) && EndsBlock(r, ctx, sc, b, len1, fuel, d, k1, d1)
    ensures EndsBlock(r, ctx, sc, b, len + len1, fuel, c, k + k1, d1)
  {
  }

  lemma ShapeBlock(ctx: Ctx, n: Node, em: Emit, dest: int)
    requires n.Block? && Scoped(ctx, n)
    ensures var o := CompileStmts(n.stmts, em.(scope := NewFrame(Declared(n.stmts), em.scope)));
            && Compile(n, em, dest).code == o.code + [LoadUndefined(dest)] && Compile(n, em, dest).em.pool == o.em.pool
            && ScopedStmts(EnterCtx(ctx, Declared(n.stmts), {}), n.stmts)
  {
    hide CompileStmts, ScopedStmts, Declared;
  }

  lemma EntersBlock(ops: Ops, fuel: nat, n: Node, st: Store)
    requires n.Block?
    ensures Eval(ops, fuel, n, st) == EvalBlock(ops, fuel, n.stmts, Enter(st, map[]))
    ensures Eval(ops, fuel, n, st).Normal? ==> Eval(ops, fuel, n, st).v == Undefined
  {
  }

  lemma {:induction false} SimBlock(vm: Vm, fuel: nat, ctx: Ctx, em: Emit, dest: int, n: Node, st: Store, c: Config)
    returns (k: nat, d: Config)
    requires n.Block? && Scoped(ctx, n) && Ready(vm, ctx, em, dest, Compile(n, em, dest), st, c)
    ensures vm.Run(c, k) == d
    ensures Ends(Eval(vm.ops, fuel, n, st), ctx, em, dest, |Compile(n, em, dest).code|, fuel, c, k, d)
    decreases fuel, n, 2
  {
    hide Compile, CompileStmts, Eval, EvalBlock, Scoped, ScopedStmts, Holds, Vm.Run, Extends, At, Find, Declared;
    var names := Declared(n.stmts);
    var em1 := em.(scope := NewFrame(names, em.scope));
    var ctx1, st1 := EnterCtx(ctx, names, {}), Enter(st, map[]);
    var o := CompileStmts(n.stmts, em1);
    ShapeBlock(ctx, n, em, dest);
    EntersBlock(vm.ops, fuel, n, st);
    NewFrameTidy(ctx, em.scope, em.next, names);
    Split(vm.code, c.pc, o.code, [LoadUndefined(dest)]);
    k, d := SimStmts(vm, fuel, ctx1, em1, em.next, n.stmts, st1, c);
    var r := Eval(vm.ops, fuel, n, st);
    if r.Normal? {
      k, d := Clears(vm, fuel, ctx, em, dest, r.st, c, k, d, |o.code| + 1);
    }
  }

  // ----- Exceptions -----

  /** The machine inside a protected region. */
  function Protected(c: Config, body: seq<Instr>): Config
    requires c.Running?
  {
    c.(pc := c.pc + 1, handlers := c.handlers + [c.pc + |body| + 3])
  }

  lemma GuardEnter(vm: Vm, c: Config, body: seq<Instr>, catcher: seq<Instr>)
    requires c.Running? && At(vm.code, c.pc, Guarded(body, catcher))
    ensures vm.Run(c, 1) == Protected(c, body)
    ensures At(vm.code, c.pc + 1, body) && At(vm.code, c.pc + |body| + 1, [TryEnd])
    ensures At(vm.code, c.pc + |body| + 2, [Jump(|catcher|)]) && At(vm.code, c.pc + |body| + 3, catcher)
  {
    hide At, Vm.Run, Guarded;
    SplitGuarded(vm.code, c.pc, body, catcher);
    Step1(vm, c, TryBegin(|body| + 2));
  }

  /** Leaving the region normally pops its handler and skips the catcher. */
  lemma GuardExit(vm: Vm, c: Config, body: seq<Instr>, catcher: seq<Instr>, k: nat, d: Config) returns (d': Config)
    requires c.Running? && At(vm.code, c.pc, Guarded(body, catcher))
    requires vm.Run(Protected(c, body), k) == d && d.Running?
    requires d.pc == c.pc + 1 + |body| && d.handlers == Protected(c, body).handlers
    ensures d' == d.(pc := c.pc + |body| + 3 + |catcher|, handlers := c.handlers)
    ensures vm.Run(c, k + 3) == d'
  {
    hide Vm.Run, At;
    GuardEnter(vm, c, body, catcher);
    var d1 := d.(pc := c.pc + |body| + 2, handlers := c.handlers);
    Step1(vm, d, TryEnd);
    d' := d.(pc := c.pc + |body| + 3 + |catcher|, handlers := c.handlers);
    Step1(vm, d1, Jump(|catcher|));
    Then(vm, c, 1, Protected(c, body), k, d);
    Then(vm, c, 1 + k, d, 1, d1);
    Then(vm, c, k + 2, d1, 1, d');
  }

  /** A throw out of the region pops its handler and enters the catcher. */
  lemma GuardCatch(vm: Vm, c: Config, body: seq<Instr>, catcher: seq<Instr>, k: nat, d: Config) returns (d': Config)
    requires c.Running? && At(vm.code, c.pc, Guarded(body, catcher))
    requires vm.Run(Protected(c, body), k) == d && d.Raising? && d.handlers == Protected(c, body).handlers
    ensures d' == Running(c.pc + |body| + 3, d.regs, d.globals, c.handlers, d.e)
    ensures vm.Run(c, k + 2) == d'
  {
    GuardEnter(vm, c, body, catcher);
    d' := Running(c.pc + |body| + 3, d.regs, d.globals, c.handlers, d.e);
    assert vm.Run(d, 1) == vm.Run(vm.Next(d), 0) == d';
    Then(vm, c, 1, Protected(c, body), k, d);
    Then(vm, c, 1 + k, d, 1, d');
  }

  lemma LayoutCatch(vm: Vm, cat: Catch, err: int, em: Emit, pc: int)
    requires At(vm.code, pc, CompileCatch(cat, err, em).code) && Extends(CompileCatch(cat, err, em).em.pool, vm.pool)
    ensures var bind := CompileParam(cat, err, em);
            var o := CompileStmts(cat.stmts, bind.em.Alloc());
            && At(vm.code, pc, bind.code)
            && At(vm.code, pc + |bind.code|, o.code) && Extends(o.em.pool, vm.pool)
            && At(vm.code, pc + |bind.code| + |o.code|, [LoadUndefined(bind.em.next)])
            && |CompileCatch(cat, err, em).code| == |bind.code| + |o.code| + 1
  {
    hide At, Extends, CompileStmts, CompileParam;
    var bind := CompileParam(cat, err, em);
    var o := CompileStmts(cat.stmts, bind.em.Alloc());
    assert bind.em.Alloc() == bind.em.Alloc().(scope := bind.em.scope);
    Split(vm.code, pc, bind.code, o.code + [LoadUndefined(bind.em.next)]);
    Split(vm.code, pc + |bind.code|, o.code, [LoadUndefined(bind.em.next)]);
  }

  /** The catch scope in the code generator: the parameter has the next register. */
  lemma ParamNamed(cat: Catch)
    ensures cat.param.Some? ==> cat.param.value in CatchNames(cat)
  {
  }

  lemma CatchScope(ctx: Ctx, em: Emit, cat: Catch, err: int)
    requires Agrees(ctx, em.scope) && Separate(em.scope, em.next) && 0 <= err < em.next && !Holds(em.scope, err)
    ensures var bind := CompileParam(cat, err, em);
            && InBlock(EnterCtx(ctx, CatchNames(cat), CatchLive(cat)), bind.em.Alloc(), err)
            && bind.em.scope.outer == em.scope && bind.em.next >= em.next
            && (cat.param.Some? ==>
                  && bind.code == [Move(em.next, err)]
                  && cat.param.value in bind.em.scope.regs && bind.em.scope.regs[cat.param.value] == em.next)
            && (cat.param.None? ==> bind.code == [])
  {
    hide Agrees, Separate, Holds, CatchNames, CatchLive;
    var names := CatchNames(cat);
    var em0 := em.(scope := NewFrame(names, em.scope));
    ParamNamed(cat);
    NewFrameTidy(ctx, em.scope, em.next, names);
    ParamAgrees(ctx, cat, err, em);
    if cat.param.Some? {
      PlaceTidy(EnterCtx(ctx, names, {}), em0, err, cat.param.value);
      var em1 := em0.Place(cat.param.value);
      SeparateAbove(em1.scope, em1.next, em1.next + 1);
    } else {
      SeparateAbove(em0.scope, em.next, em.next + 1);
    }
  }

  /** Entering the catch scope at run time: the parameter has the caught value. */
  lemma BindsParam(vm: Vm, ctx: Ctx, em: Emit, cat: Catch, err: int, st: Store, c: Config)
    returns (k: nat, d: Config)
    requires Agrees(ctx, em.scope) && Separate(em.scope, em.next) && 0 <= err < em.next && !Holds(em.scope, err)
    requires c.Running? && c.globals == st.globals && Matches(ctx, em.scope, st.env, c.regs)
    requires At(vm.code, c.pc, CompileParam(cat, err, em).code)
    ensures vm.Run(c, k) == d && d.Running? && d.globals == c.globals && d.handlers == c.handlers
    ensures var bind := CompileParam(cat, err, em);
            && d.pc == c.pc + |bind.code|
            && Matches(EnterCtx(ctx, CatchNames(cat), CatchLive(cat)), bind.em.scope,
                       Enter(st, CatchVars(cat, Get(c.regs, err))).env, d.regs)
    ensures forall q :: q < em.next ==> Get(d.regs, q) == Get(c.regs, q)
  {
    hide CompileParam, CompileStore, Separate, Agrees, Find, Holds, Extends;
    CatchScope(ctx, em, cat, err);
    if cat.param.None? {
      k, d := 0, c;
      return;
    }
    var r := em.next;
    Step1(vm, c, Move(r, err));
    k, d := 1, vm.Load(c, r, Get(c.regs, err));
    FreshRegister(em.scope, em.next, r);
    MatchesTemp(ctx, em.scope, st.env, c.regs, r, Get(c.regs, err));
  }

  lemma {:induction false} SimCatch(vm: Vm, fuel: nat, ctx: Ctx, em: Emit, cat: Catch, err: int, st: Store, c: Config)
    returns (k: nat, d: Config)
    requires Agrees(ctx, em.scope) && Separate(em.scope, em.next) && 0 <= err < em.next && !Holds(em.scope, err)
    requires ScopedStmts(EnterCtx(ctx, CatchNames(cat), CatchLive(cat)), cat.stmts)
    requires c.Running? && c.globals == st.globals && Matches(ctx, em.scope, st.env, c.regs)
    requires At(vm.code, c.pc, CompileCatch(cat, err, em).code) && Extends(CompileCatch(cat, err, em).em.pool, vm.pool)
    ensures vm.Run(c, k) == d
    ensures EndsBlock(EvalBlock(vm.ops, fuel, cat.stmts, Enter(st, CatchVars(cat, Get(c.regs, err)))),
                      ctx, em.scope, err, |CompileCatch(cat, err, em).code|, fuel, c, k, d)
    decreases fuel, cat, 0
  {
    hide CompileParam, CompileCatch, CompileStmts, EvalBlock, ScopedStmts, Matches, Separate, Agrees, Find, Holds,
         Extends, At, Vm.Run;
    LayoutCatch(vm, cat, err, em, c.pc);
    CatchScope(ctx, em, cat, err);
    k, d := BindsParam(vm, ctx, em, cat, err, st, c);
    var bind := CompileParam(cat, err, em);
    var em1 := bind.em.Alloc();
    var o := CompileStmts(cat.stmts, em1);
    var st1 := Enter(st, CatchVars(cat, Get(c.regs, err)));
    var r := EvalBlock(vm.ops, fuel, cat.stmts, st1);
    var k1, d1 := SimStmts(vm, fuel, EnterCtx(ctx, CatchNames(cat), CatchLive(cat)), em1, err, cat.stmts, st1, d);
    Then(vm, c, k, d, k1, d1);
    JoinsStmts(r, ctx, em.scope, err, |bind.code|, |o.code|, fuel, c, k, d, k1, d1);
    k, d := k + k1, d1;
    if r.Normal? {
      k, d := ClearsAbove(vm, fuel, ctx, em, err, bind.em.next, r, |bind.code| + |o.code|, c, k, d);
    }
  }

  /** Clearing a register above all variables, at the end of a block. */
  lemma ClearsAbove(vm: Vm, fuel: nat, ctx: Ctx, em: Emit, b: int, q: int, r: Result, off: int, c: Config, k: nat,
                    d: Config)
    returns (k': nat, d': Config)
    requires c.Running? && r.Normal? && vm.Run(c, k) == d && EndsBlock(r, ctx, em.scope, b, off, fuel, c, k, d)
    requires Separate(em.scope, em.next) && 0 <= b < em.next <= q && At(vm.code, c.pc + off, [LoadUndefined(q)])
    ensures vm.Run(c, k') == d' && EndsBlock(r, ctx, em.scope, b, off + 1, fuel, c, k', d')
  {
    Step1(vm, d, LoadUndefined(q));
    k', d' := k + 1, vm.Load(d, q, Undefined);
    Then(vm, c, k, d, 1, d');
    FreshRegister(em.scope, em.next, q);
    MatchesTemp(ctx, em.scope, r.st.env, d.regs, q, Undefined);
  }

  lemma LayoutTry(vm: Vm, ctx: Ctx, em: Emit, n: Node, pc: int)
    requires n.Try? && Scoped(ctx, n) && Agrees(ctx, em.scope) && em.next >= 0
    requires At(vm.code, pc, CompileTry(n, em).code) && Extends(CompileTry(n, em).em.pool, vm.pool)
    ensures var r := em.next;
            var o1 := Compile(n.body, em.Alloc(), r);
            var o2 := CompileHandler(n.handler, r, o1.em.Free(r).Alloc());
            && CompileTry(n, em).code == Guarded(o1.code, [CatchBegin(r)] + o2.code)
            && |CompileTry(n, em).code| == |o1.code| + |o2.code| + 4
            && At(vm.code, pc + |o1.code| + 3, [CatchBegin(r)] + o2.code)
            && At(vm.code, pc + |o1.code| + 3, [CatchBegin(r)]) && At(vm.code, pc + |o1.code| + 4, o2.code)
            && At(vm.code, pc + 1, o1.code) && Extends(o1.em.pool, vm.pool) && Extends(o2.em.pool, vm.pool)
            && o1.em.scope == em.scope && Scoped(ctx, n.body)
            && (n.handler.Some? ==>
                  ScopedStmts(EnterCtx(ctx, CatchNames(n.handler.value), CatchLive(n.handler.value)),
                              n.handler.value.stmts))
  {
    hide Compile, CompileHandler, CompileTry, Guarded, At, Extends, Find, Scoped, Agrees, ScopedStmts, CatchNames,
         CatchLive;
    ScopedTry(ctx, n);
    var r := em.next;
    var o1 := Compile(n.body, em.Alloc(), r);
    Keeps(ctx, n.body, em.Alloc(), r);
    var o2 := CompileHandler(n.handler, r, o1.em.Free(r).Alloc());
    var catcher := [CatchBegin(r)] + o2.code;
    ShapeTry(n, em);
    Within(o1.em.pool, o2.em.pool, vm.pool);
    SplitGuarded(vm.code, pc, o1.code, catcher);
    SplitHead(vm.code, pc + |o1.code| + 3, CatchBegin(r), o2.code);
  }

  lemma ScopedTry(ctx: Ctx, n: Node)
    requires n.Try? && Scoped(ctx, n)
    ensures Scoped(ctx, n.body)
    ensures n.handler.Some? ==>
              ScopedStmts(EnterCtx(ctx, CatchNames(n.handler.value), CatchLive(n.handler.value)), n.handler.value.stmts)
  {
  }

  lemma ShapeTry(n: Node, em: Emit)
    requires n.Try?
    ensures var r := em.next;
            var o1 := Compile(n.body, em.Alloc(), r);
            var o2 := CompileHandler(n.handler, r, o1.em.Free(r).Alloc());
            CompileTry(n, em) == Out(Guarded(o1.code, [CatchBegin(r)] + o2.code), o2.em.Free(r))
  {
    hide Compile, CompileHandler, Guarded;
  }

  lemma MeaningGuarded(ops: Ops, fuel: nat, n: Node, st: Store)
    requires n.Try?
    ensures var r := Eval(ops, fuel, n.body, st);
            EvalGuarded(ops, fuel, n, st) ==
              if r.Normal? then Normal(Undefined, r.st)
              else if r.Throws? && n.handler.Some? then
                EvalBlock(ops, fuel, n.handler.value.stmts, Enter(r.st, CatchVars(n.handler.value, r.e)))
              else r
  {
  }

  /** The caught value, put in the temporary `x`, about to be handled. */
  lemma Catches(vm: Vm, ctx: Ctx, em: Emit, x: int, st: Store, c: Config, before: Regs)
    returns (d: Config)
    requires c.Running? && At(vm.code, c.pc, [CatchBegin(x)]) && Separate(em.scope, em.next) && x >= em.next >= 0
    requires Outside(ctx, em.scope, em.next, st, before, c.regs, c.globals)
    ensures d == vm.Load(c, x, c.caught) && vm.Run(c, 1) == d && Get(d.regs, x) == c.caught
    ensures Outside(ctx, em.scope, em.next, st, before, d.regs, d.globals)
  {
    Step1(vm, c, CatchBegin(x));
    d := vm.Load(c, x, c.caught);
    FreshRegister(em.scope, em.next, x);
    MatchesTemp(ctx, em.scope, st.env, c.regs, x, c.caught);
  }

  /** Handling the value in `err`: the clause runs, or the value is thrown again. */
  lemma {:induction false} SimHandler(vm: Vm, fuel: nat, ctx: Ctx, em: Emit, n: Node, err: int, st: Store, c: Config)
    returns (k: nat, d: Config)
    requires n.Try? && Agrees(ctx, em.scope) && Separate(em.scope, em.next) && 0 <= err < em.next
    requires !Holds(em.scope, err)
    requires n.handler.Some? ==>
               ScopedStmts(EnterCtx(ctx, CatchNames(n.handler.value), CatchLive(n.handler.value)),
                           n.handler.value.stmts)
    requires c.Running? && c.globals == st.globals && Matches(ctx, em.scope, st.env, c.regs)
    requires At(vm.code, c.pc, CompileHandler(n.handler, err, em).code)
    requires Extends(CompileHandler(n.handler, err, em).em.pool, vm.pool)
    ensures vm.Run(c, k) == d
    ensures var e := Get(c.regs, err);
            var r := if n.handler.None? then Throws(e, st)
                     else EvalBlock(vm.ops, fuel, n.handler.value.stmts, Enter(st, CatchVars(n.handler.value, e)));
            EndsBlock(r, ctx, em.scope, err, |CompileHandler(n.handler, err, em).code|, fuel, c, k, d)
    decreases fuel, n, 0, 0
  {
    hide CompileCatch, EvalBlock, ScopedStmts, Matches, Separate, Agrees, Find, Holds, Extends, At, Vm.Run;
    if n.handler.None? {
      Step1(vm, c, ThrowReg(err));
      k, d := 1, Raising(Get(c.regs, err), c.regs, c.globals, c.handlers);
    } else {
      k, d := SimCatch(vm, fuel, ctx, em, n.handler.value, err, st, c);
    }
  }

  lemma Widen(ctx: Ctx, em: Emit, em1: Emit, r: int, st: Store, before: Regs, after: Regs, globals: Globals)
    requires Settled(ctx, em1, r, st, before, after, globals)
    requires em1.scope == em.scope && em1.next >= em.next && r >= em.next
    ensures Outside(ctx, em.scope, em.next, st, before, after, globals)
  {
  }

  lemma {:induction false} SimGuarded(vm: Vm, fuel: nat, ctx: Ctx, em: Emit, dest: int, n: Node, st: Store, c: Config)
    returns (k: nat, d: Config)
    requires n.Try? && Scoped(ctx, n) && Tidy(ctx, em, dest) && c.Running?
    requires At(vm.code, c.pc, CompileTry(n, em).code) && Extends(CompileTry(n, em).em.pool, vm.pool)
    requires c.globals == st.globals && Matches(ctx, em.scope, st.env, c.regs)
    ensures vm.Run(c, k) == d
    ensures EndsBlock(EvalGuarded(vm.ops, fuel, n, st), ctx, em.scope, em.next, |CompileTry(n, em).code|, fuel, c, k, d)
    decreases fuel, n, 1
  {
    hide Compile, CompileTry, CompileHandler, Eval, EvalGuarded, EvalBlock, Scoped, ScopedStmts, Matches, Separate,
         Agrees, Find, Holds, Extends, At, Vm.Run, Guarded, Preserved, Get;
    LayoutTry(vm, ctx, em, n, c.pc);
    MeaningGuarded(vm.ops, fuel, n, st);
    var r, em1 := em.next, em.Alloc();
    var o1 := Compile(n.body, em1, r);
    var em2 := o1.em.Free(r).Alloc();
    var o2 := CompileHandler(n.handler, r, em2);
    var catcher := [CatchBegin(r)] + o2.code;
    Temporary(ctx, em, dest, em1);
    GuardEnter(vm, c, o1.code, catcher);
    var c1 := Protected(c, o1.code);
    var k1, d1 := Simulate(vm, fuel, ctx, em1, r, n.body, st, c1);
    var r1 := Eval(vm.ops, fuel, n.body, st);
    if r1.Timeout? {
      Then(vm, c, 1, c1, k1, d1);
      k, d := 1 + k1, d1;
    } else if r1.Normal? {
      Widen(ctx, em, em1, r, r1.st, c.regs, d1.regs, d1.globals);
      d := GuardExit(vm, c, o1.code, catcher, k1, d1);
      k := k1 + 3;
    } else {
      Widen(ctx, em, em1, r, r1.st, c.regs, d1.regs, d1.globals);
      k, d := SimCaught(vm, fuel, ctx, em, em2, n, r1.e, r1.st, c, o1.code, k1, d1);
    }
  }

  /** The body threw: its handler takes over with the stack as it was before. */
  lemma {:induction false} SimCaught(vm: Vm, fuel: nat, ctx: Ctx, em: Emit, em2: Emit, n: Node, e: Value, st: Store,
                                     c: Config, body: seq<Instr>, k1: nat, d1: Config)
    returns (k: nat, d: Config)
    requires n.Try? && c.Running? && em2.scope == em.scope && em2.next == em.next + 1 && Tidy(ctx, em2, em.next)
    requires Separate(em.scope, em.next) && em.next >= 0
    requires n.handler.Some? ==>
               ScopedStmts(EnterCtx(ctx, CatchNames(n.handler.value), CatchLive(n.handler.value)),
                           n.handler.value.stmts)
    requires var o := CompileHandler(n.handler, em.next, em2);
             && At(vm.code, c.pc, Guarded(body, [CatchBegin(em.next)] + o.code)) && Extends(o.em.pool, vm.pool)
             && At(vm.code, c.pc + |body| + 3, [CatchBegin(em.next)]) && At(vm.code, c.pc + |body| + 4, o.code)
    requires vm.Run(Protected(c, body), k1) == d1 && d1.Raising? && d1.e == e
    requires d1.handlers == Protected(c, body).handlers
    requires Outside(ctx, em.scope, em.next, st, c.regs, d1.regs, d1.globals)
    ensures vm.Run(c, k) == d
    ensures var r := if n.handler.None? then Throws(e, st)
                     else EvalBlock(vm.ops, fuel, n.handler.value.stmts, Enter(st, CatchVars(n.handler.value, e)));
            EndsBlock(r, ctx, em.scope, em.next, |body| + 4 + |CompileHandler(n.handler, em.next, em2).code|, fuel,
                      c, k, d)
    decreases fuel, n, 0, 1
  {
    hide CompileHandler, EvalBlock, ScopedStmts, Matches, Separate, Agrees, Find, Holds, Extends, At, Vm.Run,
         Guarded, Preserved, Get;
    var r := em.next;
    var o := CompileHandler(n.handler, r, em2);
    var d2 := GuardCatch(vm, c, body, [CatchBegin(r)] + o.code, k1, d1);
    var d3 := Catches(vm, ctx, em, r, st, d2, c.regs);
    Then(vm, c, k1 + 2, d2, 1, d3);
    var k4, d4 := SimHandler(vm, fuel, ctx, em2, n, r, st, d3);
    Then(vm, c, k1 + 3, d3, k4, d4);
    var res := if n.handler.None? then Throws(e, st)
               else EvalBlock(vm.ops, fuel, n.handler.value.stmts, Enter(st, CatchVars(n.handler.value, e)));
    JoinsStmts(res, ctx, em.scope, r, |body| + 4, |o.code|, fuel, c, k1 + 3, d3, k4, d4);
    k, d := k1 + 3 + k4, d4;
  }

  /** The rethrowing copy of a finalizer. */
  function Rethrow(x: int, fin: seq<Instr>): seq<Instr> {
    [CatchBegin(x)] + fin + [ThrowReg(x)]
  }

  lemma LayoutPlainTry(em: Emit, dest: int, n: Node)
    requires n.Try? && n.finalizer.None?
    ensures Compile(n, em, dest) == Out(CompileTry(n, em).code + [LoadUndefined(dest)], CompileTry(n, em).em)
  {
    hide CompileTry;
    Dispatch(n, em, dest);
  }

  lemma LayoutFinally(vm: Vm, ctx: Ctx, em: Emit, dest: int, n: Node, pc: int)
    returns (em2: Emit, em3: Emit, catcher: seq<Instr>, at: int, last: int)
    requires n.Try? && n.finalizer.Some? && Scoped(ctx, n) && Agrees(ctx, em.scope) && em.next >= 0
    requires At(vm.code, pc, Compile(n, em, dest).code) && Extends(Compile(n, em, dest).em.pool, vm.pool)
    ensures em2.scope == em3.scope == em.scope && em2.next == em.next + 2 && em3.next == em.next + 1
    ensures Extends(CompileTry(n, em).em.pool, vm.pool) && Scoped(ctx, n.finalizer.value)
    ensures var o := Compile(n.finalizer.value, em2, em.next + 1);
            catcher == Rethrow(em.next, o.code) && Extends(o.em.pool, vm.pool)
    ensures At(vm.code, pc, Guarded(CompileTry(n, em).code, catcher))
    ensures var o := Compile(n.finalizer.value, em3, em.next);
            && Extends(o.em.pool, vm.pool) && At(vm.code, at, o.code) && At(vm.code, last, [LoadUndefined(dest)])
            && at == pc + |CompileTry(n, em).code| + 3 + |catcher| && last == at + |o.code|
            && |Compile(n, em, dest).code| == |CompileTry(n, em).code| + |catcher| + |o.code| + 4
  {
    hide Compile, CompileTry, At, Extends, Find;
    Dispatch(n, em, dest);
    KeepsTry(ctx, n, em);
    var x := em.next;
    var o1 := CompileTry(n, em);
    em2 := o1.em.Alloc().Alloc();
    Keeps(ctx, n.finalizer.value, em2, x + 1);
    var o2 := Compile(n.finalizer.value, em2, x + 1);
    catcher := Rethrow(x, o2.code);
    em3 := o2.em.Free(x).Alloc();
    var o3 := Compile(n.finalizer.value, em3, x);
    Within(o2.em.pool, o3.em.pool, vm.pool);
    Within(o1.em.pool, o2.em.pool, vm.pool);
    Split3(vm.code, pc, Guarded(o1.code, catcher), o3.code, [LoadUndefined(dest)]);
    at := pc + |Guarded(o1.code, catcher)|;
    last := at + |o3.code|;
  }

  lemma MeaningTry(ops: Ops, fuel: nat, n: Node, st: Store)
    requires n.Try?
    ensures var g := EvalGuarded(ops, fuel, n, st);
            Eval(ops, fuel, n, st) ==
              if n.finalizer.None? || g.Timeout? then g
              else
                var r := Eval(ops, fuel, n.finalizer.value, g.st);
                if !r.Normal? then r
                else if g.Normal? then Normal(Undefined, r.st)
                else Throws(g.e, r.st)
    ensures EvalGuarded(ops, fuel, n, st).Normal? ==> EvalGuarded(ops, fuel, n, st).v == Undefined
  {
  }

  /** Rejoining a fragment whose first part kept all but variables. */
  lemma Resume(vm: Vm, ctx: Ctx, em: Emit, dest: int, st: Store, c: Config, k: nat, d: Config, off: int)
    requires Tidy(ctx, em, dest) && c.Running? && d.Running? && vm.Run(c, k) == d
    requires d.pc == c.pc + off && d.handlers == c.handlers
    requires Outside(ctx, em.scope, em.next, st, c.regs, d.regs, d.globals)
    ensures Mid(vm, ctx, em, dest, st, c, k, d, off)
  {
  }

  lemma {:induction false} SimPlainTry(vm: Vm, fuel: nat, ctx: Ctx, em: Emit, dest: int, n: Node, st: Store, c: Config)
    returns (k: nat, d: Config)
    requires n.Try? && n.finalizer.None? && Scoped(ctx, n) && Ready(vm, ctx, em, dest, Compile(n, em, dest), st, c)
    ensures vm.Run(c, k) == d
    ensures Ends(Eval(vm.ops, fuel, n, st), ctx, em, dest, |Compile(n, em, dest).code|, fuel, c, k, d)
    decreases fuel, n, 2
  {
    hide Compile, CompileTry, Eval, EvalGuarded, Scoped, Matches, Separate, Agrees, Holds, Vm.Run, Extends, At, Find;
    LayoutPlainTry(em, dest, n);
    MeaningTry(vm.ops, fuel, n, st);
    var o := CompileTry(n, em);
    Split(vm.code, c.pc, o.code, [LoadUndefined(dest)]);
    k, d := SimGuarded(vm, fuel, ctx, em, dest, n, st, c);
    var g := EvalGuarded(vm.ops, fuel, n, st);
    if g.Normal? {
      Resume(vm, ctx, em, dest, g.st, c, k, d, |o.code|);
      k, d := Clears(vm, fuel, ctx, em, dest, g.st, c, k, d, |o.code| + 1);
    }
  }

  /** The guarded part threw: the finalizer runs, then the value is thrown again. */
  lemma {:induction false} SimRethrow(vm: Vm, fuel: nat, ctx: Ctx, em: Emit, dest: int, n: Node, em2: Emit,
                                      e: Value, st: Store, c: Config, body: seq<Instr>, k1: nat, d1: Config, len: int)
    returns (k: nat, d: Config)
    requires n.Try? && n.finalizer.Some? && Scoped(ctx, n.finalizer.value) && Tidy(ctx, em, dest) && c.Running?
    requires em2.scope == em.scope && em2.next == em.next + 2
    requires var o := Compile(n.finalizer.value, em2, em.next + 1);
             At(vm.code, c.pc, Guarded(body, Rethrow(em.next, o.code))) && Extends(o.em.pool, vm.pool)
    requires vm.Run(Protected(c, body), k1) == d1 && d1.Raising? && d1.e == e
    requires d1.handlers == Protected(c, body).handlers
    requires Outside(ctx, em.scope, em.next, st, c.regs, d1.regs, d1.globals)
    ensures vm.Run(c, k) == d
    ensures var r := Eval(vm.ops, fuel, n.finalizer.value, st);
            Ends(if r.Normal? then Throws(e, r.st) else r, ctx, em, dest, len, fuel, c, k, d)
    decreases fuel, n, 0
  {
    hide Compile, Eval, Scoped, Matches, Separate, Agrees, Holds, Vm.Run, Extends, At, Find, Guarded, Preserved,
         Get, Mid;
    var x, fin := em.next, n.finalizer.value;
    var o := Compile(fin, em2, x + 1);
    GuardEnter(vm, c, body, Rethrow(x, o.code));
    Split3(vm.code, c.pc + |body| + 3, [CatchBegin(x)], o.code, [ThrowReg(x)]);
    var d2 := GuardCatch(vm, c, body, Rethrow(x, o.code), k1, d1);
    var d3 := Catches(vm, ctx, em, x, st, d2, c.regs);
    Then(vm, c, k1 + 2, d2, 1, d3);
    var off := |body| + 4;
    Resume(vm, ctx, em, dest, st, c, k1 + 3, d3, off);
    k, d := Child(vm, fuel, ctx, em, dest, st, c, k1 + 3, d3, off, fin, em2, x + 1, len);
    var r := Eval(vm.ops, fuel, fin, st);
    if r.Normal? {
      k, d := Raises(vm, ctx, em, dest, r.st, c, k, d, off + |o.code|, ThrowReg(x), e, len, fuel);
    }
  }

  lemma {:induction false} SimFinally(vm: Vm, fuel: nat, ctx: Ctx, em: Emit, dest: int, n: Node, st: Store, c: Config)
    returns (k: nat, d: Config)
    requires n.Try? && n.finalizer.Some? && Scoped(ctx, n) && Ready(vm, ctx, em, dest, Compile(n, em, dest), st, c)
    ensures vm.Run(c, k) == d
    ensures Ends(Eval(vm.ops, fuel, n, st), ctx, em, dest, |Compile(n, em, dest).code|, fuel, c, k, d)
    decreases fuel, n, 2
  {
    hide Compile, CompileTry, Eval, EvalGuarded, Scoped, Matches, Separate, Agrees, Holds, Vm.Run, Extends, At, Find,
      Guarded, Preserved, Rethrow, Get, Ends, EndsBlock;
    var em2, em3, catcher, at, last := LayoutFinally(vm, ctx, em, dest, n, c.pc);
    MeaningTry(vm.ops, fuel, n, st);
    var body := CompileTry(n, em).code;
    GuardEnter(vm, c, body, catcher);
    var c1 := Protected(c, body);
    var k1, d1 := SimGuarded(vm, fuel, ctx, em, dest, n, st, c1);
    var g := EvalGuarded(vm.ops, fuel, n, st);
    var r := if g.Timeout? then g else Eval(vm.ops, fuel, n.finalizer.value, g.st);
    assert Eval(vm.ops, fuel, n, st) == if r.Normal? && g.Throws? then Throws(g.e, r.st) else Discard(r);
    k, d := SimFinalizer(vm, fuel, ctx, em, dest, n, em2, em3, g, c, body, catcher, k1, d1, at, last);
  }

  /** After the guarded part, which ended as `g`, the finalizer runs exactly once. */
  lemma {:induction false} SimFinalizer(vm: Vm, fuel: nat, ctx: Ctx, em: Emit, dest: int, n: Node, em2: Emit,
                                        em3: Emit, g: Result, c: Config, body: seq<Instr>, catcher: seq<Instr>, k1: nat,
                                        d1: Config, at: int, last: int)
    returns (k: nat, d: Config)
    requires n.Try? && n.finalizer.Some? && Scoped(ctx, n.finalizer.value) && Tidy(ctx, em, dest) && c.Running?
    requires em2.scope == em3.scope == em.scope && em2.next == em.next + 2 && em3.next == em.next + 1
    requires At(vm.code, c.pc, Guarded(body, catcher))
    requires var o := Compile(n.finalizer.value, em2, em.next + 1);
             catcher == Rethrow(em.next, o.code) && Extends(o.em.pool, vm.pool)
    requires var o := Compile(n.finalizer.value, em3, em.next);
             && at == c.pc + |body| + 3 + |catcher| && At(vm.code, at, o.code) && Extends(o.em.pool, vm.pool)
             && last == at + |o.code| && At(vm.code, last, [LoadUndefined(dest)])
    requires vm.Run(Protected(c, body), k1) == d1
    requires EndsBlock(g, ctx, em.scope, em.next, |body|, fuel, Protected(c, body), k1, d1)
    ensures vm.Run(c, k) == d
    ensures var r := if g.Timeout? then g else Eval(vm.ops, fuel, n.finalizer.value, g.st);
            var result := if r.Normal? && g.Throws? then Throws(g.e, r.st) else Discard(r);
            Ends(result, ctx, em, dest, |body| + |catcher| + |Compile(n.finalizer.value, em3, em.next).code| + 4,
                 fuel, c, k, d)
    decreases fuel, n, 1, 0
  {
    hide Compile, Eval, Scoped, Matches, Separate, Agrees, Holds, Vm.Run, Extends, At, Find, Guarded, Preserved,
         Rethrow, Get;
    if g.Timeout? {
      GuardEnter(vm, c, body, catcher);
      Then(vm, c, 1, Protected(c, body), k1, d1);
      k, d := 1 + k1, d1;
    } else if g.Throws? {
      var len := |body| + |catcher| + |Compile(n.finalizer.value, em3, em.next).code| + 4;
      k, d := SimRethrow(vm, fuel, ctx, em, dest, n, em2, g.e, g.st, c, body, k1, d1, len);
    } else {
      k, d := SimNormalExit(vm, fuel, ctx, em, dest, n, em3, g.st, c, body, catcher, k1, d1, at, last);
    }
  }

  /** The guarded part ended normally: the other copy of the finalizer runs. */
  lemma {:induction false} SimNormalExit(vm: Vm, fuel: nat, ctx: Ctx, em: Emit, dest: int, n: Node, em3: Emit,
                                         st: Store, c: Config, body: seq<Instr>, catcher: seq<Instr>, k1: nat,
                                         d1: Config, at: int, last: int)
    returns (k: nat, d: Config)
    requires n.Try? && n.finalizer.Some? && Scoped(ctx, n.finalizer.value) && Tidy(ctx, em, dest) && c.Running?
    requires em3.scope == em.scope && em3.next == em.next + 1
    requires At(vm.code, c.pc, Guarded(body, catcher))
    requires var o := Compile(n.finalizer.value, em3, em.next);
             && at == c.pc + |body| + 3 + |catcher| && At(vm.code, at, o.code) && Extends(o.em.pool, vm.pool)
             && last == at + |o.code| && At(vm.code, last, [LoadUndefined(dest)])
    requires vm.Run(Protected(c, body), k1) == d1 && d1.Running? && d1.pc == c.pc + 1 + |body|
    requires d1.handlers == Protected(c, body).handlers
    requires Outside(ctx, em.scope, em.next, st, c.regs, d1.regs, d1.globals)
    ensures vm.Run(c, k) == d
    ensures var r := Eval(vm.ops, fuel, n.finalizer.value, st);
            Ends(Discard(r), ctx, em, dest, |body| + |catcher| + |Compile(n.finalizer.value, em3, em.next).code| + 4,
                 fuel, c, k, d)
    decreases fuel, n, 0
  {
    hide Compile, Eval, Scoped, Matches, Separate, Agrees, Holds, Vm.Run, Extends, At, Find, Guarded, Preserved, Mid;
    var fin := n.finalizer.value;
    var o := Compile(fin, em3, em.next);
    var off := |body| + 3 + |catcher|;
    d := GuardExit(vm, c, body, catcher, k1, d1);
    k := k1 + 3;
    Resume(vm, ctx, em, dest, st, c, k, d, off);
    var r := Eval(vm.ops, fuel, fin, st);
    k, d := Child(vm, fuel, ctx, em, dest, st, c, k, d, off, fin, em3, em.next, off + |o.code| + 1);
    if r.Normal? {
      k, d := Clears(vm, fuel, ctx, em, dest, r.st, c, k, d, off + |o.code| + 1);
    }
  }
}
