/** Whole programs: what the entry point of the compiler emits behaves as the source. */
module Program {
  import opened Syntax
  import opened SourceSemantics
  import opened Bytecode
  import opened Machine
  import opened CodeGen
  import opened Scoping
  import opened Simulation

  const START := Emit(0, 0, [], Root)

  /** The program's block into register 0, then the return of that register. */
  function CompileProgram(ss: seq<Node>): Out {
    var o := Compile(Block(ss), START.Alloc(), 0);
    Out(o.code + [Return(0)], o.em)
  }

  function Loaded(ops: Ops, ss: seq<Node>): Vm {
    Vm(ops, CompileProgram(ss).code, CompileProgram(ss).em.pool)
  }

  function Boot(regs: Regs, globals: Globals): Config {
    Running(0, regs, globals, [], Undefined)
  }

  function Meaning(ops: Ops, fuel: nat, ss: seq<Node>, globals: Globals): Result {
    Eval(ops, fuel, Block(ss), Store(Empty, globals))
  }

  /** The end the machine must come to when the source ends as `r`. */
  function Final(r: Result): Config
    requires !r.Timeout?
  {
    if r.Normal? then Returned(Undefined, r.st.globals) else Uncaught(r.e, r.st.globals)
  }

  lemma BlockYieldsNothing(ops: Ops, fuel: nat, ss: seq<Node>, globals: Globals)
    ensures Meaning(ops, fuel, ss, globals).Normal? ==> Meaning(ops, fuel, ss, globals).v == Undefined
  {
    var st := Enter(Store(Empty, globals), map[]);
    assert Meaning(ops, fuel, ss, globals) == EvalBlock(ops, fuel, ss, st);
  }

  /** Correctness of compilation: for every program in the fragment, every choice of
      operators, initial globals and register contents, and every fuel, the machine
      ends as the source does, or is still running after as many steps as the fuel. */
  lemma ProgramCorrect(ops: Ops, fuel: nat, ss: seq<Node>, regs: Regs, globals: Globals)
    returns (k: nat)
    requires Scoped(Top, Block(ss))
    ensures var r := Meaning(ops, fuel, ss, globals);
            var d := Loaded(ops, ss).Run(Boot(regs, globals), k);
            if r.Timeout? then k >= fuel && !Halted(d) else d == Final(r)
  {
    hide Compile, Eval, Scoped, Vm.Run, Extends, At;
    var vm, c, st := Loaded(ops, ss), Boot(regs, globals), Store(Empty, globals);
    var o := Compile(Block(ss), START.Alloc(), 0);
    var d: Config;
    assert At(vm.code, 0, o.code + [Return(0)]) by { WholeAt(vm.code); }
    Split(vm.code, 0, o.code, [Return(0)]);
    assert Extends(o.em.pool, vm.pool) by { SamePool(vm.pool); }
    k, d := Simulate(vm, fuel, Top, START.Alloc(), 0, Block(ss), st, c);
    var r := Meaning(ops, fuel, ss, globals);
    BlockYieldsNothing(ops, fuel, ss, globals);
    if r.Normal? {
      Step1(vm, d, Return(0));
      Then(vm, c, k, d, 1, Final(r));
      k := k + 1;
    } else if r.Throws? {
      Unhandled(vm, d);
      Then(vm, c, k, d, 1, Final(r));
      k := k + 1;
    }
  }

  lemma WholeAt(code: seq<Instr>)
    ensures At(code, 0, code)
  {
  }

  lemma SamePool(pool: seq<Value>)
    ensures Extends(pool, pool)
  {
  }

  lemma Unhandled(vm: Vm, d: Config)
    requires d.Raising? && d.handlers == []
    ensures vm.Run(d, 1) == Uncaught(d.e, d.globals)
  {
    assert vm.Run(d, 1) == vm.Run(vm.Next(d), 0);
  }

  /** The machine halts exactly when the source terminates. */
  lemma HaltsIffTerminates(ops: Ops, ss: seq<Node>, regs: Regs, globals: Globals)
    requires Scoped(Top, Block(ss))
    ensures (exists k: nat :: Halted(Loaded(ops, ss).Run(Boot(regs, globals), k)))
            <==> (exists fuel: nat :: !Meaning(ops, fuel, ss, globals).Timeout?)
  {
    hide Compile, Eval, Scoped, CompileProgram;
    var vm, c := Loaded(ops, ss), Boot(regs, globals);
    if k: nat :| Halted(vm.Run(c, k)) {
      var fuel := k;
      if Meaning(ops, fuel, ss, globals).Timeout? {
        var j := ProgramCorrect(ops, fuel, ss, regs, globals);
        vm.StillGoing(c, k, j);
      }
      assert !Meaning(ops, fuel, ss, globals).Timeout?;
    }
    if fuel: nat :| !Meaning(ops, fuel, ss, globals).Timeout? {
      var k := ProgramCorrect(ops, fuel, ss, regs, globals);
      assert Halted(vm.Run(c, k));
    }
  }

  /** A halted machine never gets stuck, and has the result of the source. */
  lemma HaltsAsSource(ops: Ops, ss: seq<Node>, regs: Regs, globals: Globals, k: nat)
    requires Scoped(Top, Block(ss)) && Halted(Loaded(ops, ss).Run(Boot(regs, globals), k))
    ensures exists fuel: nat :: var r := Meaning(ops, fuel, ss, globals);
                           !r.Timeout? && Loaded(ops, ss).Run(Boot(regs, globals), k) == Final(r)
  {
    hide Compile, Eval, Scoped, CompileProgram;
    var vm, c := Loaded(ops, ss), Boot(regs, globals);
    var j := ProgramCorrect(ops, k, ss, regs, globals);
    var r := Meaning(ops, k, ss, globals);
    if r.Timeout? {
      vm.StillGoing(c, k, j);
    } else if j <= k {
      vm.RunAdd(c, j, k - j);
      vm.RunHalted(vm.Run(c, j), k - j);
    } else {
      vm.RunAdd(c, k, j - k);
      vm.RunHalted(vm.Run(c, k), j - k);
    }
  }
}
