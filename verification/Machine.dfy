/** The register machine, one instruction at a time. */
module Machine {
  import opened Syntax
  import opened Bytecode

  type Regs = map<int, Value>

  function Get(regs: Regs, r: int): Value {
    if r in regs then regs[r] else Undefined
  }

  /** `Raising` is the machine inside `vm_throw_error`, before it has picked a handler. */
  datatype Config =
    | Running(pc: int, regs: Regs, globals: Globals, handlers: seq<int>, caught: Value)
    | Raising(e: Value, regs: Regs, globals: Globals, handlers: seq<int>)
    | Returned(v: Value, globals: Globals)
    | Uncaught(e: Value, globals: Globals)
    | Stuck

  predicate Halted(c: Config) { c.Returned? || c.Uncaught? || c.Stuck? }

  datatype Vm = Vm(ops: Ops, code: seq<Instr>, pool: seq<Value>) {

    predicate Taken(g: Guard, v: Value) {
      match g
      case IfFalse => !ops.truthy(v)
      case IfTrue => ops.truthy(v)
      case IfNullish => IsNullish(v)
    }

    function Load(c: Config, a: int, v: Value): Config
      requires c.Running?
    {
      c.(pc := c.pc + 1, regs := c.regs[a := v])
    }

    function Finish(c: Config, a: int, o: Outcome): Config
      requires c.Running?
    {
      match o
      case Yields(v) => Load(c, a, v)
      case Fails(e) => Raising(e, c.regs, c.globals, c.handlers)
    }

    function Execute(i: Instr, c: Config): Config
      requires c.Running?
    {
      match i
      case LoadConst(a, bx) =>
        if 0 <= bx < |pool| then Load(c, a, pool[bx]) else Stuck
      case LoadInt(a, s) => Load(c, a, Num(Integral(s)))
      case LoadBool(a, b) => Load(c, a, Boolean(b != 0))
      case LoadNull(a) => Load(c, a, Null)
      case LoadUndefined(a) => Load(c, a, Undefined)
      case LoadGlobal(a, bx) =>
        if 0 <= bx < |pool| && pool[bx].Str? then Load(c, a, ReadGlobal(c.globals, pool[bx].s))
        else Stuck
      case StoreGlobal(a, bx) =>
        if 0 <= bx < |pool| && pool[bx].Str?
        then c.(pc := c.pc + 1, globals := c.globals + [(pool[bx].s, Get(c.regs, a))])
        else Stuck
      case Move(a, b) => Load(c, a, Get(c.regs, b))
      case BinaryOp(op, a, b, d) => Finish(c, a, ops.binary(op, Get(c.regs, b), Get(c.regs, d)))
      case UnaryOp(op, a, b) => Finish(c, a, ops.unary(op, Get(c.regs, b)))
      case Jump(s) => c.(pc := c.pc + 1 + s)
      case JumpIf(g, a, s) =>
        c.(pc := if Taken(g, Get(c.regs, a)) then c.pc + 1 + s else c.pc + 1)
      case Return(a) => Returned(Get(c.regs, a), c.globals)
      case ThrowReg(a) => Raising(Get(c.regs, a), c.regs, c.globals, c.handlers)
      case TryBegin(s) => c.(pc := c.pc + 1, handlers := c.handlers + [c.pc + s + 1])
      case TryEnd =>
        c.(pc := c.pc + 1,
           handlers := if |c.handlers| > 0 then c.handlers[..|c.handlers| - 1] else [])
      case CatchBegin(a) => Load(c, a, c.caught)
      case Illegal(_) => Stuck
    }

    function Next(c: Config): Config {
      match c
      case Running(pc, _, _, _, _) =>
        if 0 <= pc < |code| then Execute(code[pc], c) else Stuck
      case Raising(e, regs, globals, handlers) =>
        if |handlers| == 0 then Uncaught(e, globals)
        else Running(handlers[|handlers| - 1], regs, globals, handlers[..|handlers| - 1], e)
      case _ => c
    }

    function Run(c: Config, k: nat): Config
      decreases k
    {
      if k == 0 then c else Run(Next(c), k - 1)
    }

    lemma {:induction false} RunAdd(c: Config, j: nat, k: nat)
      ensures Run(c, j + k) == Run(Run(c, j), k)
      decreases j
    {
      if j > 0 {
        RunAdd(Next(c), j - 1, k);
      }
    }

    lemma {:induction false} RunHalted(c: Config, k: nat)
      requires Halted(c)
      ensures Run(c, k) == c
      decreases k
    {
      if k > 0 {
        RunHalted(c, k - 1);
      }
    }

    /** A machine that is still going after `k` steps was going after every fewer. */
    lemma StillGoing(c: Config, j: nat, k: nat)
      requires j <= k && !Halted(Run(c, k))
      ensures !Halted(Run(c, j))
    {
      RunAdd(c, j, k - j);
      if Halted(Run(c, j)) {
        RunHalted(Run(c, j), k - j);
      }
    }
  }
}
