/** The code generator as the source writes it: one pass that appends instruction
    words, takes and returns registers, and patches jumps once their targets are
    known. Each method is proved to write exactly the code of `CodeGen`. */
module Emitting {
  import opened Options
  import opened Syntax
  import opened Bytecode
  import opened CodeGen
  import Simulation
  import Program

  lemma EncodeAppend(f: seq<Instr>, i: Instr)
    ensures EncodeAll(f) + [Encode(i)] == EncodeAll(f + [i])
  {
  }

  /** Overwriting one word replaces one instruction. */
  lemma EncodePatch(f: seq<Instr>, p: Instr, g: seq<Instr>, i: Instr)
    ensures EncodeAll(f + [p] + g)[|f| := Encode(i)] == EncodeAll(f + [i] + g)
  {
  }

  lemma Assoc(f: seq<Instr>, g: seq<Instr>, h: seq<Instr>)
    ensures f + (g + h) == f + g + h
  {
  }

  lemma Assoc3(f: seq<Instr>, g: seq<Instr>, h: seq<Instr>, i: seq<Instr>)
    ensures f + (g + h + i) == f + g + h + i
  {
    Assoc(f, g + h, i);
    Assoc(f, g, h);
  }

  lemma Assoc4(f: seq<Instr>, g: seq<Instr>, h: seq<Instr>, i: seq<Instr>, j: seq<Instr>)
    ensures f + (g + h + i + j) == f + g + h + i + j
  {
    Assoc(f, g + h + i, j);
    Assoc3(f, g, h, i);
  }

  lemma Assoc5(f: seq<Instr>, g: seq<Instr>, h: seq<Instr>, i: seq<Instr>, j: seq<Instr>, k: seq<Instr>)
    ensures f + (g + h + i + j + k) == f + g + h + i + j + k
  {
    Assoc(f, g + h + i + j, k);
    Assoc4(f, g, h, i, j);
  }

  /** One item of a sequence, and what is left of it. */
  lemma SequenceItem(es: seq<Node>, i: nat, em: Emit, dest: int)
    requires i < |es|
    ensures var all := CompileSequence(es[i..], em, dest);
            if i == |es| - 1 then all == Compile(es[i], em, dest)
            else
              var o := Compile(es[i], em.Alloc(), em.next);
              var rest := CompileSequence(es[i + 1..], o.em.Free(em.next), dest);
              all == Out(o.code + rest.code, rest.em)
  {
    hide Compile;
    assert es[i..][1..] == es[i + 1..] && es[i..][0] == es[i];
  }

  lemma SequenceEnd(es: seq<Node>, em: Emit, dest: int)
    ensures es == [] ==> CompileSequence(es, em, dest) == Out([], em)
  {
  }

  class Emitter {
    var bytecode: seq<int>
    var pool: seq<Value>
    var nextReg: int
    var maxReg: int
    ghost var code: seq<Instr>  // the instructions that `bytecode` encodes

    ghost predicate Valid()
      reads this
    {
      bytecode == EncodeAll(code)
    }

    constructor ()
      ensures Valid() && code == [] && pool == [] && nextReg == 0 && maxReg == 0
    {
      bytecode, pool, nextReg, maxReg, code := [], [], 0, 0, [];
    }

    /** The part of the generator's state that the specification threads through. */
    ghost function State(sc: Scope): Emit
      reads this
    {
      Emit(nextReg, maxReg, pool, sc)
    }

    method EmitInstruction(i: Instr)
      requires Valid()
      modifies this`bytecode, this`code
      ensures Valid() && code == old(code) + [i]
    {
      EncodeAppend(code, i);
      bytecode := bytecode + [Encode(i)];
      code := code + [i];
    }

    /** Fills in the instruction that was reserved between `f` and `g`. */
    method Patch(at: int, i: Instr, ghost f: seq<Instr>, ghost p: Instr, ghost g: seq<Instr>)
      requires Valid() && code == f + [p] + g && at == |f|
      modifies this`bytecode, this`code
      ensures Valid() && code == f + [i] + g
    {
      EncodePatch(f, p, g, i);
      bytecode := bytecode[at := Encode(i)];
      code := f + [i] + g;
    }

    /** Takes the next register; `sc` is the scope the generator is in. */
    method AllocRegister(ghost sc: Scope) returns (r: int)
      modifies this`nextReg, this`maxReg
      ensures r == old(nextReg) && State(sc) == old(State(sc)).Alloc()
    {
      r := nextReg;
      nextReg := nextReg + 1;
      if nextReg > maxReg {
        maxReg := nextReg;
      }
    }

    /** Gives back the registers from `r` on. */
    method FreeRegisters(r: int, ghost sc: Scope)
      modifies this`nextReg
      ensures State(sc) == old(State(sc)).Free(r)
    {
      nextReg := r;
    }

    /** Index of `v` in the pool, which is extended if `v` is not in it. */
    method AddConstant(v: Value) returns (i: int)
      modifies this`pool
      ensures i == IndexOf(old(pool), v) && pool == Intern(old(pool), v)
    {
      i := 0;
      while i < |pool| && pool[i] != v
        invariant 0 <= i <= |pool|
        invariant IndexOf(pool, v) == i + IndexOf(pool[i..], v)
      {
        assert pool[i + 1..] == pool[i..][1..];
        i := i + 1;
      }
      if i == |pool| {
        pool := pool + [v];
      }
    }

    method EmitLit(v: Value, sc: Scope, dest: int)
      requires Valid()
      modifies this
      ensures var o := CompileLit(v, old(State(sc)), dest);
              Valid() && code == old(code) + o.code && State(sc) == o.em
    {
      match v
      case Num(n) =>
        if n.Integral? && -0x8000 <= n.i < 0x8000 {
          EmitInstruction(LoadInt(dest, n.i));
        } else {
          var ci := AddConstant(v);
          EmitInstruction(LoadConst(dest, ci));
        }
      case Str(_) =>
        var ci := AddConstant(v);
        EmitInstruction(LoadConst(dest, ci));
      case Boolean(b) => EmitInstruction(LoadBool(dest, if b then 1 else 0));
      case Null => EmitInstruction(LoadNull(dest));
      case _ => EmitInstruction(LoadUndefined(dest));
    }

    method EmitIdent(x: string, sc: Scope, dest: int) returns (sc': Scope)
      requires Valid()
      modifies this
      ensures var o := CompileIdent(x, old(State(sc)), dest);
              Valid() && code == old(code) + o.code && State(sc') == o.em
    {
      sc' := sc;
      match Find(sc, x)
      case Some(reg) =>
        if reg == UNALLOCATED {
          var r := AllocRegister(sc);
          sc' := Bind(sc, x, r);
          EmitInstruction(Move(dest, r));
        } else {
          EmitInstruction(Move(dest, reg));
        }
      case None =>
        var ci := AddConstant(Str(x));
        EmitInstruction(LoadGlobal(dest, ci));
    }

    method EmitStore(x: string, r: int, sc: Scope)
      requires Valid()
      modifies this
      ensures var o := CompileStore(x, r, old(State(sc)));
              Valid() && code == old(code) + o.code && State(sc) == o.em
    {
      match Find(sc, x)
      case Some(reg) => EmitInstruction(Move(reg, r));
      case None =>
        var ci := AddConstant(Str(x));
        EmitInstruction(StoreGlobal(r, ci));
    }

    /** Compiles `n` in scope `sc`, leaving its value in register `dest`. */
    method CompileNode(n: Node, sc: Scope, dest: int) returns (sc': Scope)
      requires Valid()
      modifies this
      ensures var o := Compile(n, old(State(sc)), dest);
              Valid() && code == old(code) + o.code && State(sc') == o.em
      decreases n, 4
    {
      match n
      case Lit(v) =>
        EmitLit(v, sc, dest);
        sc' := sc;
      case Ident(x) => sc' := EmitIdent(x, sc, dest);
      case Decl(_, _) => sc' := EmitDecl(n, sc, dest);
      case Assign(_, _) => sc' := EmitAssign(n, sc, dest);
      case OpAssign(_, _, _) => sc' := EmitOpAssign(n, sc, dest);
      case LogicAssign(_, _, _) => sc' := EmitLogicAssign(n, sc, dest);
      case Binary(_, _, _) => sc' := EmitBinary(n, sc, dest);
      case Logical(_, _, _) => sc' := EmitLogical(n, sc, dest);
      case Unary(_, _) => sc' := EmitUnary(n, sc, dest);
      case Prefix(_, _) => sc' := EmitPrefix(n, sc, dest);
      case Postfix(_, _) => sc' := EmitPostfix(n, sc, dest);
      case Ternary(_, _, _) => sc' := EmitTernary(n, sc, dest);
      case Sequence(es) => sc' := EmitSequence(es, sc, dest);
      case ExprStmt(e) => sc' := CompileNode(e, sc, dest);
      case Block(ss) => sc' := EmitBlock(ss, NewFrame(Declared(ss), sc), sc, dest);
      case If(_, _, _) => sc' := EmitIf(n, sc, dest);
      case While(_, _) => sc' := EmitWhile(n, sc, dest);
      case DoWhile(_, _) => sc' := EmitDoWhile(n, sc, dest);
      case Throw(_) => sc' := EmitThrow(n, sc, dest);
      case Try(_, _, _) => sc' := EmitTryFinally(n, sc, dest);
    }

    method EmitUnary(n: Node, sc: Scope, dest: int) returns (sc': Scope)
      requires n.Unary?
      requires Valid()
      modifies this
      ensures var o := Compile(n, old(State(sc)), dest);
              Valid() && code == old(code) + o.code && State(sc') == o.em
      decreases n, 1
    {
      hide Emit.Alloc, Compile, Find, EncodeAll;
      ghost var c0, e := code, State(sc);
      Simulation.Dispatch(n, e, dest);
      var r := AllocRegister(sc);
      ghost var o := Compile(n.arg, e.Alloc(), r);
      sc' := CompileNode(n.arg, sc, r);
      EmitInstruction(UnaryOp(n.unop, dest, r));
      FreeRegisters(r, sc');
      Assoc(c0, o.code, [UnaryOp(n.unop, dest, r)]);
    }

    method EmitThrow(n: Node, sc: Scope, dest: int) returns (sc': Scope)
      requires n.Throw?
      requires Valid()
      modifies this
      ensures var o := Compile(n, old(State(sc)), dest);
              Valid() && code == old(code) + o.code && State(sc') == o.em
      decreases n, 1
    {
      hide Emit.Alloc, Compile, Find, EncodeAll;
      ghost var c0, e := code, State(sc);
      Simulation.Dispatch(n, e, dest);
      var r := AllocRegister(sc);
      ghost var o := Compile(n.arg, e.Alloc(), r);
      sc' := CompileNode(n.arg, sc, r);
      EmitInstruction(ThrowReg(r));
      FreeRegisters(r, sc');
      EmitInstruction(LoadUndefined(dest));
      Assoc3(c0, o.code, [ThrowReg(r)], [LoadUndefined(dest)]);
    }

    method EmitBinary(n: Node, sc: Scope, dest: int) returns (sc': Scope)
      requires n.Binary?
      requires Valid()
      modifies this
      ensures var o := Compile(n, old(State(sc)), dest);
              Valid() && code == old(code) + o.code && State(sc') == o.em
      decreases n, 1
    {
      hide Emit.Alloc, Compile, Find, EncodeAll;
      ghost var c0, e := code, State(sc);
      Simulation.Dispatch(n, e, dest);
      var l := AllocRegister(sc);
      ghost var o1 := Compile(n.left, e.Alloc(), l);
      var s := CompileNode(n.left, sc, l);
      var r := AllocRegister(s);
      ghost var o2 := Compile(n.right, o1.em.Alloc(), r);
      sc' := CompileNode(n.right, s, r);
      EmitInstruction(BinaryOp(n.op, dest, l, r));
      FreeRegisters(r, sc');
      FreeRegisters(l, sc');
      Assoc3(c0, o1.code, o2.code, [BinaryOp(n.op, dest, l, r)]);
    }

    method EmitAssign(n: Node, sc: Scope, dest: int) returns (sc': Scope)
      requires n.Assign?
      requires Valid()
      modifies this
      ensures var o := Compile(n, old(State(sc)), dest);
              Valid() && code == old(code) + o.code && State(sc') == o.em
      decreases n, 1
    {
      hide Emit.Alloc, Compile, Find, EncodeAll;
      ghost var c0, e := code, State(sc);
      Simulation.Dispatch(n, e, dest);
      var v := AllocRegister(sc);
      ghost var o := Compile(n.rhs, e.Alloc(), v);
      sc' := CompileNode(n.rhs, sc, v);
      ghost var s := CompileStore(n.name, v, o.em);
      EmitStore(n.name, v, sc');
      EmitInstruction(Move(dest, v));
      FreeRegisters(v, sc');
      Assoc3(c0, o.code, s.code, [Move(dest, v)]);
    }

    method EmitOpAssign(n: Node, sc: Scope, dest: int) returns (sc': Scope)
      requires n.OpAssign?
      requires Valid()
      modifies this
      ensures var o := Compile(n, old(State(sc)), dest);
              Valid() && code == old(code) + o.code && State(sc') == o.em
      decreases n, 1
    {
      hide Emit.Alloc, Compile, Find, EncodeAll;
      ghost var c0, e := code, State(sc);
      Simulation.Dispatch(n, e, dest);
      var v := AllocRegister(sc);
      var l := AllocRegister(sc);
      ghost var o1 := CompileIdent(n.name, e.Alloc().Alloc(), l);
      var s1 := EmitIdent(n.name, sc, l);
      var r := AllocRegister(s1);
      ghost var o2 := Compile(n.rhs, o1.em.Alloc(), r);
      sc' := CompileNode(n.rhs, s1, r);
      EmitInstruction(BinaryOp(n.op, v, l, r));
      FreeRegisters(r, sc');
      FreeRegisters(l, sc');
      ghost var s := CompileStore(n.name, v, o2.em.Free(l));
      EmitStore(n.name, v, sc');
      EmitInstruction(Move(dest, v));
      FreeRegisters(v, sc');
      Assoc5(c0, o1.code, o2.code, [BinaryOp(n.op, v, l, r)], s.code, [Move(dest, v)]);
    }

    method EmitLogicAssign(n: Node, sc: Scope, dest: int) returns (sc': Scope)
      requires n.LogicAssign?
      requires Valid()
      modifies this
      ensures var o := Compile(n, old(State(sc)), dest);
              Valid() && code == old(code) + o.code && State(sc') == o.em
      decreases n, 1
    {
      hide Emit.Alloc, Compile, CompileStore, CompileIdent, SkipAssign, Find, EncodeAll;
      ghost var c0, e := code, State(sc);
      Simulation.Dispatch(n, e, dest);
      var v := AllocRegister(sc);
      ghost var o1 := CompileIdent(n.name, e.Alloc(), v);
      var s1 := EmitIdent(n.name, sc, v);
      if n.logic.Nullish? {
        sc' := EmitNullishAssign(n, s1, v, o1.em);
      } else {
        sc' := EmitLogicStore(n, s1, v, o1.em);
      }
      ghost var o2 := Compile(n.rhs, o1.em, v);
      ghost var s := CompileStore(n.name, v, o2.em);
      ghost var skip := SkipAssign(n.logic, v, |o2.code| + |s.code|);
      EmitInstruction(Move(dest, v));
      FreeRegisters(v, sc');
      Assoc3(c0 + o1.code, skip, o2.code, s.code);
      Assoc5(c0, o1.code, skip, o2.code, s.code, [Move(dest, v)]);
    }

    /** The guarded store of `&&=` and `||=`. */
    method EmitLogicStore(n: Node, sc: Scope, v: int, ghost em: Emit) returns (sc': Scope)
      requires n.LogicAssign? && !n.logic.Nullish? && Valid() && State(sc) == em
      modifies this
      ensures var o := Compile(n.rhs, em, v);
              var s := CompileStore(n.name, v, o.em);
              && Valid() && State(sc') == s.em
              && code == old(code) + (SkipAssign(n.logic, v, |o.code| + |s.code|) + o.code + s.code)
      decreases n, 0
    {
      hide Emit.Alloc, Compile, CompileStore, Find, EncodeAll;
      ghost var c0, hole := code, JumpIf(SkipGuard(n.logic), v, 0);
      ghost var o := Compile(n.rhs, em, v);
      ghost var s := CompileStore(n.name, v, o.em);
      var jump := |bytecode|;
      EmitInstruction(JumpIf(SkipGuard(n.logic), v, 0));
      sc' := CompileNode(n.rhs, sc, v);
      EmitStore(n.name, v, sc');
      Assoc(c0 + [hole], o.code, s.code);
      Patch(jump, JumpIf(SkipGuard(n.logic), v, |bytecode| - jump - 1), c0, hole, o.code + s.code);
      ghost var skip := SkipAssign(n.logic, v, |o.code| + |s.code|);
      Assoc(c0 + skip, o.code, s.code);
      Assoc3(c0, skip, o.code, s.code);
    }

    /** The guarded store of `??=`. */
    method EmitNullishAssign(n: Node, sc: Scope, v: int, ghost em: Emit) returns (sc': Scope)
      requires n.LogicAssign? && n.logic.Nullish? && Valid() && State(sc) == em
      modifies this
      ensures var o := Compile(n.rhs, em, v);
              var s := CompileStore(n.name, v, o.em);
              && Valid() && State(sc') == s.em
              && code == old(code) + (SkipAssign(n.logic, v, |o.code| + |s.code|) + o.code + s.code)
      decreases n, 0
    {
      hide Emit.Alloc, Compile, CompileStore, Find, EncodeAll;
      ghost var c0, hole := code, JumpIf(IfNullish, v, 0);
      ghost var o := Compile(n.rhs, em, v);
      ghost var s := CompileStore(n.name, v, o.em);
      var jump := |bytecode|;
      EmitInstruction(JumpIf(IfNullish, v, 0));
      var exit := |bytecode|;
      EmitInstruction(Jump(0));
      Patch(jump, JumpIf(IfNullish, v, |bytecode| - jump - 1), c0, hole, [Jump(0)]);
      ghost var f := c0 + [JumpIf(IfNullish, v, 1)];
      sc' := CompileNode(n.rhs, sc, v);
      EmitStore(n.name, v, sc');
      Assoc(f + [Jump(0)], o.code, s.code);
      Patch(exit, Jump(|bytecode| - exit - 1), f, Jump(0), o.code + s.code);
      ghost var len := |o.code| + |s.code|;
      ghost var skip := SkipAssign(n.logic, v, len);
      assert skip == [JumpIf(IfNullish, v, 1)] + [Jump(len)];
      Assoc(c0, [JumpIf(IfNullish, v, 1)], [Jump(len)]);
      Assoc(c0 + skip, o.code, s.code);
      Assoc3(c0, skip, o.code, s.code);
    }

    method EmitLogical(n: Node, sc: Scope, dest: int) returns (sc': Scope)
      requires n.Logical?
      requires Valid()
      modifies this
      ensures var o := Compile(n, old(State(sc)), dest);
              Valid() && code == old(code) + o.code && State(sc') == o.em
      decreases n, 1
    {
      hide Emit.Alloc, Compile, Find, EncodeAll;
      ghost var c0, e := code, State(sc);
      Simulation.Dispatch(n, e, dest);
      var l := AllocRegister(sc);
      ghost var o1 := Compile(n.left, e.Alloc(), l);
      var s1 := CompileNode(n.left, sc, l);
      if n.logic.Nullish? {
        sc' := EmitNullish(n, s1, dest, l, o1.em);
      } else {
        sc' := EmitShortCircuit(n, s1, dest, l, o1.em);
      }
      FreeRegisters(l, sc');
      ghost var r := o1.em.next;
      ghost var o2 := Compile(n.right, o1.em.Alloc(), r);
      Assoc3(c0 + o1.code, JoinLeft(n.logic, dest, l, |o2.code|), o2.code, JoinRight(n.logic, dest, l, r));
      Assoc4(c0, o1.code, JoinLeft(n.logic, dest, l, |o2.code|), o2.code, JoinRight(n.logic, dest, l, r));
    }

    /** The right operand of `||` and `&&`. */
    method EmitShortCircuit(n: Node, sc: Scope, dest: int, l: int, ghost em: Emit) returns (sc': Scope)
      requires n.Logical? && !n.logic.Nullish? && Valid() && State(sc) == em
      modifies this
      ensures var r := em.next;
              var o := Compile(n.right, em.Alloc(), r);
              && Valid() && State(sc') == o.em.Free(r)
              && code == old(code) + (JoinLeft(n.logic, dest, l, |o.code|) + o.code + JoinRight(n.logic, dest, l, r))
      decreases n, 0
    {
      hide Emit.Alloc, Compile, Find, EncodeAll;
      ghost var c0, hole := code, JumpIf(SkipGuard(n.logic), l, 0);
      var jump := |bytecode|;
      EmitInstruction(JumpIf(SkipGuard(n.logic), l, 0));
      var r := AllocRegister(sc);
      ghost var o := Compile(n.right, em.Alloc(), r);
      sc' := CompileNode(n.right, sc, r);
      EmitInstruction(Move(dest, r));
      FreeRegisters(r, sc');
      var exit := |bytecode|;
      EmitInstruction(Jump(0));
      Assoc3(c0 + [hole], o.code, [Move(dest, r)], [Jump(0)]);
      Patch(jump, JumpIf(SkipGuard(n.logic), l, |bytecode| - jump - 1), c0, hole, o.code + [Move(dest, r)] + [Jump(0)]);
      ghost var left := JoinLeft(n.logic, dest, l, |o.code|);
      Assoc3(c0 + left, o.code, [Move(dest, r)], [Jump(0)]);
      EmitInstruction(Move(dest, l));
      Patch(exit, Jump(|bytecode| - exit - 1), c0 + left + o.code + [Move(dest, r)], Jump(0), [Move(dest, l)]);
      assert JoinRight(n.logic, dest, l, r) == [Move(dest, r)] + [Jump(1)] + [Move(dest, l)];
      Assoc3(c0 + left + o.code, [Move(dest, r)], [Jump(1)], [Move(dest, l)]);
      Assoc3(c0, left, o.code, JoinRight(n.logic, dest, l, r));
    }

    /** The right operand of `??`. */
    method EmitNullish(n: Node, sc: Scope, dest: int, l: int, ghost em: Emit) returns (sc': Scope)
      requires n.Logical? && n.logic.Nullish? && Valid() && State(sc) == em
      modifies this
      ensures var r := em.next;
              var o := Compile(n.right, em.Alloc(), r);
              && Valid() && State(sc') == o.em.Free(r)
              && code == old(code) + (JoinLeft(n.logic, dest, l, |o.code|) + o.code + JoinRight(n.logic, dest, l, r))
      decreases n, 0
    {
      hide Emit.Alloc, Compile, Find, EncodeAll;
      ghost var c0, hole := code, JumpIf(IfNullish, l, 0);
      EmitInstruction(Move(dest, l));
      var jump := |bytecode|;
      EmitInstruction(JumpIf(IfNullish, l, 0));
      var exit := |bytecode|;
      EmitInstruction(Jump(0));
      Patch(jump, JumpIf(IfNullish, l, |bytecode| - jump - 1), c0 + [Move(dest, l)], hole, [Jump(0)]);
      ghost var f := c0 + [Move(dest, l)] + [JumpIf(IfNullish, l, 1)];
      var r := AllocRegister(sc);
      ghost var o := Compile(n.right, em.Alloc(), r);
      sc' := CompileNode(n.right, sc, r);
      EmitInstruction(Move(dest, r));
      FreeRegisters(r, sc');
      Assoc(f + [Jump(0)], o.code, [Move(dest, r)]);
      Patch(exit, Jump(|bytecode| - exit - 1), f, Jump(0), o.code + [Move(dest, r)]);
      ghost var left := JoinLeft(n.logic, dest, l, |o.code|);
      assert left == [Move(dest, l)] + [JumpIf(IfNullish, l, 1)] + [Jump(|o.code| + 1)];
      Assoc3(c0, [Move(dest, l)], [JumpIf(IfNullish, l, 1)], [Jump(|o.code| + 1)]);
      Assoc(c0 + left, o.code, [Move(dest, r)]);
      Assoc3(c0, left, o.code, [Move(dest, r)]);
    }

    method EmitPrefix(n: Node, sc: Scope, dest: int) returns (sc': Scope)
      requires n.Prefix?
      requires Valid()
      modifies this
      ensures var o := Compile(n, old(State(sc)), dest);
              Valid() && code == old(code) + o.code && State(sc') == o.em
      decreases n, 1
    {
      hide Emit.Alloc, Compile, Find, EncodeAll;
      ghost var c0, e := code, State(sc);
      Simulation.Dispatch(n, e, dest);
      var r := AllocRegister(sc);
      ghost var o := CompileIdent(n.name, e.Alloc(), r);
      sc' := EmitIdent(n.name, sc, r);
      var one := AllocRegister(sc');
      EmitInstruction(LoadInt(one, 1));
      EmitInstruction(BinaryOp(StepOp(n.step), dest, r, one));
      FreeRegisters(one, sc');
      ghost var s := CompileStore(n.name, dest, o.em.Alloc().Free(one));
      EmitStore(n.name, dest, sc');
      FreeRegisters(r, sc');
      Assoc4(c0, o.code, [LoadInt(one, 1)], [BinaryOp(StepOp(n.step), dest, r, one)], s.code);
    }

    method EmitPostfix(n: Node, sc: Scope, dest: int) returns (sc': Scope)
      requires n.Postfix?
      requires Valid()
      modifies this
      ensures var o := Compile(n, old(State(sc)), dest);
              Valid() && code == old(code) + o.code && State(sc') == o.em
      decreases n, 1
    {
      hide Emit.Alloc, Compile, Find, EncodeAll, CompileStore, CompileIdent;
      ghost var c0, e := code, State(sc);
      Simulation.Dispatch(n, e, dest);
      var r := AllocRegister(sc);
      ghost var o := CompileIdent(n.name, e.Alloc(), r);
      sc' := EmitIdent(n.name, sc, r);
      EmitInstruction(Move(dest, r));
      var one := AllocRegister(sc');
      ghost var e1 := o.em.Alloc();
      assert State(sc') == e1;
      EmitInstruction(LoadInt(one, 1));
      var t := AllocRegister(sc');
      ghost var e2 := e1.Alloc();
      assert State(sc') == e2;
      EmitInstruction(BinaryOp(StepOp(n.step), t, r, one));
      FreeRegisters(one, sc');
      ghost var s := CompileStore(n.name, t, e2.Free(one));
      EmitStore(n.name, t, sc');
      FreeRegisters(t, sc');
      FreeRegisters(r, sc');
      Assoc5(c0, o.code, [Move(dest, r)], [LoadInt(one, 1)], [BinaryOp(StepOp(n.step), t, r, one)], s.code);
    }

    method EmitTernary(n: Node, sc: Scope, dest: int) returns (sc': Scope)
      requires n.Ternary?
      requires Valid()
      modifies this
      ensures var o := Compile(n, old(State(sc)), dest);
              Valid() && code == old(code) + o.code && State(sc') == o.em
      decreases n, 1
    {
      hide Emit.Alloc, Compile, Find, EncodeAll;
      ghost var c0, e := code, State(sc);
      Simulation.Dispatch(n, e, dest);
      ghost var o1 := Compile(n.cond, e.Alloc(), e.next);
      ghost var o2 := Compile(n.thn, o1.em.Free(e.next), dest);
      ghost var o3 := Compile(n.els, o2.em, dest);
      ghost var branch := JumpIf(IfFalse, e.next, |o2.code| + 1);
      var exit, s2 := EmitChosen(n, sc, dest);
      sc' := CompileNode(n.els, s2, dest);
      Patch(exit, Jump(|bytecode| - exit - 1), c0 + o1.code + [branch] + o2.code, Jump(0), o3.code);
      Assoc5(c0, o1.code, [branch], o2.code, [Jump(|o3.code|)], o3.code);
    }

    /** The test and the first branch of the conditional operator, with a jump over the second. */
    method EmitChosen(n: Node, sc: Scope, dest: int) returns (exit: int, s2: Scope)
      requires n.Ternary? && Valid()
      modifies this
      ensures var e := old(State(sc));
              var o1 := Compile(n.cond, e.Alloc(), e.next);
              var o2 := Compile(n.thn, o1.em.Free(e.next), dest);
              && Valid() && State(s2) == o2.em
              && exit == |old(code)| + |o1.code| + 1 + |o2.code|
              && code == old(code) + o1.code + [JumpIf(IfFalse, e.next, |o2.code| + 1)] + o2.code + [Jump(0)]
      decreases n, 0
    {
      hide Emit.Alloc, Compile, Find, EncodeAll;
      ghost var c0, e := code, State(sc);
      var r := AllocRegister(sc);
      ghost var o1 := Compile(n.cond, e.Alloc(), r);
      var s1 := CompileNode(n.cond, sc, r);
      var jump := |bytecode|;
      ghost var hole := JumpIf(IfFalse, r, 0);
      EmitInstruction(JumpIf(IfFalse, r, 0));
      FreeRegisters(r, s1);
      ghost var o2 := Compile(n.thn, o1.em.Free(r), dest);
      s2 := CompileNode(n.thn, s1, dest);
      exit := |bytecode|;
      EmitInstruction(Jump(0));
      PatchOver(jump, JumpIf(IfFalse, r, |bytecode| - jump - 1), c0 + o1.code, hole, o2.code, Jump(0));
    }

    method EmitIf(n: Node, sc: Scope, dest: int) returns (sc': Scope)
      requires n.If?
      requires Valid()
      modifies this
      ensures var o := Compile(n, old(State(sc)), dest);
              Valid() && code == old(code) + o.code && State(sc') == o.em
      decreases n, 1
    {
      hide Emit.Alloc, Compile, Find, EncodeAll, CompileElse, CompileIf;
      ghost var c0, e := code, State(sc);
      Simulation.ShapeIf(n, e, dest);
      ghost var o1 := Compile(n.cond, e.Alloc(), e.next);
      ghost var o2 := Compile(n.thn, o1.em.Free(e.next).Alloc(), e.next);
      ghost var o3 := CompileElse(n.alt, o2.em.Free(e.next), e.next);
      ghost var branch := JumpIf(IfFalse, e.next, |o2.code| + 1);
      var exit, r, s2 := EmitThen(n, sc);
      sc' := EmitElse(n.alt, s2, r);
      FreeRegisters(r, sc');
      Patch(exit, Jump(|bytecode| - exit - 1), c0 + o1.code + [branch] + o2.code, Jump(0), o3.code);
      EmitInstruction(LoadUndefined(dest));
      ghost var front := o1.code + [branch] + o2.code + [Jump(|o3.code|)] + o3.code;
      Assoc5(c0, o1.code, [branch], o2.code, [Jump(|o3.code|)], o3.code);
      Assoc(c0, front, [LoadUndefined(dest)]);
    }

    /** The test and the first branch of `if`, with a jump over the second. */
    method EmitThen(n: Node, sc: Scope) returns (exit: int, r: int, s2: Scope)
      requires n.If? && Valid()
      modifies this
      ensures var e := old(State(sc));
              var o1 := Compile(n.cond, e.Alloc(), e.next);
              var o2 := Compile(n.thn, o1.em.Free(e.next).Alloc(), e.next);
              && Valid() && State(s2) == o2.em.Free(e.next) && r == e.next
              && exit == |old(code)| + |o1.code| + 1 + |o2.code|
              && code == old(code) + o1.code + [JumpIf(IfFalse, e.next, |o2.code| + 1)] + o2.code + [Jump(0)]
      decreases n, 0
    {
      hide Emit.Alloc, Compile, Find, EncodeAll;
      ghost var c0, e := code, State(sc);
      r := AllocRegister(sc);
      ghost var o1 := Compile(n.cond, e.Alloc(), r);
      var s1 := CompileNode(n.cond, sc, r);
      var jump := |bytecode|;
      ghost var hole := JumpIf(IfFalse, r, 0);
      EmitInstruction(JumpIf(IfFalse, r, 0));
      FreeRegisters(r, s1);
      var t := AllocRegister(s1);
      ghost var o2 := Compile(n.thn, o1.em.Free(r).Alloc(), r);
      s2 := CompileNode(n.thn, s1, t);
      FreeRegisters(t, s2);
      exit := |bytecode|;
      EmitInstruction(Jump(0));
      PatchOver(jump, JumpIf(IfFalse, r, |bytecode| - jump - 1), c0 + o1.code, hole, o2.code, Jump(0));
    }

    /** Fills in an instruction before `g` and one more. */
    method PatchOver(at: int, i: Instr, ghost f: seq<Instr>, ghost hole: Instr, ghost g: seq<Instr>, ghost last: Instr)
      requires Valid() && code == f + [hole] + g + [last] && at == |f|
      modifies this`bytecode, this`code
      ensures Valid() && code == f + [i] + g + [last]
    {
      hide EncodeAll;
      Assoc(f + [hole], g, [last]);
      Patch(at, i, f, hole, g + [last]);
      Assoc(f + [i], g, [last]);
    }

    method EmitElse(alt: Option<Node>, sc: Scope, r: int) returns (sc': Scope)
      requires r == nextReg
      requires Valid()
      modifies this
      ensures var o := CompileElse(alt, old(State(sc)), r);
              Valid() && code == old(code) + o.code && State(sc') == o.em
      decreases alt, 1
    {
      sc' := sc;
      if alt.Some? {
        var t := AllocRegister(sc);
        sc' := CompileNode(alt.value, sc, t);
      }
    }

    method EmitWhile(n: Node, sc: Scope, dest: int) returns (sc': Scope)
      requires n.While?
      requires Valid()
      modifies this
      ensures var o := Compile(n, old(State(sc)), dest);
              Valid() && code == old(code) + o.code && State(sc') == o.em
      decreases n, 1
    {
      hide Emit.Alloc, Compile, Find, EncodeAll;
      ghost var c0, e := code, State(sc);
      Simulation.Dispatch(n, e, dest);
      sc' := EmitLoop(n, sc);
      EmitInstruction(LoadUndefined(dest));
      ghost var o1 := Compile(n.cond, e.Alloc(), e.next);
      ghost var o2 := Compile(n.body, o1.em.Free(e.next).Alloc(), e.next);
      ghost var branch, back := JumpIf(IfFalse, e.next, |o2.code| + 1), Jump(-(|o1.code| + |o2.code| + 2));
      Assoc5(c0, o1.code, [branch], o2.code, [back], [LoadUndefined(dest)]);
    }

    /** The test, the body and the jump back of `while`. */
    method EmitLoop(n: Node, sc: Scope) returns (sc': Scope)
      requires n.While? && Valid()
      modifies this
      ensures var e := old(State(sc));
              var o1 := Compile(n.cond, e.Alloc(), e.next);
              var o2 := Compile(n.body, o1.em.Free(e.next).Alloc(), e.next);
              var branch, back := JumpIf(IfFalse, e.next, |o2.code| + 1), Jump(-(|o1.code| + |o2.code| + 2));
              && Valid() && State(sc') == o2.em.Free(e.next)
              && code == old(code) + o1.code + [branch] + o2.code + [back]
      decreases n, 0
    {
      hide Emit.Alloc, Compile, Find, EncodeAll;
      ghost var c0, e := code, State(sc);
      var start := |bytecode|;
      var r := AllocRegister(sc);
      ghost var o1 := Compile(n.cond, e.Alloc(), r);
      var s1 := CompileNode(n.cond, sc, r);
      var jump := |bytecode|;
      EmitInstruction(JumpIf(IfFalse, r, 0));
      FreeRegisters(r, s1);
      var t := AllocRegister(s1);
      ghost var o2 := Compile(n.body, o1.em.Free(r).Alloc(), r);
      sc' := CompileNode(n.body, s1, t);
      FreeRegisters(t, sc');
      ghost var back := Jump(start - |bytecode| - 1);
      EmitInstruction(Jump(start - |bytecode| - 1));
      PatchOver(jump, JumpIf(IfFalse, r, |bytecode| - jump - 1), c0 + o1.code, JumpIf(IfFalse, r, 0), o2.code, back);
    }

    method EmitDoWhile(n: Node, sc: Scope, dest: int) returns (sc': Scope)
      requires n.DoWhile?
      requires Valid()
      modifies this
      ensures var o := Compile(n, old(State(sc)), dest);
              Valid() && code == old(code) + o.code && State(sc') == o.em
      decreases n, 1
    {
      hide Emit.Alloc, Compile, Find, EncodeAll;
      ghost var c0, e := code, State(sc);
      Simulation.Dispatch(n, e, dest);
      var start := |bytecode|;
      var r := AllocRegister(sc);
      ghost var o1 := Compile(n.body, e.Alloc(), r);
      var s1 := CompileNode(n.body, sc, r);
      FreeRegisters(r, s1);
      var t := AllocRegister(s1);
      ghost var o2 := Compile(n.cond, o1.em.Free(r).Alloc(), r);
      sc' := CompileNode(n.cond, s1, t);
      EmitInstruction(JumpIf(IfTrue, t, start - |bytecode| - 1));
      FreeRegisters(t, sc');
      EmitInstruction(LoadUndefined(dest));
      ghost var back := JumpIf(IfTrue, r, -(|o1.code| + |o2.code| + 1));
      Assoc4(c0, o1.code, o2.code, [back], [LoadUndefined(dest)]);
    }

    method EmitDecl(n: Node, sc: Scope, dest: int) returns (sc': Scope)
      requires n.Decl?
      requires Valid()
      modifies this
      ensures var o := Compile(n, old(State(sc)), dest);
              Valid() && code == old(code) + o.code && State(sc') == o.em
      decreases n, 1
    {
      hide Emit.Alloc, Compile, Find, EncodeAll;
      ghost var c0, e := code, State(sc);
      Simulation.Dispatch(n, e, dest);
      var s1 := EmitPlace(n.name, sc);
      var t := AllocRegister(s1);
      ghost var e1 := e.Place(n.name);
      ghost var o := if n.init.Some? then Compile(n.init.value, e1.Alloc(), t) else Out([LoadUndefined(t)], e1.Alloc());
      if n.init.Some? {
        sc' := CompileNode(n.init.value, s1, t);
      } else {
        EmitInstruction(LoadUndefined(t));
        sc' := s1;
      }
      ghost var s := CompileStore(n.name, t, o.em);
      EmitStore(n.name, t, sc');
      FreeRegisters(t, sc');
      EmitInstruction(LoadUndefined(dest));
      Assoc3(c0, o.code, s.code, [LoadUndefined(dest)]);
    }

    /** Gives a symbol in scope its register, unless it has one. */
    method EmitPlace(x: string, sc: Scope) returns (sc': Scope)
      modifies this`nextReg, this`maxReg
      ensures State(sc') == old(State(sc)).Place(x)
    {
      sc' := sc;
      if Find(sc, x) == Some(UNALLOCATED) {
        var r := AllocRegister(sc);
        sc' := Bind(sc, x, r);
      }
    }

    method EmitSequence(es: seq<Node>, sc: Scope, dest: int) returns (sc': Scope)
      requires Valid()
      modifies this
      ensures var o := CompileSequence(es, old(State(sc)), dest);
              Valid() && code == old(code) + o.code && State(sc') == o.em
      decreases es, 1
    {
      ghost var whole := CompileSequence(es, State(sc), dest);
      ghost var goal := code + whole.code;
      sc' := sc;
      var i := 0;
      while i < |es|
        invariant 0 <= i <= |es| && Valid()
        invariant var rest := CompileSequence(es[i..], State(sc'), dest);
                  goal == code + rest.code && whole.em == rest.em
      {
        sc' := EmitItem(es, i, sc', dest);
        i := i + 1;
      }
    }

    /** One item of a sequence: only the last one goes to the target. */
    method EmitItem(es: seq<Node>, i: int, sc: Scope, dest: int) returns (sc': Scope)
      requires 0 <= i < |es| && Valid()
      modifies this
      ensures Valid()
      ensures var before := CompileSequence(es[i..], old(State(sc)), dest);
              var rest := CompileSequence(es[i + 1..], State(sc'), dest);
              old(code) + before.code == code + rest.code && before.em == rest.em
      decreases es, 0
    {
      hide Emit.Alloc, Compile, CompileSequence, EncodeAll;
      SequenceItem(es, i, State(sc), dest);
      ghost var c0, e := code, State(sc);
      if i == |es| - 1 {
        sc' := CompileNode(es[i], sc, dest);
        SequenceEnd(es[i + 1..], State(sc'), dest);
        assert code + [] == code;
      } else {
        var r := AllocRegister(sc);
        ghost var o := Compile(es[i], e.Alloc(), r);
        ghost var rest := CompileSequence(es[i + 1..], o.em.Free(r), dest);
        sc' := CompileNode(es[i], sc, r);
        FreeRegisters(r, sc');
        Assoc(c0, o.code, rest.code);
      }
    }

    /** The first register above every symbol of the innermost scope. */
    method FindBoundary(sc: Scope, r: int) returns (boundary: int)
      requires sc.Frame?
      ensures boundary == Boundary(sc.names, sc.regs, r)
    {
      boundary := r;
      var j := 0;
      while j < |sc.names|
        invariant 0 <= j <= |sc.names|
        invariant Boundary(sc.names, sc.regs, r) == Boundary(sc.names[j..], sc.regs, boundary)
      {
        var x := sc.names[j];
        assert sc.names[j..][1..] == sc.names[j + 1..];
        if x in sc.regs && sc.regs[x] >= boundary {
          boundary := sc.regs[x] + 1;
        }
        j := j + 1;
      }
    }

    method EmitBlock(ss: seq<Node>, frame: Scope, sc: Scope, dest: int) returns (sc': Scope)
      requires Valid()
      modifies this
      ensures var o := CompileBlock(ss, frame, old(State(sc)), dest);
              Valid() && code == old(code) + o.code && State(sc') == o.em
      decreases ss, 1
    {
      ghost var c0, whole := code, CompileStmts(ss, State(frame));
      ghost var goal := code + whole.code;
      var base, inner := nextReg, frame;
      var i := 0;
      while i < |ss|
        invariant 0 <= i <= |ss| && Valid()
        invariant var rest := CompileStmts(ss[i..], State(inner));
                  goal == code + rest.code && whole.em == rest.em
      {
        inner := EmitStmt(ss, i, inner);
        i := i + 1;
      }
      nextReg := base;
      sc' := if inner.Frame? then inner.outer else Root;
      EmitInstruction(LoadUndefined(dest));
      Assoc(c0, whole.code, [LoadUndefined(dest)]);
    }

    /** One statement of a block; its temporaries are dropped. */
    method EmitStmt(ss: seq<Node>, i: int, sc: Scope) returns (sc': Scope)
      requires 0 <= i < |ss| && Valid()
      modifies this
      ensures Valid()
      ensures var before := CompileStmts(ss[i..], old(State(sc)));
              var rest := CompileStmts(ss[i + 1..], State(sc'));
              old(code) + before.code == code + rest.code && before.em == rest.em
      decreases ss, 0
    {
      hide Emit.Alloc, Compile, CompileStmts, Boundary, EncodeAll;
      assert ss[i..][1..] == ss[i + 1..] && ss[i..][0] == ss[i];
      ghost var c0, e := code, State(sc);
      Simulation.ShapeStmts(ss[i..], e);
      var r := AllocRegister(sc);
      ghost var o := Compile(ss[i], e.Alloc(), r);
      ghost var rest := CompileStmts(ss[i + 1..], AfterStmt(o.em, r));
      sc' := CompileNode(ss[i], sc, r);
      var boundary := r + 1;
      if sc'.Frame? {
        boundary := FindBoundary(sc', r + 1);
      }
      FreeRegisters(boundary, sc');
      Assoc(c0, o.code, rest.code);
    }

    method EmitTryFinally(n: Node, sc: Scope, dest: int) returns (sc': Scope)
      requires n.Try?
      requires Valid()
      modifies this
      ensures var o := Compile(n, old(State(sc)), dest);
              Valid() && code == old(code) + o.code && State(sc') == o.em
      decreases n, 3
    {
      hide Emit.Alloc, Compile, Find, EncodeAll, CompileTry, Guarded;
      ghost var c0, e := code, State(sc);
      Simulation.Dispatch(n, e, dest);
      ghost var o1 := CompileTry(n, e);
      if n.finalizer.None? {
        sc' := EmitTry(n, sc);
        EmitInstruction(LoadUndefined(dest));
        Assoc(c0, o1.code, [LoadUndefined(dest)]);
        return;
      }
      ghost var x := o1.em.next;
      ghost var em2 := o1.em.Alloc();
      ghost var o2 := Compile(n.finalizer.value, em2.Alloc(), em2.next);
      ghost var catcher := [CatchBegin(x)] + o2.code + [ThrowReg(x)];
      var s1 := EmitRethrow(n, sc);
      var t := AllocRegister(s1);
      ghost var o3 := Compile(n.finalizer.value, o2.em.Free(x).Alloc(), x);
      sc' := CompileNode(n.finalizer.value, s1, t);
      FreeRegisters(t, sc');
      EmitInstruction(LoadUndefined(dest));
      Assoc3(c0, Guarded(o1.code, catcher), o3.code, [LoadUndefined(dest)]);
    }

    /** The region protected by `finally`, and the copy of the finalizer that rethrows. */
    method EmitRethrow(n: Node, sc: Scope) returns (sc': Scope)
      requires n.Try? && n.finalizer.Some? && Valid()
      modifies this
      ensures var o1 := CompileTry(n, old(State(sc)));
              var x, em2 := o1.em.next, o1.em.Alloc();
              var o2 := Compile(n.finalizer.value, em2.Alloc(), em2.next);
              && Valid() && State(sc') == o2.em.Free(x)
              && code == old(code) + Guarded(o1.code, [CatchBegin(x)] + o2.code + [ThrowReg(x)])
      decreases n, 2
    {
      hide Emit.Alloc, Compile, CompileTry, Guarded, Find, EncodeAll;
      ghost var c0, o1 := code, CompileTry(n, State(sc));
      var exit, s1 := EmitGuarded(n, sc);
      ghost var front := code;
      var x := AllocRegister(s1);
      EmitInstruction(CatchBegin(x));
      var t := AllocRegister(s1);
      ghost var em2 := o1.em.Alloc();
      ghost var o2 := Compile(n.finalizer.value, em2.Alloc(), em2.next);
      sc' := CompileNode(n.finalizer.value, s1, t);
      FreeRegisters(t, sc');
      EmitInstruction(ThrowReg(x));
      FreeRegisters(x, sc');
      Assoc3(front, [CatchBegin(x)], o2.code, [ThrowReg(x)]);
      PatchExit(exit, c0, o1.code, [CatchBegin(x)] + o2.code + [ThrowReg(x)]);
    }

    /** The block and its catch clause, protected once more for `finally`. */
    method EmitGuarded(n: Node, sc: Scope) returns (exit: int, s1: Scope)
      requires n.Try? && Valid()
      modifies this
      ensures var o1 := CompileTry(n, old(State(sc)));
              && Valid() && State(s1) == o1.em && exit == |old(code)| + |o1.code| + 2
              && code == old(code) + [TryBegin(|o1.code| + 2)] + o1.code + [TryEnd] + [Jump(0)]
      decreases n, 1
    {
      hide Emit.Alloc, Compile, CompileTry, Guarded, Find, EncodeAll;
      ghost var c0, o1 := code, CompileTry(n, State(sc));
      var outer := |bytecode|;
      EmitInstruction(TryBegin(0));
      s1 := EmitTry(n, sc);
      EmitInstruction(TryEnd);
      exit := |bytecode|;
      EmitInstruction(Jump(0));
      PatchGuard(outer, c0, o1.code);
    }

    /** Points the handler of a region at the code that follows its two final instructions. */
    method PatchGuard(at: int, ghost f: seq<Instr>, ghost body: seq<Instr>)
      requires Valid() && code == f + [TryBegin(0)] + body + [TryEnd] + [Jump(0)] && at == |f|
      modifies this`bytecode, this`code
      ensures Valid() && code == f + [TryBegin(|body| + 2)] + body + [TryEnd] + [Jump(0)]
    {
      hide EncodeAll;
      Assoc3(f + [TryBegin(0)], body, [TryEnd], [Jump(0)]);
      Patch(at, TryBegin(|bytecode| - at - 1), f, TryBegin(0), body + [TryEnd] + [Jump(0)]);
      Assoc3(f + [TryBegin(|body| + 2)], body, [TryEnd], [Jump(0)]);
    }

    /** Lets the normal end of a region jump over its handler. */
    method PatchExit(exit: int, ghost f: seq<Instr>, ghost body: seq<Instr>, ghost catcher: seq<Instr>)
      requires Valid() && exit == |f| + |body| + 2
      requires code == f + [TryBegin(|body| + 2)] + body + [TryEnd] + [Jump(0)] + catcher
      modifies this`bytecode, this`code
      ensures Valid() && code == f + Guarded(body, catcher)
    {
      hide EncodeAll;
      Patch(exit, Jump(|bytecode| - exit - 1), f + [TryBegin(|body| + 2)] + body + [TryEnd], Jump(0), catcher);
      Assoc5(f, [TryBegin(|body| + 2)], body, [TryEnd], [Jump(|catcher|)], catcher);
    }

    /** The protected block and its handler. */
    method EmitTry(n: Node, sc: Scope) returns (sc': Scope)
      requires n.Try? && Valid()
      modifies this
      ensures var o := CompileTry(n, old(State(sc)));
              Valid() && code == old(code) + o.code && State(sc') == o.em
      decreases n, 0
    {
      hide Emit.Alloc, Compile, CompileHandler, CompileTry, Guarded, Find, EncodeAll;
      ghost var c0, e := code, State(sc);
      Simulation.ShapeTry(n, e);
      ghost var o1 := Compile(n.body, e.Alloc(), e.next);
      var exit, s1 := EmitProtected(n, sc);
      ghost var front := code;
      var err := AllocRegister(s1);
      EmitInstruction(CatchBegin(err));
      ghost var o2 := CompileHandler(n.handler, err, o1.em.Free(e.next).Alloc());
      sc' := EmitHandler(n.handler, err, s1);
      FreeRegisters(err, sc');
      Assoc(front, [CatchBegin(err)], o2.code);
      PatchExit(exit, c0, o1.code, [CatchBegin(err)] + o2.code);
    }

    /** The protected block, which ends in a jump over its handler. */
    method EmitProtected(n: Node, sc: Scope) returns (exit: int, s1: Scope)
      requires n.Try? && Valid()
      modifies this
      ensures var e := old(State(sc));
              var o1 := Compile(n.body, e.Alloc(), e.next);
              && Valid() && State(s1) == o1.em.Free(e.next) && exit == |old(code)| + |o1.code| + 2
              && code == old(code) + [TryBegin(|o1.code| + 2)] + o1.code + [TryEnd] + [Jump(0)]
      decreases n, -1
    {
      hide Emit.Alloc, Compile, Find, EncodeAll;
      ghost var c0, e := code, State(sc);
      var inner := |bytecode|;
      EmitInstruction(TryBegin(0));
      var r := AllocRegister(sc);
      ghost var o1 := Compile(n.body, e.Alloc(), r);
      s1 := CompileNode(n.body, sc, r);
      FreeRegisters(r, s1);
      EmitInstruction(TryEnd);
      exit := |bytecode|;
      EmitInstruction(Jump(0));
      PatchGuard(inner, c0, o1.code);
    }

    method EmitHandler(h: Option<Catch>, err: int, sc: Scope) returns (sc': Scope)
      requires Valid()
      modifies this
      ensures var o := CompileHandler(h, err, old(State(sc)));
              Valid() && code == old(code) + o.code && State(sc') == o.em
      decreases h, 0
    {
      sc' := sc;
      if h.None? {
        EmitInstruction(ThrowReg(err));
      } else {
        sc' := EmitCatch(h.value, err, sc);
      }
    }

    method EmitCatch(c: Catch, err: int, sc: Scope) returns (sc': Scope)
      requires Valid()
      modifies this
      ensures var o := CompileCatch(c, err, old(State(sc)));
              Valid() && code == old(code) + o.code && State(sc') == o.em
      decreases c, 0
    {
      hide CompileBlock, EncodeAll, Find;
      ghost var c0, e := code, State(sc);
      ghost var bind := CompileParam(c, err, e);
      var frame := NewFrame(CatchNames(c), sc);
      if c.param.Some? {
        frame := EmitPlace(c.param.value, frame);
        EmitStore(c.param.value, err, frame);
      }
      var d := AllocRegister(frame);
      ghost var o := CompileBlock(c.stmts, frame, bind.em.Alloc(), d);
      sc' := EmitBlock(c.stmts, frame, frame, d);
      Assoc(c0, bind.code, o.code);
    }

    /** The entry point: the program's block into the first register, and its return. */
    method CompileSource(ss: seq<Node>) returns (registerCount: int)
      requires Valid() && code == [] && pool == [] && nextReg == 0 && maxReg == 0
      modifies this
      ensures var o := Program.CompileProgram(ss);
              && bytecode == EncodeAll(o.code) && pool == o.em.pool && registerCount == o.em.max
    {
      hide Emit.Alloc, Compile, EncodeAll;
      ghost var e := State(Root);
      var r := AllocRegister(Root);
      ghost var o := Compile(Block(ss), e.Alloc(), r);
      var sc := CompileNode(Block(ss), Root, r);
      EmitInstruction(Return(r));
      assert code == o.code + [Return(r)];
      registerCount := maxReg;
    }
  }
}
