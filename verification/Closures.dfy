/** Environments at run time: closures keep the environment of their creation, calls begin
    in it, and functions with captured variables make their own after their parameter
    defaults. Any activation may go on at any time, as callbacks and coroutines do. */
module Closures {
  import opened Options
  import opened LexicalAddressing

  /** `act` is the activation that made the environment. */
  datatype Env = Env(parent: int, slots: seq<int>, act: int)

  /** `act` is the activation that made the closure, in its defaults if `early`. */
  datatype Closure = Closure(fn: int, env: int, act: int, early: bool)

  /** A call of function `fn`, in its defaults if `early`; `own` is the environment that it
      made, `link` the activation that made the closure, `linkEarly` whether in its defaults.
      The machine has `fn` and `env` only; the others say how they came about. */
  datatype Act = Act(fn: int, env: int, early: bool, own: int, link: int, linkEarly: bool, running: bool)

  datatype State = State(envs: seq<Env>, closures: seq<Closure>, acts: seq<Act>)

  datatype Step =
    | Close(a: nat, fn: int)   // activation `a` makes a closure of a function of its code
    | Call(k: nat)             // closure `k` is called
    | Enter(a: nat)            // the defaults are done: the environment is made
    | Store(a: nat, depth: nat, slot: nat, value: int)
    | Return(a: nat)

  function Init(): State { State([], [], [Act(0, -1, true, -1, -1, false, true)]) }

  /** Whether code of scope `c` belongs to the parameter defaults of its function. */
  function Phase(s: Scopes, c: int, early: bool): bool
    requires Nested(s) && 0 <= c < |s|
    decreases c
  {
    if s[c].isFunction then early else Phase(s, s[c].parent, s[c].early)
  }

  /** Function `fn` is created by code of function `outer`, in its defaults if `early`. */
  predicate Inside(s: Scopes, fn: int, outer: int, early: bool)
    requires Nested(s)
  {
    && 0 < fn < |s| && s[fn].isFunction
    && Enclosing(s, s[fn].parent) == outer && Phase(s, s[fn].parent, s[fn].early) == early
  }

  predicate Linked(envs: seq<Env>) { forall e :: 0 <= e < |envs| ==> -1 <= envs[e].parent < e }

  /** The environments from `e` on. */
  function Ups(envs: seq<Env>, e: int): (r: seq<int>)
    requires Linked(envs) && -1 <= e < |envs|
    ensures forall i :: 0 <= i < |r| ==> 0 <= r[i] <= e
    decreases e
  {
    if e == -1 then [] else [e] + Ups(envs, envs[e].parent)
  }

  predicate Enabled(s: Scopes, t: State, step: Step)
    requires Nested(s) && Linked(t.envs)
  {
    match step
    case Close(a, fn) => a < |t.acts| && t.acts[a].running && Inside(s, fn, t.acts[a].fn, t.acts[a].early)
    case Call(k) => k < |t.closures|
    case Enter(a) => a < |t.acts| && t.acts[a].running && t.acts[a].early && 0 <= t.acts[a].fn < |s|
    case Store(a, depth, slot, _) =>
      && a < |t.acts| && t.acts[a].running && -1 <= t.acts[a].env < |t.envs|
      && depth < |Ups(t.envs, t.acts[a].env)| && slot < |t.envs[Ups(t.envs, t.acts[a].env)[depth]].slots|
    case Return(a) => a < |t.acts| && t.acts[a].running
  }

  function Apply(s: Scopes, t: State, step: Step): State
    requires Nested(s) && Linked(t.envs) && Enabled(s, t, step)
  {
    match step
    case Close(a, fn) => t.(closures := t.closures + [Closure(fn, t.acts[a].env, a, t.acts[a].early)])
    case Call(k) =>
      var c := t.closures[k];
      t.(acts := t.acts + [Act(c.fn, c.env, true, -1, c.act, c.early, true)])
    case Enter(a) =>
      var n, act := s[t.acts[a].fn].captures, t.acts[a];
      if n == 0 then t.(acts := t.acts[a := act.(early := false)])
      else
        t.(envs := t.envs + [Env(act.env, seq(n, _ => 0), a)],
           acts := t.acts[a := act.(early := false, env := |t.envs|, own := |t.envs|)])
    case Store(a, depth, slot, value) =>
      var e := Ups(t.envs, t.acts[a].env)[depth];
      t.(envs := t.envs[e := t.envs[e].(slots := t.envs[e].slots[slot := value])])
    case Return(a) => t.(acts := t.acts[a := t.acts[a].(running := false)])
  }

  // ------------------------------------------------------------ what always holds

  /** Activations were created by earlier ones, by code around them. */
  predicate WellMade(s: Scopes, acts: seq<Act>)
    requires Nested(s)
  {
    forall a :: 0 <= a < |acts| ==> MadeAt(s, acts, a)
  }

  predicate MadeAt(s: Scopes, acts: seq<Act>, a: int)
    requires Nested(s) && 0 <= a < |acts|
  {
    var act := acts[a];
    && -1 <= act.link < a && 0 <= act.fn < |s| && s[act.fn].isFunction
    && if act.link == -1 then act.fn == 0 else Creates(s, acts, act.link, act.fn, act.linkEarly)
  }

  /** Activation `a` has come to where function `fn` is created. */
  predicate Creates(s: Scopes, acts: seq<Act>, a: int, fn: int, early: bool)
    requires Nested(s)
  {
    0 <= a < |acts| && Inside(s, fn, acts[a].fn, early) && (!early ==> !acts[a].early)
  }

  /** The environments that code of activation `a` should see: those of the activations
      around it, as far as they had been made when it was created. */
  function Around(s: Scopes, acts: seq<Act>, a: int, early: bool): seq<int>
    requires Nested(s) && WellMade(s, acts) && -1 <= a < |acts|
    decreases a
  {
    if a == -1 then []
    else
      assert MadeAt(s, acts, a);
      (if s[acts[a].fn].captures > 0 && !early then [acts[a].own] else [])
      + Around(s, acts, acts[a].link, acts[a].linkEarly)
  }

  predicate EnvOk(s: Scopes, t: State, e: int)
    requires Nested(s) && WellMade(s, t.acts) && 0 <= e < |t.envs|
  {
    var a := t.envs[e].act;
    && 0 <= a < |t.acts| && t.acts[a].own == e && 0 <= t.acts[a].fn < |s|
    && |t.envs[e].slots| == s[t.acts[a].fn].captures
  }

  predicate ActOk(s: Scopes, t: State, a: int)
    requires Nested(s) && Linked(t.envs) && WellMade(s, t.acts) && 0 <= a < |t.acts|
  {
    var act := t.acts[a];
    && -1 <= act.env < |t.envs| && -1 <= act.own < |t.envs| && 0 <= act.fn < |s|
    && (act.early ==> act.own == -1)
    && (!act.early && s[act.fn].captures > 0 ==> act.own >= 0)
    && (act.own >= 0 ==> t.envs[act.own].act == a)
    && Ups(t.envs, act.env) == Around(s, t.acts, a, act.early)
  }

  predicate ClosureOk(s: Scopes, t: State, k: int)
    requires Nested(s) && Linked(t.envs) && WellMade(s, t.acts) && 0 <= k < |t.closures|
  {
    var c := t.closures[k];
    && -1 <= c.env < |t.envs| && Creates(s, t.acts, c.act, c.fn, c.early)
    && Ups(t.envs, c.env) == Around(s, t.acts, c.act, c.early)
  }

  ghost predicate Inv(s: Scopes, t: State) {
    && Nested(s) && Linked(t.envs) && WellMade(s, t.acts)
    && (forall e :: 0 <= e < |t.envs| ==> EnvOk(s, t, e))
    && (forall a :: 0 <= a < |t.acts| ==> ActOk(s, t, a))
    && (forall k :: 0 <= k < |t.closures| ==> ClosureOk(s, t, k))
  }

  lemma {:induction false} UpsSame(envs: seq<Env>, more: seq<Env>, e: int)
    requires Linked(envs) && Linked(more) && |envs| <= |more| && -1 <= e < |envs|
    requires forall i :: 0 <= i < |envs| ==> more[i].parent == envs[i].parent
    ensures Ups(more, e) == Ups(envs, e)
    decreases e
  {
    if e >= 0 { UpsSame(envs, more, envs[e].parent); }
  }

  /** `more` are the activations `acts`, some of which have gone on, and perhaps others. */
  predicate Goes(acts: seq<Act>, more: seq<Act>) {
    |acts| <= |more| && forall a :: 0 <= a < |acts| ==>
      && more[a].fn == acts[a].fn && more[a].link == acts[a].link && more[a].linkEarly == acts[a].linkEarly
      && (!acts[a].early ==> !more[a].early && more[a].own == acts[a].own)
  }

  lemma {:induction false} AroundSame(s: Scopes, acts: seq<Act>, more: seq<Act>, a: int, early: bool)
    requires Nested(s) && WellMade(s, acts) && WellMade(s, more) && Goes(acts, more)
    requires -1 <= a < |acts| && (a >= 0 && !early ==> !acts[a].early)
    ensures Around(s, more, a, early) == Around(s, acts, a, early)
    decreases a
  {
    if a >= 0 {
      assert MadeAt(s, acts, a) && MadeAt(s, more, a);
      AroundSame(s, acts, more, acts[a].link, acts[a].linkEarly);
    }
  }

  lemma WellMadeGoes(s: Scopes, acts: seq<Act>, more: seq<Act>)
    requires Nested(s) && WellMade(s, acts) && Goes(acts, more)
    requires forall a :: |acts| <= a < |more| ==> MadeAt(s, more, a)
    ensures WellMade(s, more)
  {
    forall a | 0 <= a < |more|
      ensures MadeAt(s, more, a)
    {
      if a < |acts| { assert MadeAt(s, acts, a); }
    }
  }

  /** What a step does not touch stays right. */
  lemma Undisturbed(s: Scopes, t: State, u: State)
    requires Inv(s, t) && Linked(u.envs) && WellMade(s, u.acts) && Goes(t.acts, u.acts) && |t.envs| <= |u.envs|
    requires forall e :: 0 <= e < |t.envs| ==> u.envs[e].parent == t.envs[e].parent
    ensures forall k :: 0 <= k < |t.closures| ==>
              var c := t.closures[k];
              && -1 <= c.env < |t.envs| && Creates(s, u.acts, c.act, c.fn, c.early)
              && Ups(u.envs, c.env) == Around(s, u.acts, c.act, c.early)
    ensures forall a :: 0 <= a < |t.acts| && (u.acts[a].early == t.acts[a].early) ==>
              -1 <= t.acts[a].env < |t.envs| && Ups(u.envs, t.acts[a].env) == Around(s, u.acts, a, u.acts[a].early)
  {
    forall k | 0 <= k < |t.closures|
      ensures var c := t.closures[k];
              && -1 <= c.env < |t.envs| && Creates(s, u.acts, c.act, c.fn, c.early)
              && Ups(u.envs, c.env) == Around(s, u.acts, c.act, c.early)
    {
      var c := t.closures[k];
      assert ClosureOk(s, t, k);
      UpsSame(t.envs, u.envs, c.env);
      AroundSame(s, t.acts, u.acts, c.act, c.early);
    }
    forall a | 0 <= a < |t.acts| && u.acts[a].early == t.acts[a].early
      ensures -1 <= t.acts[a].env < |t.envs| && Ups(u.envs, t.acts[a].env) == Around(s, u.acts, a, u.acts[a].early)
    {
      assert ActOk(s, t, a);
      UpsSame(t.envs, u.envs, t.acts[a].env);
      AroundSame(s, t.acts, u.acts, a, t.acts[a].early);
    }
  }

  lemma InvInit(s: Scopes)
    requires Nested(s)
    ensures Inv(s, Init())
  {
    assert MadeAt(s, Init().acts, 0);
  }

  lemma KeepsClose(s: Scopes, t: State, step: Step)
    requires Inv(s, t) && Enabled(s, t, step) && step.Close?
    ensures Inv(s, Apply(s, t, step))
  {
    var u := Apply(s, t, step);
    assert ActOk(s, t, step.a);
    forall e | 0 <= e < |u.envs| ensures EnvOk(s, u, e) { assert EnvOk(s, t, e); }
    forall a | 0 <= a < |u.acts| ensures ActOk(s, u, a) { assert ActOk(s, t, a); }
    forall k | 0 <= k < |u.closures|
      ensures ClosureOk(s, u, k)
    {
      if k < |t.closures| { assert ClosureOk(s, t, k); }
    }
  }

  lemma KeepsCall(s: Scopes, t: State, step: Step)
    requires Inv(s, t) && Enabled(s, t, step) && step.Call?
    ensures Inv(s, Apply(s, t, step))
  {
    var u, c := Apply(s, t, step), t.closures[step.k];
    assert ClosureOk(s, t, step.k);
    assert MadeAt(s, u.acts, |t.acts|);
    WellMadeGoes(s, t.acts, u.acts);
    Undisturbed(s, t, u);
    forall e | 0 <= e < |u.envs| ensures EnvOk(s, u, e) { assert EnvOk(s, t, e); }
    forall a | 0 <= a < |u.acts|
      ensures ActOk(s, u, a)
    {
      if a < |t.acts| {
        assert ActOk(s, t, a);
      } else {
        assert Around(s, u.acts, a, true) == [] + Around(s, u.acts, c.act, c.early);
      }
    }
    forall k | 0 <= k < |u.closures| ensures ClosureOk(s, u, k) { assert ClosureOk(s, t, k); }
  }

  lemma KeepsEnter(s: Scopes, t: State, step: Step)
    requires Inv(s, t) && Enabled(s, t, step) && step.Enter?
    ensures Inv(s, Apply(s, t, step))
  {
    var u, b := Apply(s, t, step), step.a;
    assert ActOk(s, t, b) && MadeAt(s, t.acts, b);
    WellMadeGoes(s, t.acts, u.acts);
    Undisturbed(s, t, u);
    forall e | 0 <= e < |u.envs|
      ensures EnvOk(s, u, e)
    {
      if e < |t.envs| { assert EnvOk(s, t, e); }
    }
    forall a | 0 <= a < |u.acts|
      ensures ActOk(s, u, a)
    {
      assert ActOk(s, t, a);
      if a == b { EnterAround(s, t, u, b); }
    }
    forall k | 0 <= k < |u.closures| ensures ClosureOk(s, u, k) { assert ClosureOk(s, t, k); }
  }

  /** The environment that is made goes on top of those around. */
  lemma EnterAround(s: Scopes, t: State, u: State, b: nat)
    requires Inv(s, t) && b < |t.acts| && Enabled(s, t, Enter(b)) && u == Apply(s, t, Enter(b))
    requires Linked(u.envs) && WellMade(s, u.acts) && Goes(t.acts, u.acts)
    ensures -1 <= u.acts[b].env < |u.envs| && Ups(u.envs, u.acts[b].env) == Around(s, u.acts, b, false)
  {
    assert ActOk(s, t, b) && MadeAt(s, t.acts, b) && MadeAt(s, u.acts, b);
    var act := t.acts[b];
    UpsSame(t.envs, u.envs, act.env);
    AroundSame(s, t.acts, u.acts, act.link, act.linkEarly);
    assert Around(s, t.acts, b, true) == [] + Around(s, t.acts, act.link, act.linkEarly);
  }

  lemma KeepsOther(s: Scopes, t: State, step: Step)
    requires Inv(s, t) && Enabled(s, t, step) && (step.Store? || step.Return?)
    ensures Inv(s, Apply(s, t, step))
  {
    var u := Apply(s, t, step);
    WellMadeGoes(s, t.acts, u.acts);
    Undisturbed(s, t, u);
    forall e | 0 <= e < |u.envs| ensures EnvOk(s, u, e) { assert EnvOk(s, t, e); }
    forall a | 0 <= a < |u.acts| ensures ActOk(s, u, a) { assert ActOk(s, t, a); }
    forall k | 0 <= k < |u.closures| ensures ClosureOk(s, u, k) { assert ClosureOk(s, t, k); }
  }

  /** Every step keeps the invariant. */
  lemma InvStep(s: Scopes, t: State, step: Step)
    requires Inv(s, t) && Enabled(s, t, step)
    ensures Inv(s, Apply(s, t, step))
  {
    hide Inv, Enabled, Apply;
    match step
    case Close(_, _) => KeepsClose(s, t, step);
    case Call(_) => KeepsCall(s, t, step);
    case Enter(_) => KeepsEnter(s, t, step);
    case Store(_, _, _, _) => KeepsOther(s, t, step);
    case Return(_) => KeepsOther(s, t, step);
  }

  ghost predicate IsRun(s: Scopes, t: State, steps: seq<Step>, u: State)
    requires Nested(s)
    decreases |steps|
  {
    if |steps| == 0 then u == t
    else Linked(t.envs) && Enabled(s, t, steps[0]) && IsRun(s, Apply(s, t, steps[0]), steps[1..], u)
  }

  lemma {:induction false} RunKeeps(s: Scopes, t: State, steps: seq<Step>, u: State)
    requires Inv(s, t) && IsRun(s, t, steps, u)
    ensures Inv(s, u)
    decreases |steps|
  {
    if |steps| > 0 {
      InvStep(s, t, steps[0]);
      RunKeeps(s, Apply(s, t, steps[0]), steps[1..], u);
    }
  }

  // --------------------------------------------------------- chains and addresses

  /** The functions whose environments these are. */
  function Owners(t: State, r: seq<int>): seq<int>
    requires forall i :: 0 <= i < |r| ==> 0 <= r[i] < |t.envs| && 0 <= t.envs[r[i]].act < |t.acts|
  {
    seq(|r|, i requires 0 <= i < |r| => t.acts[t.envs[r[i]].act].fn)
  }

  lemma {:induction false} ChainOfBlock(s: Scopes, c: int, early: bool)
    requires Slotted(s) && 0 <= c < |s|
    ensures Chain(s, c, early) == Chain(s, Enclosing(s, c), Phase(s, c, early))
    decreases c
  {
    if !s[c].isFunction { ChainOfBlock(s, s[c].parent, s[c].early); }
  }

  /** The environments around an activation belong to the functions of the static chain,
      and each was made by the one activation around that runs its function. */
  lemma {:induction false} AroundChain(s: Scopes, t: State, a: int, early: bool)
    requires Inv(s, t) && Slotted(s) && 0 <= a < |t.acts| && (!early ==> !t.acts[a].early)
    ensures var r := Around(s, t.acts, a, early);
            && (forall i :: 0 <= i < |r| ==> 0 <= r[i] < |t.envs| && 0 <= t.envs[r[i]].act < |t.acts|)
            && 0 <= t.acts[a].fn < |s| && Owners(t, r) == Chain(s, t.acts[a].fn, early)
    decreases a
  {
    hide Owners, Chain, Ups, Slotted;
    var act := t.acts[a];
    assert MadeAt(s, t.acts, a) && ActOk(s, t, a);
    var f := act.fn;
    ChainOfFunction(s, f, early);
    var q := Around(s, t.acts, act.link, act.linkEarly);
    if act.link >= 0 {
      AroundChain(s, t, act.link, act.linkEarly);
      ChainOfBlock(s, s[f].parent, s[f].early);
    } else {
      NoOwners(t);
    }
    if s[f].captures > 0 && !early {
      OwnersPush(t, act.own, q);
    } else {
      assert Around(s, t.acts, a, early) == q;
    }
  }

  lemma ChainOfFunction(s: Scopes, f: int, early: bool)
    requires Nested(s) && 0 <= f < |s| && s[f].isFunction
    ensures var q := Chain(s, s[f].parent, s[f].early);
            Chain(s, f, early) == if s[f].captures > 0 && !early then [f] + q else q
    ensures Chain(s, -1, s[f].early) == []
  {
  }

  lemma NoOwners(t: State)
    ensures Owners(t, []) == []
  {
  }

  lemma OwnersPush(t: State, e: int, q: seq<int>)
    requires 0 <= e < |t.envs| && 0 <= t.envs[e].act < |t.acts|
    requires forall i :: 0 <= i < |q| ==> 0 <= q[i] < |t.envs| && 0 <= t.envs[q[i]].act < |t.acts|
    ensures Owners(t, [e] + q) == [t.acts[t.envs[e].act].fn] + Owners(t, q)
  {
  }

  /** The activation of function `f` in whose code activation `a` was created, step by step. */
  function Ancestor(s: Scopes, acts: seq<Act>, a: int, f: int): (b: int)
    requires Nested(s) && WellMade(s, acts) && -1 <= a < |acts|
    ensures -1 <= b <= a && (b >= 0 ==> acts[b].fn == f)
    decreases a
  {
    if a == -1 then -1
    else if acts[a].fn == f then a
    else
      assert MadeAt(s, acts, a);
      Ancestor(s, acts, acts[a].link, f)
  }

  /** Each environment around is that of the ancestor that runs its function. */
  lemma {:induction false} AroundAncestor(s: Scopes, t: State, a: int, early: bool, i: nat)
    requires Inv(s, t) && 0 <= a < |t.acts| && (!early ==> !t.acts[a].early) && i < |Around(s, t.acts, a, early)|
    ensures var e := Around(s, t.acts, a, early)[i];
            && 0 <= e < |t.envs| && 0 <= t.envs[e].act < |t.acts|
            && t.acts[t.envs[e].act].fn <= t.acts[a].fn
            && t.envs[e].act == Ancestor(s, t.acts, a, t.acts[t.envs[e].act].fn)
    decreases a
  {
    var act := t.acts[a];
    assert MadeAt(s, t.acts, a) && ActOk(s, t, a);
    var own := s[act.fn].captures > 0 && !early;
    if !own || i > 0 {
      var j := if own then i - 1 else i;
      assert Around(s, t.acts, a, early)[i] == Around(s, t.acts, act.link, act.linkEarly)[j];
      assert act.link >= 0;
      AroundAncestor(s, t, act.link, act.linkEarly, j);
      assert t.acts[act.link].fn < act.fn;
    }
  }

  /** The code of use `u` is what activation `a` is at. */
  predicate At(s: Scopes, act: Act, u: UseAt)
    requires Nested(s)
  {
    0 <= u.c < |s| && Enclosing(s, u.c) == act.fn && Phase(s, u.c, u.early) == act.early
  }

  /** In every run of every program, for every activation: its environments are those of
      the functions of the static chain. */
  lemma ChainAtRunTime(items: seq<Item>, steps: seq<Step>, t: State, a: nat, u: UseAt)
    requires IsRun(ProgramScopes(items), Init(), steps, t) && a < |t.acts| && At(ProgramScopes(items), t.acts[a], u)
    ensures var s := ProgramScopes(items);
            && Inv(s, t) && ActOk(s, t, a)
            && (forall i :: 0 <= i < |Ups(t.envs, t.acts[a].env)| ==>
                  0 <= t.envs[Ups(t.envs, t.acts[a].env)[i]].act < |t.acts|)
            && Owners(t, Ups(t.envs, t.acts[a].env)) == Chain(s, u.c, u.early)
  {
    var s := ProgramScopes(items);
    ProgramSlots(items);
    InvInit(s);
    RunKeeps(s, Init(), steps, t);
    assert ActOk(s, t, a);
    AroundChain(s, t, a, t.acts[a].early);
    ChainOfBlock(s, u.c, u.early);
  }

  /** In every run of every program: the address that the generator gives a captured symbol
      leads to the slot of the activation around that declares it, exactly if the use is
      not bypassed. */
  lemma AddressAtRunTime(items: seq<Item>, steps: seq<Step>, t: State, a: nat, u: UseAt)
    requires IsRun(ProgramScopes(items), Init(), steps, t) && a < |t.acts| && At(ProgramScopes(items), t.acts[a], u)
    requires LookupCodegen(ProgramScopes(items), u.c, u.name).Some?
    requires var s := ProgramScopes(items);
             var g := LookupCodegen(s, u.c, u.name).value; Captured(s, g.at, g.k)
    ensures var s := ProgramScopes(items);
            var g := LookupCodegen(s, u.c, u.name).value;
            var f, slot := Enclosing(s, g.at), s[g.at].symbols[g.k].slot;
            && Inv(s, t) && ActOk(s, t, a)
            && var r, b := Ups(t.envs, t.acts[a].env), Ancestor(s, t.acts, a, f);
               (&& g.depth < |r| && b >= 0 && r[g.depth] == t.acts[b].own
                && 0 <= slot < |t.envs[r[g.depth]].slots|)
               <==> !Bypassed(s, u.c, u.early, f)
  {
    var s := ProgramScopes(items);
    var g := LookupCodegen(s, u.c, u.name).value;
    var f := Enclosing(s, g.at);
    ProgramSlots(items);
    ChainAtRunTime(items, steps, t, a, u);
    AddressIff(items, u);
    assert HasSlot(s, g.at, g.k, f, s[g.at].symbols[g.k].slot);
    if g.depth < |Ups(t.envs, t.acts[a].env)| { OwnerIsAncestor(s, t, a, g.depth, f); }
  }

  /** An environment belongs to function `f` exactly if the ancestor of `f` made it. */
  lemma OwnerIsAncestor(s: Scopes, t: State, a: nat, depth: nat, f: int)
    requires Inv(s, t) && a < |t.acts| && ActOk(s, t, a) && depth < |Ups(t.envs, t.acts[a].env)|
    ensures var e, b := Ups(t.envs, t.acts[a].env)[depth], Ancestor(s, t.acts, a, f);
            && 0 <= t.envs[e].act < |t.acts|
            && (t.acts[t.envs[e].act].fn == f <==> b >= 0 && e == t.acts[b].own)
            && (t.acts[t.envs[e].act].fn == f ==> 0 <= f < |s| && |t.envs[e].slots| == s[f].captures)
  {
    hide Around, Ups;
    var e, b := Ups(t.envs, t.acts[a].env)[depth], Ancestor(s, t.acts, a, f);
    AroundAncestor(s, t, a, t.acts[a].early, depth);
    assert EnvOk(s, t, e);
    if b >= 0 { assert ActOk(s, t, b); }
  }
}
