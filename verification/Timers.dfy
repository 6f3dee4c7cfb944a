/** The timers of the event loop: a list sorted by expiry, and the phase that fires them. */
module Timers {
  datatype Timer = Timer(expires: int, id: int)

  ghost predicate Sorted(ts: seq<Timer>) {
    forall i, j :: 0 <= i < j < |ts| ==> ts[i].expires <= ts[j].expires
  }

  /** The list with a timer added, before those that expire no earlier. */
  function Insert(ts: seq<Timer>, t: Timer): seq<Timer> {
    if |ts| == 0 || ts[0].expires >= t.expires then [t] + ts else [ts[0]] + Insert(ts[1..], t)
  }

  lemma {:induction false} InsertKeeps(ts: seq<Timer>, t: Timer)
    requires Sorted(ts)
    ensures Sorted(Insert(ts, t)) && multiset(Insert(ts, t)) == multiset(ts) + multiset{t}
    ensures forall x :: x in Insert(ts, t) <==> x in ts || x == t
  {
    hide Sorted;
    if |ts| == 0 || ts[0].expires >= t.expires {
      if |ts| > 0 { TailSorted(ts); }
      ConsSorted(t, ts);
    } else {
      TailSorted(ts);
      InsertKeeps(ts[1..], t);
      ConsSorted(ts[0], Insert(ts[1..], t));
      assert ts == [ts[0]] + ts[1..];
    }
  }

  lemma ConsSorted(t: Timer, ts: seq<Timer>)
    requires Sorted(ts) && forall x :: x in ts ==> t.expires <= x.expires
    ensures Sorted([t] + ts)
  {
    forall j | 0 <= j < |ts| ensures t.expires <= ts[j].expires { assert ts[j] in ts; }
  }

  lemma TailSorted(ts: seq<Timer>)
    requires Sorted(ts) && |ts| > 0
    ensures Sorted(ts[1..]) && forall x :: x in ts ==> ts[0].expires <= x.expires
  {
  }

  /** The loop and what happened so far: `made` are all timers ever set, `fired` those whose
      callbacks were called, each with the time of the call. */
  datatype State = State(clock: int, now: int, timers: seq<Timer>, made: seq<Timer>, fired: seq<Firing>)

  datatype Firing = Firing(timer: Timer, at: int)

  datatype Step =
    | Pass(ms: nat)         // time passes
    | Set(timeout: nat)     // a timer is set, by a callback or by anything else
    | Look                  // the loop reads the clock
    | Fire                  // the first timer has expired: it is removed and called

  function Init(clock: int): State { State(clock, clock, [], [], []) }

  predicate Enabled(s: State, step: Step) {
    step.Fire? ==> |s.timers| > 0 && s.timers[0].expires <= s.now
  }

  function Apply(s: State, step: Step): State
    requires Enabled(s, step)
  {
    match step
    case Pass(ms) => s.(clock := s.clock + ms)
    case Set(timeout) =>
      var t := Timer(s.clock + timeout, |s.made|);
      s.(timers := Insert(s.timers, t), made := s.made + [t])
    case Look => s.(now := s.clock)
    case Fire => s.(timers := s.timers[1..], fired := s.fired + [Firing(s.timers[0], s.clock)])
  }

  function FiredTimers(fs: seq<Firing>): (ts: seq<Timer>)
    ensures |ts| == |fs| && forall i :: 0 <= i < |fs| ==> ts[i] == fs[i].timer
  {
    seq(|fs|, i requires 0 <= i < |fs| => fs[i].timer)
  }

  /** The list is sorted, every timer is pending or has fired, once, not before its time, and
      in the order of expiry; what is pending expires no earlier than what has fired. */
  ghost predicate Inv(s: State) {
    && s.now <= s.clock && Sorted(s.timers)
    && Accounted(s.made, s.timers, FiredTimers(s.fired))
    && (forall i :: 0 <= i < |s.made| ==> s.made[i].id == i)
    && (forall i :: 0 <= i < |s.fired| ==> s.fired[i].timer.expires <= s.fired[i].at <= s.clock)
    && (forall i :: 0 <= i < |s.fired| ==> s.fired[i].timer.expires <= s.now)
    && Sorted(FiredTimers(s.fired))
    && AllBefore(FiredTimers(s.fired), s.timers)
  }

  ghost predicate Accounted(made: seq<Timer>, timers: seq<Timer>, fired: seq<Timer>) {
    multiset(made) == multiset(timers) + multiset(fired)
  }

  ghost predicate AllBefore(a: seq<Timer>, b: seq<Timer>) {
    forall x, y :: x in a && y in b ==> x.expires <= y.expires
  }

  lemma KeepsSet(s: State, timeout: nat)
    requires Inv(s)
    ensures Inv(Apply(s, Set(timeout)))
  {
    hide Insert, Sorted, Accounted, AllBefore;
    var t := Timer(s.clock + timeout, |s.made|);
    InsertKeeps(s.timers, t);
    SetAccounted(s.made, s.timers, FiredTimers(s.fired), t);
    SetOrder(s, t);
  }

  lemma SetAccounted(made: seq<Timer>, timers: seq<Timer>, fired: seq<Timer>, t: Timer)
    requires Accounted(made, timers, fired) && Sorted(timers)
    ensures Accounted(made + [t], Insert(timers, t), fired)
  {
    hide Insert, Sorted;
    InsertKeeps(timers, t);
  }

  /** A new timer expires no earlier than those that have fired. */
  lemma SetOrder(s: State, t: Timer)
    requires Inv(s) && t.expires >= s.clock
    ensures AllBefore(FiredTimers(s.fired), Insert(s.timers, t))
  {
    InsertKeeps(s.timers, t);
    hide Insert, Sorted, Accounted;
    forall x | x in FiredTimers(s.fired)
      ensures x.expires <= t.expires
    {
      var i :| 0 <= i < |s.fired| && FiredTimers(s.fired)[i] == x;
      assert s.fired[i].timer == x;
    }
  }

  lemma KeepsFire(s: State)
    requires Inv(s) && Enabled(s, Fire)
    ensures Inv(Apply(s, Fire))
  {
    var u, first := Apply(s, Fire), s.timers[0];
    assert FiredTimers(u.fired) == FiredTimers(s.fired) + [first];
    FireAccounted(s.made, s.timers, FiredTimers(s.fired));
    FireOrder(s.timers, FiredTimers(s.fired));
    hide Accounted, AllBefore, Sorted, FiredTimers;
  }

  lemma FireAccounted(made: seq<Timer>, timers: seq<Timer>, fired: seq<Timer>)
    requires |timers| > 0 && Accounted(made, timers, fired)
    ensures Accounted(made, timers[1..], fired + [timers[0]])
  {
    assert timers == [timers[0]] + timers[1..];
  }

  lemma FireOrder(timers: seq<Timer>, fired: seq<Timer>)
    requires |timers| > 0 && Sorted(timers) && Sorted(fired) && AllBefore(fired, timers)
    ensures Sorted(timers[1..]) && Sorted(fired + [timers[0]]) && AllBefore(fired + [timers[0]], timers[1..])
  {
    var first := timers[0];
    assert first in timers && forall x :: x in timers[1..] ==> x in timers;
    forall i | 0 <= i < |fired| ensures fired[i].expires <= first.expires { assert fired[i] in fired; }
    forall t | t in timers[1..]
      ensures first.expires <= t.expires
    {
      var i :| 0 <= i < |timers[1..]| && timers[1..][i] == t;
      assert timers[i + 1] == t;
    }
  }

  /** Every step keeps the invariant. */
  lemma InvStep(s: State, step: Step)
    requires Inv(s) && Enabled(s, step)
    ensures Inv(Apply(s, step))
  {
    match step
    case Pass(ms) =>
    case Set(timeout) => KeepsSet(s, timeout);
    case Look =>
    case Fire => KeepsFire(s);
  }

  ghost predicate IsRun(s: State, steps: seq<Step>, t: State)
    decreases |steps|
  {
    if |steps| == 0 then t == s
    else Enabled(s, steps[0]) && IsRun(Apply(s, steps[0]), steps[1..], t)
  }

  lemma {:induction false} RunKeeps(s: State, steps: seq<Step>, t: State)
    requires Inv(s) && IsRun(s, steps, t)
    ensures Inv(t)
    decreases |steps|
  {
    if |steps| > 0 {
      InvStep(s, steps[0]);
      RunKeeps(Apply(s, steps[0]), steps[1..], t);
    }
  }

  /** Over any whole run, with timers set at any time: none is lost, fires twice or fires
      early, and the expiry times of the calls never fall. */
  lemma TimersInOrder(clock: int, steps: seq<Step>, t: State)
    requires IsRun(Init(clock), steps, t)
    ensures Sorted(t.timers) && Sorted(FiredTimers(t.fired))
    ensures multiset(t.made) == multiset(t.timers) + multiset(FiredTimers(t.fired))
    ensures forall i :: 0 <= i < |t.fired| ==> t.fired[i].timer.expires <= t.fired[i].at
    ensures forall x :: x in t.made ==> multiset(t.made)[x] == 1
  {
    assert Inv(Init(clock));
    RunKeeps(Init(clock), steps, t);
    forall x | x in t.made ensures multiset(t.made)[x] == 1 { Once(t.made, x); }
  }

  lemma Once(ts: seq<Timer>, x: Timer)
    requires x in ts && forall i :: 0 <= i < |ts| ==> ts[i].id == i
    ensures multiset(ts)[x] == 1
  {
    var i := x.id;
    assert ts == ts[..i] + [ts[i]] + ts[i + 1..];
    assert x !in ts[..i] && x !in ts[i + 1..];
  }

  // ------------------------------------------------------ timers of equal expiry

  /** Sorted by expiry; of equal ones, those set later come first. */
  ghost predicate LaterFirst(ts: seq<Timer>) {
    forall i, j :: 0 <= i < j < |ts| ==>
      ts[i].expires < ts[j].expires || (ts[i].expires == ts[j].expires && ts[i].id > ts[j].id)
  }

  lemma {:induction false} InsertFirst(ts: seq<Timer>, t: Timer)
    requires LaterFirst(ts) && forall x :: x in ts ==> x.id < t.id
    ensures LaterFirst(Insert(ts, t)) && forall x :: x in Insert(ts, t) <==> x in ts || x == t
  {
    hide LaterFirst;
    if |ts| == 0 || ts[0].expires >= t.expires {
      if |ts| > 0 { TailFirst(ts); }
      ConsFirst(t, ts);
    } else {
      TailFirst(ts);
      InsertFirst(ts[1..], t);
      ConsFirst(ts[0], Insert(ts[1..], t));
      assert ts == [ts[0]] + ts[1..];
    }
  }

  lemma ConsFirst(t: Timer, ts: seq<Timer>)
    requires LaterFirst(ts)
    requires forall x :: x in ts ==> t.expires < x.expires || (t.expires == x.expires && t.id > x.id)
    ensures LaterFirst([t] + ts)
  {
    forall j | 0 <= j < |ts|
      ensures t.expires < ts[j].expires || (t.expires == ts[j].expires && t.id > ts[j].id)
    {
      assert ts[j] in ts;
    }
  }

  lemma TailFirst(ts: seq<Timer>)
    requires LaterFirst(ts) && |ts| > 0
    ensures LaterFirst(ts[1..])
    ensures forall x :: x in ts[1..] ==>
              ts[0].expires < x.expires || (ts[0].expires == x.expires && ts[0].id > x.id)
    ensures forall x :: x in ts ==> ts[0].expires <= x.expires
  {
    assert forall i :: 0 <= i < |ts[1..]| ==> ts[1..][i] == ts[i + 1];
  }

  ghost predicate Numbered(s: State) { LaterFirst(s.timers) && forall x :: x in s.timers ==> x.id < |s.made| }

  lemma {:induction false} NumberedRun(s: State, steps: seq<Step>, t: State)
    requires Numbered(s) && IsRun(s, steps, t)
    ensures Numbered(t)
    decreases |steps|
  {
    if |steps| > 0 {
      NumberedStep(s, steps[0]);
      NumberedRun(Apply(s, steps[0]), steps[1..], t);
    }
  }

  lemma NumberedStep(s: State, step: Step)
    requires Numbered(s) && Enabled(s, step)
    ensures Numbered(Apply(s, step))
  {
    hide LaterFirst, Insert;
    if step.Set? {
      InsertFirst(s.timers, Timer(s.clock + step.timeout, |s.made|));
    } else if step.Fire? {
      TailFirst(s.timers);
      assert forall x :: x in s.timers[1..] ==> x in s.timers;
    }
  }

  /** In every run, what fires next is the first to expire, and of those that expire at the
      same time the one that was set last. */
  lemma NextToFire(clock: int, steps: seq<Step>, t: State)
    requires IsRun(Init(clock), steps, t) && Enabled(t, Fire)
    ensures forall x :: x in t.timers[1..] ==>
              var first := Apply(t, Fire).fired[|t.fired|].timer;
              first.expires < x.expires || (first.expires == x.expires && first.id > x.id)
  {
    hide LaterFirst;
    assert Numbered(Init(clock)) by { NoTimers(); }
    NumberedRun(Init(clock), steps, t);
    TailFirst(t.timers);
  }

  lemma NoTimers()
    ensures LaterFirst([])
  {
  }

  lemma OneStep(s: State, step: Step, rest: seq<Step>, t: State)
    requires Enabled(s, step) && IsRun(Apply(s, step), rest, t)
    ensures IsRun(s, [step] + rest, t)
  {
    hide Apply, Enabled;
    assert ([step] + rest)[1..] == rest;
  }

  lemma BothSet(a: Timer, b: Timer)
    requires a == Timer(5, 0) && b == Timer(5, 1)
    ensures Apply(Init(0), Set(5)) == State(0, 0, [a], [a], [])
    ensures Apply(State(0, 0, [a], [a], []), Set(5)) == State(0, 0, [b, a], [a, b], [])
  {
  }

  /** Two timers of the same length, set one after the other, fire the other way round. */
  lemma TwoReversed() returns (t: State)
    ensures IsRun(Init(0), [Set(5)] + ([Set(5)] + ([Pass(5)] + ([Look] + ([Fire] + ([Fire] + []))))), t)
    ensures |t.fired| == 2 && t.fired[0].timer.id == 1 && t.fired[1].timer.id == 0
  {
    hide IsRun, Insert;
    var a, b := Timer(5, 0), Timer(5, 1);
    BothSet(a, b);
    var s2 := State(0, 0, [b, a], [a, b], []);
    var s3, s4 := s2.(clock := 5), s2.(clock := 5, now := 5);
    var s5 := State(5, 5, [a], [a, b], [Firing(b, 5)]);
    t := State(5, 5, [], [a, b], [Firing(b, 5), Firing(a, 5)]);
    assert Apply(s4, Fire) == s5 && Apply(s5, Fire) == t;
    assert IsRun(t, [], t) by { NoSteps(t); }
    OneStep(s5, Fire, [], t);
    OneStep(s4, Fire, [Fire] + [], t);
    OneStep(s3, Look, [Fire] + ([Fire] + []), t);
    OneStep(s2, Pass(5), [Look] + ([Fire] + ([Fire] + [])), t);
    OneStep(State(0, 0, [a], [a], []), Set(5), [Pass(5)] + ([Look] + ([Fire] + ([Fire] + []))), t);
    OneStep(Init(0), Set(5), [Set(5)] + ([Pass(5)] + ([Look] + ([Fire] + ([Fire] + [])))), t);
  }

  lemma NoSteps(t: State)
    ensures IsRun(t, [], t)
  {
  }

  lemma InsertWalk(ts: seq<Timer>, i: nat, t: Timer)
    requires i < |ts| && ts[i].expires < t.expires
    ensures ts[..i] + Insert(ts[i..], t) == ts[..i + 1] + Insert(ts[i + 1..], t)
  {
    var rest := ts[i..];
    assert rest[0] == ts[i] && rest[1..] == ts[i + 1..];
    assert Insert(rest, t) == [ts[i]] + Insert(ts[i + 1..], t);
    Shift(ts, i, Insert(ts[i + 1..], t));
  }

  /** The first `i` timers stay, and the new one goes among the others. */
  ghost predicate Split(ts: seq<Timer>, t: Timer, i: nat, all: seq<Timer>)
    requires i <= |ts|
  {
    all == ts[..i] + Insert(ts[i..], t)
  }

  lemma WalkStart(ts: seq<Timer>, t: Timer)
    ensures Split(ts, t, 0, Insert(ts, t))
  {
    assert ts[0..] == ts;
  }

  lemma Shift(ts: seq<Timer>, i: nat, more: seq<Timer>)
    requires i < |ts|
    ensures ts[..i] + ([ts[i]] + more) == ts[..i + 1] + more
  {
    assert ts[..i + 1] == ts[..i] + [ts[i]];
  }

  lemma InsertHere(ts: seq<Timer>, i: nat, t: Timer)
    requires i <= |ts| && (i < |ts| ==> ts[i].expires >= t.expires)
    ensures ts[..i] + Insert(ts[i..], t) == ts[..i] + [t] + ts[i..]
  {
    var rest := ts[i..];
    assert Insert(rest, t) == [t] + rest;
    assert ts[..i] + ([t] + rest) == ts[..i] + [t] + rest;
  }

  class EventLoop {
    var timers: seq<Timer>

    constructor ()
      ensures timers == []
    {
      timers := [];
    }

    /** Puts a new timer into its place in the list. */
    method SetTimeout(clock: int, timeout: nat, id: int)
      requires Sorted(timers)
      modifies this
      ensures timers == Insert(old(timers), Timer(clock + timeout, id)) && Sorted(timers)
    {
      hide Sorted, Insert;
      var t := Timer(clock + timeout, id);
      InsertKeeps(timers, t);
      var i := Place(t);
      timers := timers[..i] + [t] + timers[i..];
    }

    /** Walks the list to the place of the new timer. */
    method Place(t: Timer) returns (i: nat)
      ensures i <= |timers| && Insert(timers, t) == timers[..i] + [t] + timers[i..]
    {
      hide Insert;
      i := 0;
      ghost var ts, all := timers, Insert(timers, t);
      WalkStart(ts, t);
      while i < |timers| && timers[i].expires < t.expires
        invariant i <= |ts| && Split(ts, t, i, all)
      {
        InsertWalk(ts, i, t);
        i := i + 1;
      }
      InsertHere(ts, i, t);
    }

    /** Removes the first timer if it has expired. */
    method TakeExpired(now: int) returns (due: seq<Timer>)
      requires Sorted(timers)
      modifies this
      ensures Sorted(timers) && due + timers == old(timers) && |due| <= 1
      ensures due == [] ==> forall t :: t in timers ==> t.expires > now
      ensures forall t :: t in due ==> t.expires <= now
    {
      due := [];
      if |timers| > 0 && timers[0].expires <= now {
        due, timers := [timers[0]], timers[1..];
      }
    }
  }
}
