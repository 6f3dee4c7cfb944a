/** The thread pool as a step system: every step is one critical section, or one call of a
    work or completion callback, of a worker, a submitter or the main thread. */
module ThreadPool {
  const WORKERS := 4

  type Item = int

  datatype Worker =
    | Ready                // about to look at the work queue
    | Waiting              // asleep on the condition variable
    | Holding(item: Item)  // has taken an item
    | Worked(item: Item)   // has run its work
    | Exited

  datatype Main =
    | Elsewhere            // not between taking and finishing an item
    | Popped(item: Item)   // has taken an item from the done queue
    | Called(item: Item)   // has run its completion callback

  /** The pool, and what happened so far: `began` are the items whose submission began,
      `queued` and `taken` the items in the order they entered and left the work queue,
      `worked` and `called` those whose callbacks ran, `finished` those accounted for. */
  datatype State = State(
    work: seq<Item>, done: seq<Item>, pending: int, active: bool,
    workers: seq<Worker>, main: Main, submitting: seq<Item>,
    began: seq<Item>, queued: seq<Item>, taken: seq<Item>,
    worked: seq<Item>, called: seq<Item>, finished: seq<Item>)

  datatype Step =
    | BeginSubmit(i: Item)        // counts the item as pending
    | Enqueue(k: nat, wake: int)  // queues a counted item and wakes worker `wake`, if any
    | Look(w: nat)                // takes an item, goes to sleep, or exits
    | Awake(w: nat)               // spurious wake-up
    | Work(w: nat)
    | Complete(w: nat)            // puts the item on the done queue
    | Pop
    | Call
    | Finish                      // counts the item as no longer pending
    | Shutdown                    // clears the flag and wakes everyone

  function Init(): State {
    State([], [], 0, true, seq(WORKERS, _ => Ready), Elsewhere, [], [], [], [], [], [], [])
  }

  /** `wake` is a sleeping worker, or -1 if there is none. */
  predicate Wakes(s: State, wake: int) {
    if exists w :: 0 <= w < |s.workers| && s.workers[w].Waiting?
    then 0 <= wake < |s.workers| && s.workers[wake].Waiting?
    else wake == -1
  }

  predicate Enabled(s: State, step: Step) {
    match step
    case BeginSubmit(i) => i !in s.began
    case Enqueue(k, wake) => k < |s.submitting| && Wakes(s, wake)
    case Look(w) => w < |s.workers| && s.workers[w].Ready?
    case Awake(w) => w < |s.workers| && s.workers[w].Waiting?
    case Work(w) => w < |s.workers| && s.workers[w].Holding?
    case Complete(w) => w < |s.workers| && s.workers[w].Worked?
    case Pop => s.main.Elsewhere? && s.done != []
    case Call => s.main.Popped?
    case Finish => s.main.Called?
    case Shutdown => true
  }

  function Set(s: State, w: nat, to: Worker): State
    requires w < |s.workers|
  {
    s.(workers := s.workers[w := to])
  }

  function Apply(s: State, step: Step): State
    requires Enabled(s, step)
  {
    match step
    case BeginSubmit(i) => s.(pending := s.pending + 1, submitting := s.submitting + [i], began := s.began + [i])
    case Enqueue(k, wake) =>
      var i := s.submitting[k];
      var s1 := if wake == -1 then s else Set(s, wake, Ready);
      s1.(work := s.work + [i], queued := s.queued + [i], submitting := s.submitting[..k] + s.submitting[k + 1..])
    case Look(w) =>
      if s.work != [] then
        Set(s, w, Holding(s.work[0])).(work := s.work[1..], taken := s.taken + [s.work[0]])
      else if s.active then Set(s, w, Waiting)
      else Set(s, w, Exited)
    case Awake(w) => Set(s, w, Ready)
    case Work(w) => Set(s, w, Worked(s.workers[w].item)).(worked := s.worked + [s.workers[w].item])
    case Complete(w) => Set(s, w, Ready).(done := s.done + [s.workers[w].item])
    case Pop => s.(main := Popped(s.done[0]), done := s.done[1..])
    case Call => s.(main := Called(s.main.item), called := s.called + [s.main.item])
    case Finish => s.(main := Elsewhere, pending := s.pending - 1, finished := s.finished + [s.main.item])
    case Shutdown =>
      s.(active := false, workers := seq(|s.workers|, i requires 0 <= i < |s.workers| =>
           if s.workers[i].Waiting? then Ready else s.workers[i]))
  }

  function Count(s: seq<Item>, x: Item): nat { multiset(s)[x] }

  /** Workers that have item `x`, and workers that have it and have run its work. */
  function Holders(ws: seq<Worker>, x: Item): nat {
    if |ws| == 0 then 0
    else (if (ws[0].Holding? || ws[0].Worked?) && ws[0].item == x then 1 else 0) + Holders(ws[1..], x)
  }

  function Doers(ws: seq<Worker>, x: Item): nat {
    if |ws| == 0 then 0 else (if ws[0] == Worked(x) then 1 else 0) + Doers(ws[1..], x)
  }

  function InMain(m: Main, x: Item): nat { if !m.Elsewhere? && m.item == x then 1 else 0 }

  /** How often item `x` is found: being submitted, in a queue, with a worker, with the
      main thread, or finished. */
  function Places(s: State, x: Item): nat {
    Count(s.submitting, x) + Count(s.work, x) + Holders(s.workers, x) + Count(s.done, x) + InMain(s.main, x)
    + Count(s.finished, x)
  }

  /** How often it is found where its work must have run. */
  function BeyondWork(s: State, x: Item): nat {
    Doers(s.workers, x) + Count(s.done, x) + InMain(s.main, x) + Count(s.finished, x)
  }

  /** How often it is found where its completion callback must have run. */
  function BeyondCall(s: State, x: Item): nat {
    (if s.main == Called(x) then 1 else 0) + Count(s.finished, x)
  }

  /** Each submitted item is in exactly one place, and its callbacks have run as often as it
      is in a place beyond them. */
  ghost predicate Placed(s: State, x: Item) {
    && Places(s, x) == Count(s.began, x) <= 1
    && Count(s.worked, x) == BeyondWork(s, x)
    && Count(s.called, x) == BeyondCall(s, x)
  }

  ghost predicate Asleep(s: State) {
    forall w :: 0 <= w < |s.workers| ==> s.workers[w].Waiting?
  }

  /** What holds in every state: items are placed, leave the queue in the order they
      entered it, and are counted; workers exit only after shutdown; and while the pool is
      active, queued work never has all workers asleep. */
  ghost predicate Inv(s: State) {
    && |s.workers| == WORKERS && (forall x :: Placed(s, x))
    && s.queued == s.taken + s.work
    && s.pending == |s.began| - |s.finished|
    && (s.active ==> forall w :: 0 <= w < |s.workers| ==> !s.workers[w].Exited?)
    && (s.active && s.work != [] ==> !Asleep(s))
  }

  lemma {:induction false} SetWorker(ws: seq<Worker>, w: nat, to: Worker, x: Item)
    requires w < |ws|
    ensures Holders(ws[w := to], x) + Holders([ws[w]], x) == Holders(ws, x) + Holders([to], x)
    ensures Doers(ws[w := to], x) + Doers([ws[w]], x) == Doers(ws, x) + Doers([to], x)
  {
    var us := ws[w := to];
    assert [to][1..] == [] && [ws[w]][1..] == [];
    if w > 0 {
      assert us[1..] == ws[1..][w - 1 := to];
      SetWorker(ws[1..], w - 1, to, x);
    } else {
      assert us[1..] == ws[1..];
    }
  }

  lemma {:induction false} SameHolders(ws: seq<Worker>, us: seq<Worker>, x: Item)
    requires |ws| == |us|
    requires forall i :: 0 <= i < |ws| ==> us[i] == ws[i] || (ws[i] in {Waiting, Ready} && us[i] in {Waiting, Ready})
    ensures Holders(us, x) == Holders(ws, x) && Doers(us, x) == Doers(ws, x)
  {
    if |ws| > 0 { SameHolders(ws[1..], us[1..], x); }
  }

  lemma CountRemoved(s: seq<Item>, k: nat, x: Item)
    requires k < |s|
    ensures Count(s, x) == Count(s[..k] + s[k + 1..], x) + if s[k] == x then 1 else 0
  {
    assert s == s[..k] + [s[k]] + s[k + 1..];
  }

  lemma CountAdded(s: seq<Item>, i: Item, x: Item)
    ensures Count(s + [i], x) == Count(s, x) + if i == x then 1 else 0
  {
  }

  lemma CountFirst(s: seq<Item>, x: Item)
    requires s != []
    ensures Count(s, x) == Count(s[1..], x) + if s[0] == x then 1 else 0
  {
    assert s == [s[0]] + s[1..];
  }

  lemma InvInit()
    ensures Inv(Init())
  {
    forall x ensures Placed(Init(), x) { NoHolders(Init().workers, x); }
  }

  lemma {:induction false} NoHolders(ws: seq<Worker>, x: Item)
    requires forall i :: 0 <= i < |ws| ==> ws[i] == Ready
    ensures Holders(ws, x) == 0 && Doers(ws, x) == 0
  {
    if |ws| > 0 { NoHolders(ws[1..], x); }
  }

  /** No step loses or duplicates an item or a call of a callback. */
  lemma StepPlaces(s: State, step: Step, x: Item)
    requires Placed(s, x) && Enabled(s, step)
    ensures Placed(Apply(s, step), x)
  {
    hide Placed, Apply, Enabled;
    if step.Look? || step.Awake? || step.Work? || step.Complete? {
      WorkerPlaces(s, step, x);
    } else {
      OtherPlaces(s, step, x);
    }
  }

  lemma WorkerPlaces(s: State, step: Step, x: Item)
    requires Placed(s, x) && Enabled(s, step) && (step.Look? || step.Awake? || step.Work? || step.Complete?)
    ensures Placed(Apply(s, step), x)
  {
    hide Holders, Doers, Count;
    var from, to := s.workers[step.w], Apply(s, step).workers[step.w];
    SetWorker(s.workers, step.w, to, x);
    One(from, x);
    One(to, x);
    match step
    case Look(_) => if s.work != [] { CountFirst(s.work, x); }
    case Awake(_) =>
    case Work(_) => CountAdded(s.worked, from.item, x);
    case Complete(_) => CountAdded(s.done, from.item, x);
  }

  lemma OtherPlaces(s: State, step: Step, x: Item)
    requires Placed(s, x) && Enabled(s, step) && !(step.Look? || step.Awake? || step.Work? || step.Complete?)
    ensures Placed(Apply(s, step), x)
  {
    hide Holders, Doers, Count;
    match step
    case BeginSubmit(i) =>
      CountAdded(s.submitting, i, x);
      CountAdded(s.began, i, x);
      assert i == x ==> Count(s.began, x) == 0 by { NotCounted(s.began, i); }
    case Enqueue(k, wake) =>
      CountRemoved(s.submitting, k, x);
      CountAdded(s.work, s.submitting[k], x);
      SameHolders(s.workers, Apply(s, step).workers, x);
    case Pop => CountFirst(s.done, x);
    case Call => CountAdded(s.called, s.main.item, x);
    case Finish => CountAdded(s.finished, s.main.item, x);
    case Shutdown => SameHolders(s.workers, Apply(s, step).workers, x);
  }

  lemma NotCounted(s: seq<Item>, i: Item)
    requires i !in s
    ensures Count(s, i) == 0
  {
  }

  lemma One(w: Worker, x: Item)
    ensures Holders([w], x) == if (w.Holding? || w.Worked?) && w.item == x then 1 else 0
    ensures Doers([w], x) == if w == Worked(x) then 1 else 0
  {
    assert [w][1..] == [];
  }

  /** Every step of every thread keeps the invariant. */
  lemma InvStep(s: State, step: Step)
    requires Inv(s) && Enabled(s, step)
    ensures Inv(Apply(s, step))
  {
    hide Placed, Asleep, Apply;
    var t := Apply(s, step);
    forall x ensures Placed(t, x) { StepPlaces(s, step, x); }
    StepQueue(s, step);
    StepAwake(s, step);
    StepCount(s, step);
  }

  lemma StepCount(s: State, step: Step)
    requires Enabled(s, step) && s.pending == |s.began| - |s.finished|
    ensures var t := Apply(s, step); t.pending == |t.began| - |t.finished| && |t.workers| == |s.workers|
  {
  }

  lemma StepQueue(s: State, step: Step)
    requires Enabled(s, step) && s.queued == s.taken + s.work
    ensures var t := Apply(s, step); t.queued == t.taken + t.work
  {
    if step.Look? && s.work != [] {
      assert s.taken + s.work == (s.taken + [s.work[0]]) + s.work[1..];
    }
    if step.Enqueue? {
      var i := s.submitting[step.k];
      assert s.taken + s.work + [i] == s.taken + (s.work + [i]);
    }
  }

  lemma StepAwake(s: State, step: Step)
    requires Enabled(s, step) && |s.workers| == WORKERS
    requires s.active ==> forall w :: 0 <= w < |s.workers| ==> !s.workers[w].Exited?
    requires s.active && s.work != [] ==> !Asleep(s)
    ensures var t := Apply(s, step);
            && (t.active ==> forall w :: 0 <= w < |t.workers| ==> !t.workers[w].Exited?)
            && (t.active && t.work != [] ==> !Asleep(t))
  {
    var t := Apply(s, step);
    if !Asleep(s) {
      var v :| 0 <= v < |s.workers| && !s.workers[v].Waiting?;
      if step.Look? && v == step.w && s.work == [] {
      } else {
        assert !t.workers[v].Waiting?;
      }
    } else if step.Enqueue? {
      assert s.workers[0].Waiting?;
      assert !t.workers[step.wake].Waiting?;
    }
  }

  // ----------------------------------------------------------------- whole runs

  /** The state after a run of steps, each enabled where it is taken. */
  ghost predicate IsRun(s: State, steps: seq<Step>, t: State)
    decreases |steps|
  {
    if |steps| == 0 then t == s
    else Enabled(s, steps[0]) && IsRun(Apply(s, steps[0]), steps[1..], t)
  }

  lemma {:induction false} RunKeeps(s: State, steps: seq<Step>, t: State)
    requires Inv(s) && IsRun(s, steps, t)
    ensures Inv(t)
    decreases |steps|
  {
    if |steps| > 0 {
      InvStep(s, steps[0]);
      RunKeeps(Apply(s, steps[0]), steps[1..], t);
    }
  }

  /** In every interleaving, the invariant holds all the way. */
  lemma AlwaysInv(steps: seq<Step>, t: State)
    requires IsRun(Init(), steps, t)
    ensures Inv(t)
  {
    InvInit();
    RunKeeps(Init(), steps, t);
  }

  /** The test with which the event loop decides to go on. */
  predicate HasWork(timers: bool, checks: bool, activeIo: nat, pending: int) {
    timers || checks || activeIo > 0 || pending > 0
  }

  /** When the event loop finds nothing to do, every item whose submission began has been
      worked on once, had its completion callback called once, and is finished. */
  lemma LoopEndsWhenAllFinished(steps: seq<Step>, t: State, timers: bool, checks: bool, activeIo: nat)
    requires IsRun(Init(), steps, t) && !HasWork(timers, checks, activeIo, t.pending)
    ensures forall x :: x in t.began ==>
              x in t.finished && Count(t.finished, x) == Count(t.worked, x) == Count(t.called, x) == 1
    ensures t.submitting == [] && t.work == [] && t.done == [] && t.main.Elsewhere?
    ensures t.queued == t.taken
  {
    AlwaysInv(steps, t);
    forall x
      ensures Count(t.finished, x) == Count(t.began, x)
    {
      SameCounts(t);
      assert Placed(t, x);
    }
    forall x | x in t.began
      ensures x in t.finished && Count(t.finished, x) == Count(t.worked, x) == Count(t.called, x) == 1
    {
      assert Placed(t, x);
      DoersHold(t.workers, x);
    }
    NothingElsewhere(t);
  }

  lemma {:induction false} DoersHold(ws: seq<Worker>, x: Item)
    ensures Doers(ws, x) <= Holders(ws, x)
  {
    if |ws| > 0 { DoersHold(ws[1..], x); }
  }

  lemma SameCounts(t: State)
    requires Inv(t) && t.pending <= 0
    ensures multiset(t.finished) == multiset(t.began)
  {
    forall x ensures multiset(t.finished)[x] <= multiset(t.began)[x] { assert Placed(t, x); }
    var f, b := multiset(t.finished), multiset(t.began);
    assert f <= b;
    assert b == f + (b - f);
    assert |b| == |f| + |b - f|;
  }

  lemma NothingElsewhere(t: State)
    requires Inv(t) && forall x :: Count(t.finished, x) == Count(t.began, x)
    ensures t.submitting == [] && t.work == [] && t.done == [] && t.main.Elsewhere?
  {
    hide Holders;
    forall x
      ensures Count(t.submitting, x) == Count(t.work, x) == Count(t.done, x) == InMain(t.main, x) == 0
    {
      assert Placed(t, x);
    }
    FirstCounted(t.submitting);
    FirstCounted(t.work);
    FirstCounted(t.done);
    MainCounted(t.main);
  }

  lemma FirstCounted(s: seq<Item>)
    ensures s != [] ==> Count(s, s[0]) > 0
  {
  }

  lemma MainCounted(m: Main)
    ensures !m.Elsewhere? ==> InMain(m, m.item) > 0
  {
  }

  ghost predicate AllExited(s: State) {
    forall w :: 0 <= w < |s.workers| ==> s.workers[w].Exited?
  }

  /** Nothing is queued once the last worker has exited. */
  ghost predicate NoneLate(s: State, steps: seq<Step>)
    decreases |steps|
  {
    |steps| == 0 ||
    (&& Enabled(s, steps[0]) && (steps[0].Enqueue? ==> !AllExited(s))
     && NoneLate(Apply(s, steps[0]), steps[1..]))
  }

  /** The last worker exits with the queue empty; after that no worker takes anything. */
  lemma StepExits(s: State, step: Step)
    requires Inv(s) && Enabled(s, step)
    ensures var t := Apply(s, step);
            && (AllExited(s) ==> AllExited(t) && |t.work| == |s.work| + if step.Enqueue? then 1 else 0)
            && (!AllExited(s) && AllExited(t) ==> t.work == [])
  {
    hide Placed;
    var t := Apply(s, step);
    if AllExited(s) {
      if step.Enqueue? { assert forall w :: 0 <= w < |s.workers| ==> !s.workers[w].Waiting?; }
    } else if AllExited(t) {
      var v :| 0 <= v < |s.workers| && !s.workers[v].Exited?;
      assert t.workers[v].Exited?;
    }
  }

  lemma {:induction false} LateIff(s: State, steps: seq<Step>, t: State)
    requires Inv(s) && (AllExited(s) ==> s.work == []) && IsRun(s, steps, t) && AllExited(t)
    ensures t.work == [] <==> NoneLate(s, steps)
    decreases |steps|
  {
    hide Inv, AllExited, Apply, Enabled;
    if |steps| > 0 {
      var s1 := Apply(s, steps[0]);
      InvStep(s, steps[0]);
      StepExits(s, steps[0]);
      if AllExited(s) && steps[0].Enqueue? {
        WorkStays(s1, steps[1..], t);
      } else {
        LateIff(s1, steps[1..], t);
      }
    }
  }

  lemma {:induction false} WorkStays(s: State, steps: seq<Step>, t: State)
    requires Inv(s) && AllExited(s) && IsRun(s, steps, t)
    ensures |t.work| >= |s.work|
    decreases |steps|
  {
    hide Inv, AllExited, Apply, Enabled;
    if |steps| > 0 {
      InvStep(s, steps[0]);
      StepExits(s, steps[0]);
      WorkStays(Apply(s, steps[0]), steps[1..], t);
    }
  }

  /** When all workers have exited, every item that was taken has been worked on once, and
      the queue is empty if and only if nothing was queued after the last of them exited. */
  lemma ShutdownDrains(steps: seq<Step>, t: State)
    requires IsRun(Init(), steps, t) && AllExited(t)
    ensures t.work == [] <==> NoneLate(Init(), steps)
    ensures t.queued == t.taken + t.work && forall x :: x in t.taken ==> Count(t.worked, x) == 1
  {
    InvInit();
    assert !AllExited(Init()) by { assert Init().workers[0] == Ready; }
    LateIff(Init(), steps, t);
    AlwaysInv(steps, t);
    QueuedBegan(steps, t);
    forall x | x in t.taken
      ensures Count(t.worked, x) == 1
    {
      assert Placed(t, x) && x in t.queued && x !in t.submitting;
      NoneHeld(t.workers, x);
      NotCounted(t.submitting, x);
      TakenOnce(t, x);
    }
  }

  lemma TakenOnce(t: State, x: Item)
    requires t.queued == t.taken + t.work && Count(t.queued, x) <= 1 && x in t.taken
    ensures Count(t.work, x) == 0
  {
  }

  lemma {:induction false} NoneHeld(ws: seq<Worker>, x: Item)
    requires forall w :: 0 <= w < |ws| ==> ws[w].Exited?
    ensures Holders(ws, x) == 0 && Doers(ws, x) == 0
  {
    if |ws| > 0 { NoneHeld(ws[1..], x); }
  }

  /** What is queued has been submitted, is not being submitted any more, and is queued once. */
  ghost predicate QueuedOnce(s: State) {
    forall x :: x in s.queued ==> x in s.began && x !in s.submitting && Count(s.queued, x) <= 1
  }

  lemma QueuedBegan(steps: seq<Step>, t: State)
    requires IsRun(Init(), steps, t)
    ensures QueuedOnce(t)
  {
    InvInit();
    QueuedRun(Init(), steps, t);
  }

  lemma {:induction false} QueuedRun(s: State, steps: seq<Step>, t: State)
    requires Inv(s) && QueuedOnce(s) && IsRun(s, steps, t)
    ensures QueuedOnce(t)
    decreases |steps|
  {
    hide Inv, QueuedOnce, Apply, Enabled;
    if |steps| > 0 {
      InvStep(s, steps[0]);
      QueuedStep(s, steps[0]);
      QueuedRun(Apply(s, steps[0]), steps[1..], t);
    }
  }

  lemma QueuedStep(s: State, step: Step)
    requires Inv(s) && QueuedOnce(s) && Enabled(s, step)
    ensures QueuedOnce(Apply(s, step))
  {
    hide Places, BeyondWork, BeyondCall, Count;
    if step.Enqueue? {
      var i := s.submitting[step.k];
      Submitted(s, step.k);
      forall x | x in s.queued || x == i
        ensures x in s.began && x !in Apply(s, step).submitting && Count(s.queued + [i], x) <= 1
      {
        CountAdded(s.queued, i, x);
        if x == i { NotCounted(s.queued, i); }
      }
    }
  }

  /** An item that is being submitted is counted once, and not queued. */
  lemma Submitted(s: State, k: nat)
    requires Inv(s) && QueuedOnce(s) && k < |s.submitting|
    ensures var i := s.submitting[k]; i in s.began && i !in s.queued && i !in s.submitting[..k] + s.submitting[k + 1..]
  {
    var i := s.submitting[k];
    assert Placed(s, i);
    CountRemoved(s.submitting, k, i);
    assert i in s.submitting;
    assert Count(s.submitting[..k] + s.submitting[k + 1..], i) == 0;
  }
}
