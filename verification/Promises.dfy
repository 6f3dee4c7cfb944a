/** Promise settlement: callbacks wait with the promise until it is settled, and go to the
    microtask queue when it is, or at once if it is settled already. */
module Promises {
  import opened Options

  type Value = int

  datatype Status = Pending | Fulfilled | Rejected

  /** The handlers of one call of `then`; a handler that is no function is not kept. */
  datatype Reaction = Reaction(onFulfilled: Option<Value>, onRejected: Option<Value>) {
    function Handler(status: Status): Option<Value> {
      match status
      case Pending => None
      case Fulfilled => onFulfilled
      case Rejected => onRejected
    }
  }

  datatype Task = Task(handler: Value, argument: Value)

  datatype Call = Then(reaction: Reaction) | Settle(to: Status, value: Value)

  /** The status after some calls: the first settlement counts. */
  function StatusAfter(calls: seq<Call>): Status {
    if |calls| == 0 then Pending
    else if calls[0].Settle? && calls[0].to != Pending then calls[0].to
    else StatusAfter(calls[1..])
  }

  function ResultAfter(calls: seq<Call>): Option<Value> {
    if |calls| == 0 then None
    else if calls[0].Settle? && calls[0].to != Pending then Some(calls[0].value)
    else ResultAfter(calls[1..])
  }

  /** The reactions registered by some calls, in order. */
  function Reactions(calls: seq<Call>): seq<Reaction> {
    if |calls| == 0 then []
    else (if calls[0].Then? then [calls[0].reaction] else []) + Reactions(calls[1..])
  }

  /** One task for every reaction that has a handler for the status, in order: what was
      given to be called on success is called with the result, the other with the reason. */
  function Tasks(rs: seq<Reaction>, status: Status, value: Value): seq<Task> {
    if |rs| == 0 then []
    else
      var h := if status == Fulfilled then rs[0].onFulfilled else if status == Rejected then rs[0].onRejected else None;
      (if h.Some? then [Task(h.value, value)] else []) + Tasks(rs[1..], status, value)
  }

  lemma {:induction false} TasksAppend(rs: seq<Reaction>, r: Reaction, status: Status, value: Value)
    ensures Tasks(rs + [r], status, value) == Tasks(rs, status, value) + Tasks([r], status, value)
  {
    if |rs| == 0 {
      assert rs + [r] == [r];
    } else {
      assert (rs + [r])[1..] == rs[1..] + [r];
      TasksAppend(rs[1..], r, status, value);
    }
  }

  lemma {:induction false} CallsAppend(calls: seq<Call>, c: Call)
    ensures Reactions(calls + [c]) == Reactions(calls) + if c.Then? then [c.reaction] else []
    ensures StatusAfter(calls + [c]) ==
            if StatusAfter(calls) == Pending && c.Settle? then c.to else StatusAfter(calls)
    ensures ResultAfter(calls + [c]) ==
            if StatusAfter(calls) == Pending && c.Settle? && c.to != Pending then Some(c.value) else ResultAfter(calls)
    ensures StatusAfter(calls) == Pending <==> ResultAfter(calls).None?
  {
    if |calls| == 0 {
      assert calls + [c] == [c] && [c][1..] == [];
    } else {
      assert (calls + [c])[1..] == calls[1..] + [c];
      CallsAppend(calls[1..], c);
    }
  }

  class Promise {
    var status: Status
    var result: Value
    var waiting: seq<Reaction>
    var queue: seq<Task>      // what this promise has put on the microtask queue
    ghost var calls: seq<Call>

    /** The tasks of all reactions registered so far, for the kind of the first settlement
        and with its value, in the order of registration; none before it. */
    ghost function Expected(): seq<Task>
      reads this
    {
      if ResultAfter(calls).None? then [] else Tasks(Reactions(calls), StatusAfter(calls), ResultAfter(calls).value)
    }

    ghost predicate Valid()
      reads this
    {
      && status == StatusAfter(calls) && queue == Expected()
      && (status == Pending <==> ResultAfter(calls).None?)
      && (if status == Pending then waiting == Reactions(calls)
          else waiting == [] && result == ResultAfter(calls).value)
    }

    constructor ()
      ensures Valid() && calls == []
    {
      status, result, waiting, queue, calls := Pending, 0, [], [], [];
    }

    method React(r: Reaction)
      requires Valid()
      modifies this
      ensures Valid() && calls == old(calls) + [Then(r)] && status == old(status)
    {
      CallsAppend(calls, Then(r));
      calls := calls + [Then(r)];
      if status == Pending {
        waiting := waiting + [r];
      } else {
        TasksAppend(Reactions(old(calls)), r, status, result);
        assert [r][1..] == [];
        var h := r.Handler(status);
        if h.Some? {
          queue := queue + [Task(h.value, result)];
        }
      }
    }

    /** Settles the promise unless it is settled. */
    method SettleWith(to: Status, value: Value)
      requires Valid() && to != Pending
      modifies this
      ensures Valid() && calls == old(calls) + [Settle(to, value)]
      ensures status == if old(status) == Pending then to else old(status)
      ensures old(status) != Pending ==> result == old(result) && queue == old(queue)
    {
      CallsAppend(calls, Settle(to, value));
      calls := calls + [Settle(to, value)];
      assert Reactions(old(calls)) + [] == Reactions(old(calls));
      if status == Pending {
        status, result := to, value;
        Enqueue(to, value);
        waiting := [];
      }
    }

    /** Puts the handlers of the waiting reactions on the queue. */
    method Enqueue(to: Status, value: Value)
      modifies this`queue
      ensures queue == old(queue) + Tasks(waiting, to, value)
    {
      for i := 0 to |waiting|
        invariant old(queue) + Tasks(waiting, to, value) == queue + Tasks(waiting[i..], to, value)
      {
        assert waiting[i..][1..] == waiting[i + 1..];
        var h := waiting[i].Handler(to);
        if h.Some? {
          queue := queue + [Task(h.value, value)];
        }
      }
    }
  }
}
