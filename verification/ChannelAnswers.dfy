/**
 What an operation's answer says about the channel: when a take ends with a value,
 with nil or not at all, when a put is accepted, refused or kept waiting; and, over
 every execution, that nil and false are answers of a closed channel only.
 */
module ChannelAnswers {
  import opened Common
  import opened Channel
  import opened ChannelRuns
  import opened ChannelWakeups

  /** A take gets the oldest value if there is one, nil if and only if the channel is closed and empty, and
      waits, changing nothing, if and only if it is open and empty. */
  lemma TakeAnswers(s: Sys, id: Id)
    requires Enabled(s, Run(id)) && s.tasks[id] == Taking
    ensures var s' := Apply(s, Run(id));
      && (s'.tasks[id] == TakeDone(None) <==> s.ch.closed && s.ch.queue == [])
      && (s'.tasks[id] == Taking <==> !s.ch.closed && s.ch.queue == [])
      && (s'.tasks[id].TakeDone? && s'.tasks[id].got.Some? <==> s.ch.queue != [])
      && (s.ch.queue != [] ==> s'.tasks[id].got.value == s.ch.queue[0] && s'.ch.queue == s.ch.queue[1..])
      && (s.ch.queue == [] ==> s'.ch == s.ch && s'.log == s.log)
      && s'.accepted == s.accepted && s'.cancelled == s.cancelled
  {
  }

  /** A buffered put is accepted at the end of the queue if and only if the channel is open with room,
      refused if and only if it is closed, and otherwise waits. */
  lemma PutAnswers(s: Sys, id: Id, v: Payload)
    requires Enabled(s, Run(id)) && s.tasks[id] == Putting(v) && s.ch.capacity > 0
    ensures var s' := Apply(s, Run(id));
      && (s'.tasks[id] == PutDone(v, true) <==> !s.ch.closed && |s.ch.queue| < s.ch.capacity)
      && (s'.tasks[id] == PutDone(v, false) <==> s.ch.closed)
      && (s'.tasks[id] == Putting(v) <==> !s.ch.closed && |s.ch.queue| >= s.ch.capacity)
      && s'.ch == s.ch.(queue := s.ch.queue + if s'.tasks[id] == PutDone(v, true) then [Item(id, v)] else [])
  {
    assert s.ch.queue + [] == s.ch.queue;
  }

  /** A rendezvous put makes its offer if and only if the channel is open and the slot free. */
  lemma OfferAnswers(s: Sys, id: Id, v: Payload)
    requires Enabled(s, Run(id)) && s.tasks[id] == Putting(v) && s.ch.capacity == 0
    ensures var s' := Apply(s, Run(id));
      && (s'.tasks[id].Pending? <==> !s.ch.closed && s.ch.queue == [])
      && (s'.tasks[id] == PutDone(v, false) <==> s.ch.closed)
      && (s'.tasks[id] == Putting(v) <==> !s.ch.closed && s.ch.queue != [])
      && s'.ch == s.ch.(queue := s.ch.queue + if s'.tasks[id].Pending? then [Item(id, v)] else [])
  {
    assert s.ch.queue + [] == s.ch.queue;
  }

  /** In every execution an offer answers true if and only if its value was taken, false if and only if it was
      not and the channel is closed, and waits as long as neither has happened. */
  lemma StatusAnswers(run: seq<Sys>, i: nat, id: Id)
    requires IsExec(0, run) && i < |run| && NoWrap(run[i]) && id in run[i].tasks && run[i].tasks[id].Pending?
    ensures var s := run[i];
      var s', v := Apply(s, Run(id)), s.tasks[id].v;
      && (s'.tasks[id] == PutDone(v, true) <==> DeliveredFrom(s, id))
      && (s'.tasks[id] == PutDone(v, false) <==> !DeliveredFrom(s, id) && s.ch.closed)
      && (s'.tasks[id] == s.tasks[id] <==> !DeliveredFrom(s, id) && !s.ch.closed)
  {
    ExecInv(0, run, i);
    TokenExact(run[i], id);
    NotComeRound(run[i], id);
  }

  lemma NotComeRound(s: Sys, id: Id)
    requires Inv(s) && NoWrap(s) && id in s.tasks && s.tasks[id].Pending?
    ensures s.tasks[id].at < |s.log| ==> (|s.log| - s.tasks[id].at) % WORD != 0
  {
    assert PendingOk(s, id);
    assert |s.log| - s.tasks[id].at < WORD;
  }

  /** Operations that ended without a value taken or accepted. */
  ghost predicate EndedEmpty(s: Sys, id: Id) {
    id in s.tasks && (s.tasks[id] == TakeDone(None) || (s.tasks[id].PutDone? && !s.tasks[id].ok))
  }

  ghost predicate OnlyIfClosed(s: Sys) {
    forall id :: EndedEmpty(s, id) ==> s.ch.closed
  }

  lemma StepOnlyIfClosed(s: Sys, a: Action)
    requires OnlyIfClosed(s) && Enabled(s, a)
    ensures OnlyIfClosed(Apply(s, a)) && (s.ch.closed ==> Apply(s, a).ch.closed)
  {
    var s' := Apply(s, a);
    forall id | EndedEmpty(s', id) ensures s'.ch.closed {
      assert EndedEmpty(s, id) || a == Run(id);
    }
  }

  /** In every execution a take that ended with nil, and a put that ended with false, ended on a closed channel. */
  lemma {:induction false} EndedOnlyIfClosed(capacity: nat, run: seq<Sys>, i: nat)
    requires IsExec(capacity, run) && i < |run|
    ensures forall id :: id in run[i].tasks && run[i].tasks[id] == TakeDone(None) ==> run[i].ch.closed
    ensures forall id :: id in run[i].tasks && run[i].tasks[id].PutDone? && !run[i].tasks[id].ok ==> run[i].ch.closed
  {
    RunOnlyIfClosed(capacity, run, i);
    forall id | EndedEmpty(run[i], id) ensures run[i].ch.closed {
    }
    assert forall id :: id in run[i].tasks && run[i].tasks[id] == TakeDone(None) ==> EndedEmpty(run[i], id);
    assert forall id :: id in run[i].tasks && run[i].tasks[id].PutDone? && !run[i].tasks[id].ok ==>
      EndedEmpty(run[i], id);
  }

  lemma {:induction false} RunOnlyIfClosed(capacity: nat, run: seq<Sys>, i: nat)
    requires IsExec(capacity, run) && i < |run|
    ensures OnlyIfClosed(run[i])
  {
    if i > 0 {
      RunOnlyIfClosed(capacity, run, i - 1);
      assert Next(run[i - 1], run[i]);
      var a :| Enabled(run[i - 1], a) && run[i] == Apply(run[i - 1], a);
      StepOnlyIfClosed(run[i - 1], a);
    }
  }

  /** An async operation that is polled ends or parks, on its own side of the channel and behind all others. */
  lemma EndsOrParks(a: Async, id: Id)
    requires Can(a, Run(id))
    ensures var a' := Do(a, Run(id));
      && (id in a'.takers.parked <==> a'.sys.tasks[id] == Taking)
      && (id in a'.putters.parked <==> a'.sys.tasks[id].Putting? || a'.sys.tasks[id].Pending?)
      && (id in a'.takers.parked ==> a'.takers.parked == a.takers.parked + [id])
      && (id in a'.putters.parked ==> a'.putters.parked == a.putters.parked + [id])
  {
  }

  /** A take that ends wakes the longest-parked put if it got a value. It wakes the longest-parked take exactly
      if it ends with nil, from a closed channel or as a value. */
  lemma TakePassesOn(a: Async, id: Id)
    requires Can(a, Run(id)) && a.sys.tasks[id] == Taking && id !in a.takers.parked
    requires Do(a, Run(id)).sys.tasks[id].TakeDone?
    ensures var a', got := Do(a, Run(id)), Do(a, Run(id)).sys.tasks[id].got;
      && a'.putters.parked == (if got.Some? && a.putters.parked != [] then a.putters.parked[1..] else a.putters.parked)
      && a'.takers.parked ==
         (if (got.None? || got.value.v == 0) && a.takers.parked != [] then a.takers.parked[1..] else a.takers.parked)
  {
  }
}
