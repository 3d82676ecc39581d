/**
 Safety of channels over every interleaving of any number of put and take
 operations and closes, async or blocking: each step is one critical section of
 one operation, and any unfinished operation may take the next step.
 */
module ChannelRuns {
  import opened Common
  import opened Channel

  type Payload = nat

  /** A queued value, with the identity of the put that supplied it. */
  datatype Item = Item(putter: Id, v: Payload)

  /** One put or one take. `at` is the number of takes when the offer was made. */
  datatype Task =
    | Putting(v: Payload)
    | Pending(v: Payload, token: nat, at: nat)
    | PutDone(v: Payload, ok: bool)
    | Taking
    | TakeDone(got: Option<Item>)

  /** The channel, the operations, and the history of what happened to values. */
  datatype Sys = Sys(
    ch: Chan<Item>,
    tasks: map<Id, Task>,
    accepted: seq<Item>,
    log: seq<(Id, Item)>,
    cancelled: seq<(Id, Item)>)

  datatype Action = SpawnPut(id: Id, v: Payload) | SpawnTake(id: Id) | Run(id: Id) | CloseIt

  predicate Live(t: Task) {
    t.Putting? || t.Pending? || t.Taking?
  }

  predicate Enabled(s: Sys, a: Action) {
    match a
    case SpawnPut(id, _) => id !in s.tasks
    case SpawnTake(id) => id !in s.tasks
    case Run(id) => id in s.tasks && Live(s.tasks[id])
    case CloseIt => true
  }

  function RunTake(s: Sys, id: Id): Sys {
    var (ch, r) := TryTake(s.ch);
    match r
    case Got(item) => s.(ch := ch, tasks := s.tasks[id := TakeDone(Some(item))], log := s.log + [(id, item)])
    case Drained => s.(tasks := s.tasks[id := TakeDone(None)])
    case WouldBlock => s
  }

  function RunPutBuffered(s: Sys, id: Id, v: Payload): Sys {
    var (ch, r) := TryPut(s.ch, Item(id, v));
    match r
    case Accepted =>
      s.(ch := ch, tasks := s.tasks[id := PutDone(v, true)], accepted := s.accepted + [Item(id, v)])
    case Refused => s.(tasks := s.tasks[id := PutDone(v, false)])
    case Full => s
  }

  function RunOffer(s: Sys, id: Id, v: Payload): Sys {
    var (ch, r) := RvOffer(s.ch, Item(id, v));
    match r
    case Offered(token) =>
      s.(ch := ch, tasks := s.tasks[id := Pending(v, token, |s.log|)], accepted := s.accepted + [Item(id, v)])
    case OfferClosed => s.(tasks := s.tasks[id := PutDone(v, false)])
    case OfferFull => s
  }

  function RunStatus(s: Sys, id: Id, v: Payload, token: nat): Sys {
    var (ch, r) := RvStatus(s.ch, token);
    match r
    case Taken => s.(tasks := s.tasks[id := PutDone(v, true)])
    case ClosedUntaken =>
      s.(ch := ch, tasks := s.tasks[id := PutDone(v, false)],
         cancelled := s.cancelled + (if s.ch.queue == [] then [] else [(id, s.ch.queue[0])]))
    case Waiting => s
  }

  function RunTask(s: Sys, id: Id): Sys
    requires Enabled(s, Run(id))
  {
    match s.tasks[id]
    case Taking => RunTake(s, id)
    case Putting(v) => if s.ch.capacity == 0 then RunOffer(s, id, v) else RunPutBuffered(s, id, v)
    case Pending(v, token, _) => RunStatus(s, id, v, token)
  }

  function Apply(s: Sys, a: Action): Sys
    requires Enabled(s, a)
  {
    match a
    case SpawnPut(id, v) => s.(tasks := s.tasks[id := Putting(v)])
    case SpawnTake(id) => s.(tasks := s.tasks[id := Taking])
    case Run(id) => RunTask(s, id)
    case CloseIt => s.(ch := Close(s.ch))
  }

  function Init(capacity: nat): Sys {
    Sys(New(capacity), map[], [], [], [])
  }

  /** Fewer than 2^64 takes have happened since each offer that still waits. */
  ghost predicate NoWrap(s: Sys) {
    forall id :: id in s.tasks && s.tasks[id].Pending? ==> |s.log| - s.tasks[id].at < WORD
  }

  ghost predicate Next(s: Sys, s': Sys) {
    exists a :: Enabled(s, a) && s' == Apply(s, a)
  }

  /** An execution: any number of steps from a fresh channel. */
  ghost predicate IsExec(capacity: nat, run: seq<Sys>) {
    |run| > 0 && run[0] == Init(capacity) &&
    forall i :: 0 <= i < |run| - 1 ==> NoWrap(run[i]) && Next(run[i], run[i + 1])
  }

  // ---- The invariant ----

  function Items(log: seq<(Id, Item)>): seq<Item> {
    seq(|log|, i requires 0 <= i < |log| => log[i].1)
  }

  /** Every accepted value is taken, cancelled or queued, in that order. */
  ghost predicate Conserved(s: Sys) {
    s.accepted == Items(s.log) + Items(s.cancelled) + s.ch.queue
  }

  ghost predicate Bounded(s: Sys) {
    s.ch.taken == |s.log| % WORD &&
    |s.ch.queue| <= (if s.ch.capacity == 0 then 1 else s.ch.capacity) &&
    |s.cancelled| <= 1 &&
    (s.cancelled != [] ==> s.ch.closed && s.ch.capacity == 0 && s.ch.queue == [])
  }

  /** An accepted value names the put that supplied it, and no put supplies two. */
  ghost predicate Tagged(s: Sys) {
    (forall i :: 0 <= i < |s.accepted| ==>
      var p := s.accepted[i].putter;
      p in s.tasks && (s.tasks[p].Pending? || s.tasks[p].PutDone?) && s.tasks[p].v == s.accepted[i].v) &&
    (forall i, j :: 0 <= i < j < |s.accepted| ==> s.accepted[i].putter != s.accepted[j].putter)
  }

  ghost predicate CancelledOwn(s: Sys) {
    forall i :: 0 <= i < |s.cancelled| ==>
      var (p, item) := s.cancelled[i];
      item.putter == p && p in s.tasks && s.tasks[p].PutDone? && !s.tasks[p].ok
  }

  ghost predicate PendingOk(s: Sys, id: Id)
    requires id in s.tasks && s.tasks[id].Pending?
  {
    var t := s.tasks[id];
    s.ch.capacity == 0 && t.token == t.at % WORD && t.at <= |s.log| &&
    t.at < |s.accepted| && s.accepted[t.at] == Item(id, t.v)
  }

  ghost predicate WasAccepted(s: Sys, id: Id) {
    exists i :: 0 <= i < |s.accepted| && s.accepted[i].putter == id
  }

  ghost predicate DeliveredFrom(s: Sys, id: Id) {
    exists i :: 0 <= i < |s.log| && s.log[i].1.putter == id
  }

  /** What a finished put promised. */
  ghost predicate PutDoneOk(s: Sys, id: Id)
    requires id in s.tasks && s.tasks[id].PutDone?
  {
    if !s.tasks[id].ok then
      !DeliveredFrom(s, id) && (WasAccepted(s, id) ==> s.cancelled != [] && s.cancelled[0].0 == id)
    else if s.ch.capacity == 0 then DeliveredFrom(s, id)
    else WasAccepted(s, id)
  }

  ghost predicate PutsOk(s: Sys) {
    (forall id :: id in s.tasks && s.tasks[id].Pending? ==> PendingOk(s, id)) &&
    (forall id :: id in s.tasks && s.tasks[id].PutDone? ==> PutDoneOk(s, id))
  }

  /** Takers and the take log agree, and no taker takes twice. */
  ghost predicate TakesOk(s: Sys) {
    (forall i :: 0 <= i < |s.log| ==>
      s.log[i].0 in s.tasks && s.tasks[s.log[i].0] == TakeDone(Some(s.log[i].1))) &&
    (forall i, j :: 0 <= i < j < |s.log| ==> s.log[i].0 != s.log[j].0) &&
    (forall id :: id in s.tasks && s.tasks[id].TakeDone? && s.tasks[id].got.Some? ==>
      exists i :: 0 <= i < |s.log| && s.log[i] == (id, s.tasks[id].got.value))
  }

  ghost predicate Inv(s: Sys) {
    Conserved(s) && Bounded(s) && Tagged(s) && CancelledOwn(s) && PutsOk(s) && TakesOk(s)
  }

  // ---- Every step keeps the invariant ----

  lemma LogIsPrefix(s: Sys, i: nat)
    requires Conserved(s) && i < |s.log|
    ensures i < |s.accepted| && s.accepted[i] == s.log[i].1
  {
  }

  lemma SpawnKeeps(s: Sys, id: Id, t: Task)
    requires Inv(s) && id !in s.tasks && (t.Putting? || t.Taking?)
    ensures Inv(s.(tasks := s.tasks[id := t]))
  {
    var s' := s.(tasks := s.tasks[id := t]);
    forall p | p in s'.tasks && s'.tasks[p].PutDone? ensures PutDoneOk(s', p) {
      assert PutDoneOk(s, p);
      assert DeliveredFrom(s, p) == DeliveredFrom(s', p) && WasAccepted(s, p) == WasAccepted(s', p);
    }
    forall p | p in s'.tasks && s'.tasks[p].Pending? ensures PendingOk(s', p) {
      assert PendingOk(s, p);
    }
  }

  lemma CloseKeeps(s: Sys)
    requires Inv(s)
    ensures Inv(s.(ch := Close(s.ch)))
  {
    var s' := s.(ch := Close(s.ch));
    forall p | p in s'.tasks && s'.tasks[p].PutDone? ensures PutDoneOk(s', p) {
      assert PutDoneOk(s, p);
      assert DeliveredFrom(s, p) == DeliveredFrom(s', p) && WasAccepted(s, p) == WasAccepted(s', p);
    }
    forall p | p in s'.tasks && s'.tasks[p].Pending? ensures PendingOk(s', p) {
      assert PendingOk(s, p);
    }
  }

  /** An offer whose turn has come was delivered; a put not yet accepted was not. */
  lemma FinishedPut(s: Sys, id: Id)
    requires Inv(s) && id in s.tasks
    ensures s.tasks[id].Pending? && |s.log| > s.tasks[id].at ==> DeliveredFrom(s, id) && s.ch.capacity == 0
    ensures s.tasks[id].Putting? ==> !WasAccepted(s, id) && !DeliveredFrom(s, id)
  {
    if s.tasks[id].Pending? && |s.log| > s.tasks[id].at {
      assert PendingOk(s, id);
      LogIsPrefix(s, s.tasks[id].at);
    } else if s.tasks[id].Putting? {
      assert !WasAccepted(s, id);
      forall i | 0 <= i < |s.log| ensures s.log[i].1.putter != id {
        LogIsPrefix(s, i);
      }
    }
  }

  /** A put or take that ends without touching the queue. */
  lemma FinishKeeps(s: Sys, id: Id, t: Task)
    requires Inv(s) && id in s.tasks
    requires s.tasks[id].Taking? ==> t == TakeDone(None)
    requires s.tasks[id].Putting? ==> t == PutDone(s.tasks[id].v, false)
    requires s.tasks[id].Pending? ==> t == PutDone(s.tasks[id].v, true) && |s.log| > s.tasks[id].at
    requires Live(s.tasks[id])
    ensures Inv(s.(tasks := s.tasks[id := t]))
  {
    var s' := s.(tasks := s.tasks[id := t]);
    forall p | p in s'.tasks && s'.tasks[p].PutDone? ensures PutDoneOk(s', p) {
      assert DeliveredFrom(s, p) == DeliveredFrom(s', p) && WasAccepted(s, p) == WasAccepted(s', p);
      if p != id {
        assert PutDoneOk(s, p);
      } else {
        FinishedPut(s, id);
      }
    }
    forall p | p in s'.tasks && s'.tasks[p].Pending? ensures PendingOk(s', p) {
      assert PendingOk(s, p);
    }
  }

  lemma GotConserves(s: Sys, id: Id)
    requires Inv(s) && id in s.tasks && s.tasks[id].Taking? && s.ch.queue != []
    ensures Conserved(RunTake(s, id)) && Bounded(RunTake(s, id))
  {
    var s' := RunTake(s, id);
    assert s.cancelled == [];
    assert Items(s'.log) == Items(s.log) + [s.ch.queue[0]];
    assert s.ch.queue == [s.ch.queue[0]] + s.ch.queue[1..];
  }

  lemma GotPutDone(s: Sys, id: Id, p: Id)
    requires Inv(s) && id in s.tasks && s.tasks[id].Taking? && s.ch.queue != []
    requires p in s.tasks && s.tasks[p].PutDone?
    ensures PutDoneOk(RunTake(s, id), p)
  {
    var s', item := RunTake(s, id), s.ch.queue[0];
    assert s.accepted[|s.log|] == item;
    assert PutDoneOk(s, p);
    assert WasAccepted(s, p) == WasAccepted(s', p);
    if DeliveredFrom(s, p) {
      var i :| 0 <= i < |s.log| && s.log[i].1.putter == p;
      assert s'.log[i] == s.log[i];
    } else if item.putter == p {
      assert WasAccepted(s, p);
      assert s'.log[|s.log|].1 == item;
    } else {
      assert !DeliveredFrom(s', p);
    }
  }

  lemma GotKeeps(s: Sys, id: Id)
    requires Inv(s) && id in s.tasks && s.tasks[id].Taking? && s.ch.queue != []
    ensures Inv(RunTake(s, id))
  {
    var s' := RunTake(s, id);
    var item, n := s.ch.queue[0], |s.log|;
    GotConserves(s, id);
    LogIsPrefix(s', n);
    assert s'.log[n] == (id, item) && s.accepted[n] == item;
    forall p | p in s'.tasks && s'.tasks[p].PutDone? ensures PutDoneOk(s', p) {
      GotPutDone(s, id, p);
    }
    forall p | p in s'.tasks && s'.tasks[p].Pending? ensures PendingOk(s', p) {
      assert PendingOk(s, p);
    }
    GotTakes(s, id);
  }

  lemma GotTakes(s: Sys, id: Id)
    requires TakesOk(s) && id in s.tasks && s.tasks[id].Taking? && s.ch.queue != []
    ensures TakesOk(RunTake(s, id))
  {
    var s' := RunTake(s, id);
    assert s'.log[|s.log|] == (id, s.ch.queue[0]);
    forall t | t in s'.tasks && s'.tasks[t].TakeDone? && s'.tasks[t].got.Some?
      ensures exists i :: 0 <= i < |s'.log| && s'.log[i] == (t, s'.tasks[t].got.value)
    {
      if t != id {
        var i :| 0 <= i < |s.log| && s.log[i] == (t, s.tasks[t].got.value);
        assert s'.log[i] == s.log[i];
      }
    }
  }

  /** A value enters the queue: the buffered put is done, the offer waits. */
  lemma EnqueueKeeps(s: Sys, id: Id, t: Task)
    requires Inv(s) && id in s.tasks && s.tasks[id].Putting? && !s.ch.closed
    requires |s.ch.queue| < if s.ch.capacity == 0 then 1 else s.ch.capacity
    requires var v := s.tasks[id].v;
      t == if s.ch.capacity == 0 then Pending(v, s.ch.taken, |s.log|) else PutDone(v, true)
    ensures var item := Item(id, s.tasks[id].v);
      Inv(s.(ch := s.ch.(queue := s.ch.queue + [item]), tasks := s.tasks[id := t], accepted := s.accepted + [item]))
  {
    var item := Item(id, s.tasks[id].v);
    var s' := s.(ch := s.ch.(queue := s.ch.queue + [item]), tasks := s.tasks[id := t], accepted := s.accepted + [item]);
    assert s.cancelled == [];
    assert Conserved(s');
    assert !WasAccepted(s, id);
    assert s'.accepted[|s.accepted|] == item;
    forall p | p in s'.tasks && s'.tasks[p].PutDone? ensures PutDoneOk(s', p) {
      if p == id {
        assert WasAccepted(s', id);
      } else {
        EnqueuePutDone(s, s', item, p);
      }
    }
    forall p | p in s'.tasks && s'.tasks[p].Pending? ensures PendingOk(s', p) {
      if p != id {
        assert PendingOk(s, p);
      }
    }
  }

  /** Another put's value does not disturb a finished put. */
  lemma EnqueuePutDone(s: Sys, s': Sys, item: Item, p: Id)
    requires p in s.tasks && s.tasks[p].PutDone? && PutDoneOk(s, p) && p != item.putter
    requires p in s'.tasks && s'.tasks[p] == s.tasks[p]
    requires s'.accepted == s.accepted + [item] && s'.log == s.log && s'.cancelled == s.cancelled
    requires s'.ch.capacity == s.ch.capacity
    ensures PutDoneOk(s', p)
  {
    assert DeliveredFrom(s, p) == DeliveredFrom(s', p);
    if WasAccepted(s, p) {
      var i :| 0 <= i < |s.accepted| && s.accepted[i].putter == p;
      assert s'.accepted[i] == s.accepted[i];
    } else {
      assert !WasAccepted(s', p);
    }
  }

  /** The heart of the rendezvous: while the take count stands at the token, the
      queue holds the waiting offer and nothing else. */
  lemma PendingIsQueued(s: Sys, id: Id)
    requires Inv(s) && id in s.tasks && s.tasks[id].Pending? && s.tasks[id].at == |s.log|
    ensures s.ch.queue == [Item(id, s.tasks[id].v)] && s.cancelled == []
    ensures !DeliveredFrom(s, id)
  {
    var n := |s.log|;
    assert PendingOk(s, id);
    assert s.cancelled == [];
    assert s.ch.queue[0] == s.accepted[n];
    forall i | 0 <= i < n ensures s.log[i].1.putter != id {
      LogIsPrefix(s, i);
    }
  }

  lemma CancelKeeps(s: Sys, id: Id)
    requires Inv(s) && id in s.tasks && s.tasks[id].Pending? && s.ch.closed
    requires s.tasks[id].at == |s.log|
    ensures Inv(RunStatus(s, id, s.tasks[id].v, s.tasks[id].token))
  {
    var v := s.tasks[id].v;
    var s' := RunStatus(s, id, v, s.tasks[id].token);
    PendingIsQueued(s, id);
    assert PendingOk(s, id);
    assert s'.cancelled == [(id, Item(id, v))];
    assert Items(s'.cancelled) == [Item(id, v)];
    assert Conserved(s');
    forall p | p in s'.tasks && s'.tasks[p].PutDone? ensures PutDoneOk(s', p) {
      assert DeliveredFrom(s, p) == DeliveredFrom(s', p) && WasAccepted(s, p) == WasAccepted(s', p);
      if p != id {
        assert PutDoneOk(s, p);
      }
    }
    forall p | p in s'.tasks && s'.tasks[p].Pending? ensures PendingOk(s', p) {
      assert PendingOk(s, p);
    }
  }

  lemma SameWord(a: nat, b: nat)
    requires a <= b && b - a < WORD && a % WORD == b % WORD
    ensures a == b
  {
  }

  /** The token answers rightly exactly until the counter comes round to it. */
  lemma TokenExact(s: Sys, id: Id)
    requires Inv(s) && id in s.tasks && s.tasks[id].Pending?
    ensures var t := s.tasks[id];
      (RvStatus(s.ch, t.token).1 == Taken <==> DeliveredFrom(s, id)) <==>
      !(t.at < |s.log| && (|s.log| - t.at) % WORD == 0)
  {
    var t := s.tasks[id];
    assert PendingOk(s, id);
    if t.at == |s.log| {
      PendingIsQueued(s, id);
    } else {
      LogIsPrefix(s, t.at);
      assert s.ch.taken == t.token <==> (|s.log| - t.at) % WORD == 0;
    }
  }

  lemma StatusKeeps(s: Sys, id: Id)
    requires Inv(s) && NoWrap(s) && id in s.tasks && s.tasks[id].Pending?
    ensures Inv(RunStatus(s, id, s.tasks[id].v, s.tasks[id].token))
  {
    var t := s.tasks[id];
    assert PendingOk(s, id);
    if s.ch.taken != t.token {
      FinishKeeps(s, id, PutDone(t.v, true));
    } else if s.ch.closed {
      SameWord(t.at, |s.log|);
      CancelKeeps(s, id);
    }
  }

  lemma RunKeeps(s: Sys, id: Id)
    requires Inv(s) && NoWrap(s) && Enabled(s, Run(id))
    ensures Inv(RunTask(s, id))
  {
    match s.tasks[id]
    case Taking =>
      if s.ch.queue != [] {
        GotKeeps(s, id);
      } else if s.ch.closed {
        FinishKeeps(s, id, TakeDone(None));
      }
    case Putting(v) =>
      if s.ch.closed {
        FinishKeeps(s, id, PutDone(v, false));
      } else if s.ch.capacity == 0 && s.ch.queue == [] {
        EnqueueKeeps(s, id, Pending(v, s.ch.taken, |s.log|));
      } else if s.ch.capacity > 0 && |s.ch.queue| < s.ch.capacity {
        EnqueueKeeps(s, id, PutDone(v, true));
      }
    case Pending(v, token, at) =>
      StatusKeeps(s, id);
  }

  lemma StepKeeps(s: Sys, a: Action)
    requires Inv(s) && NoWrap(s) && Enabled(s, a)
    ensures Inv(Apply(s, a)) && Apply(s, a).ch.capacity == s.ch.capacity
  {
    match a
    case SpawnPut(id, v) => SpawnKeeps(s, id, Putting(v));
    case SpawnTake(id) => SpawnKeeps(s, id, Taking);
    case Run(id) => RunKeeps(s, id);
    case CloseIt => CloseKeeps(s);
  }

  lemma {:induction false} ExecInv(capacity: nat, run: seq<Sys>, i: nat)
    requires IsExec(capacity, run) && i < |run|
    ensures Inv(run[i]) && run[i].ch.capacity == capacity
  {
    if i > 0 {
      ExecInv(capacity, run, i - 1);
      assert NoWrap(run[i - 1]) && Next(run[i - 1], run[i]);
      var a :| Enabled(run[i - 1], a) && run[i] == Apply(run[i - 1], a);
      StepKeeps(run[i - 1], a);
    }
  }

  // ---- Main results ----

  /** Conservation and order: in every execution the accepted values, in enqueue
      order, are the taken ones, then at most one cancelled offer, then the
      queue; the counter counts the takes; the queue is bounded. */
  lemma ChannelConserves(capacity: nat, run: seq<Sys>, i: nat)
    requires IsExec(capacity, run) && i < |run|
    ensures run[i].accepted == Items(run[i].log) + Items(run[i].cancelled) + run[i].ch.queue
    ensures |run[i].cancelled| <= 1 && (capacity > 0 ==> run[i].cancelled == [])
    ensures run[i].ch.taken == |run[i].log| % WORD
    ensures |run[i].ch.queue| <= if capacity == 0 then 1 else capacity
  {
    ExecInv(capacity, run, i);
  }

  /** `id`'s own value reached exactly one taker. */
  ghost predicate DeliveredOnce(s: Sys, id: Id)
    requires id in s.tasks && s.tasks[id].PutDone?
  {
    exists k :: 0 <= k < |s.log| && s.log[k].1 == Item(id, s.tasks[id].v) &&
      s.log[k].0 in s.tasks && s.tasks[s.log[k].0] == TakeDone(Some(s.log[k].1)) &&
      forall j :: 0 <= j < |s.log| && j != k ==> s.log[j].1.putter != id && s.log[j].0 != s.log[k].0
  }

  /** Rendezvous puts are exact: one that returned true had its own value
      delivered to exactly one taker, one that returned false has not been
      delivered and, this holding of every later state too, never will be. */
  lemma RendezvousExact(run: seq<Sys>, i: nat, id: Id)
    requires IsExec(0, run) && i < |run| && id in run[i].tasks && run[i].tasks[id].PutDone?
    ensures run[i].tasks[id].ok <==> DeliveredOnce(run[i], id)
    ensures !run[i].tasks[id].ok <==> !DeliveredFrom(run[i], id)
    ensures !run[i].tasks[id].ok ==> forall q :: q in run[i].ch.queue ==> q.putter != id
  {
    var s := run[i];
    ExecInv(0, run, i);
    assert PutDoneOk(s, id);
    if s.tasks[id].ok {
      var k :| 0 <= k < |s.log| && s.log[k].1.putter == id;
      LogIsPrefix(s, k);
      forall j | 0 <= j < |s.log| && j != k ensures s.log[j].1.putter != id && s.log[j].0 != s.log[k].0 {
        LogIsPrefix(s, j);
      }
    } else {
      forall q | q in s.ch.queue ensures q.putter != id {
        var j :| 0 <= j < |s.ch.queue| && s.ch.queue[j] == q;
        assert s.accepted[|s.log| + |s.cancelled| + j] == q;
      }
    }
  }

  /** A cancellation removed the canceller's own offer. */
  lemma CancelsOwnOffer(capacity: nat, run: seq<Sys>, i: nat, k: nat)
    requires IsExec(capacity, run) && i < |run| && k < |run[i].cancelled|
    ensures run[i].cancelled[k].1.putter == run[i].cancelled[k].0
    ensures !DeliveredFrom(run[i], run[i].cancelled[k].0)
  {
    ExecInv(capacity, run, i);
    assert PutDoneOk(run[i], run[i].cancelled[k].0);
  }

  /** A buffered put returned true exactly if its value was accepted. */
  lemma BufferedExact(capacity: nat, run: seq<Sys>, i: nat, id: Id)
    requires IsExec(capacity, run) && capacity > 0 && i < |run|
    requires id in run[i].tasks && run[i].tasks[id].PutDone?
    ensures run[i].tasks[id].ok <==> WasAccepted(run[i], id)
  {
    ExecInv(capacity, run, i);
    assert PutDoneOk(run[i], id);
  }
}
