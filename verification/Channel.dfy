/**
 The channel: a bounded FIFO whose every operation is one critical section.

 The functions say what one critical section does to the guarded state; the
 class is the object with its two wakeup signals. Runs of many tasks are built
 from the functions in `ChannelRuns` and `ChannelWakeups`.
 */
module Channel {
  import opened Common

  /** The take counter is a 64-bit word and wraps. */
  const WORD: nat := 0x1_0000_0000_0000_0000

  /** The state the mutex guards; `capacity == 0` is rendezvous. */
  datatype Chan<T> = Chan(queue: seq<T>, capacity: nat, closed: bool, taken: nat)

  datatype TakeResult<T> = Got(v: T) | Drained | WouldBlock
  datatype PutResult = Accepted | Refused | Full
  datatype Offer = Offered(token: nat) | OfferFull | OfferClosed
  datatype Status = Taken | ClosedUntaken | Waiting

  function New<T>(capacity: nat): Chan<T> {
    Chan([], capacity, false, 0)
  }

  function Close<T>(c: Chan<T>): Chan<T> {
    c.(closed := true)
  }

  function TryTake<T>(c: Chan<T>): (Chan<T>, TakeResult<T>) {
    if c.queue != [] then
      (c.(queue := c.queue[1..], taken := (c.taken + 1) % WORD), Got(c.queue[0]))
    else if c.closed then (c, Drained)
    else (c, WouldBlock)
  }

  function TryPut<T>(c: Chan<T>, v: T): (Chan<T>, PutResult) {
    if c.closed then (c, Refused)
    else if |c.queue| < c.capacity then (c.(queue := c.queue + [v]), Accepted)
    else (c, Full)
  }

  function RvOffer<T>(c: Chan<T>, v: T): (Chan<T>, Offer) {
    if c.closed then (c, OfferClosed)
    else if c.queue == [] then (c.(queue := c.queue + [v]), Offered(c.taken))
    else (c, OfferFull)
  }

  /** A cancelled offer is popped, whosever it is: that it is the caller's own
      is a property of runs. */
  function RvStatus<T>(c: Chan<T>, token: nat): (Chan<T>, Status) {
    if c.taken != token then (c, Taken)
    else if c.closed then (c.(queue := if c.queue == [] then [] else c.queue[1..]), ClosedUntaken)
    else (c, Waiting)
  }

  // ---- Wakeups ----

  type Id = nat

  /** An async wakeup signal: parked waiters in arrival order, waiters woken but
      not yet run, and at most one stored permit. */
  datatype Notify = Notify(permit: bool, parked: seq<Id>, woken: set<Id>)

  /** Wake the longest-parked waiter, or store the permit. */
  function NotifyOne(n: Notify): Notify {
    if n.parked == [] then n.(permit := true)
    else n.(parked := n.parked[1..], woken := n.woken + {n.parked[0]})
  }

  // ---- The object ----

  class CljChannel<T> {
    var queue: seq<T>
    const capacity: nat
    var closed: bool
    var taken: nat
    var notEmpty: Notify
    var notFull: Notify

    constructor (capacity: nat)
      ensures this.capacity == capacity && State() == New(capacity)
      ensures notEmpty == notFull == Notify(false, [], {})
    {
      this.capacity := capacity;
      queue, closed, taken := [], false, 0;
      notEmpty, notFull := Notify(false, [], {}), Notify(false, [], {});
    }

    function State(): Chan<T>
      reads this
    {
      Chan(queue, capacity, closed, taken)
    }

    method DoClose()
      modifies this
      ensures State() == Close(old(State()))
      ensures notEmpty == NotifyOne(old(notEmpty)) && notFull == NotifyOne(old(notFull))
    {
      closed := true;
      notEmpty := NotifyOne(notEmpty);
      notFull := NotifyOne(notFull);
    }

    /** `Some(Some(v))` is a value, `Some(None)` is nil from a closed and drained
        channel, `None` would block. */
    method DoTryTake() returns (r: Option<Option<T>>)
      modifies this
      ensures State() == TryTake(old(State())).0
      ensures r == match TryTake(old(State())).1
                   case Got(v) => Some(Some(v))
                   case Drained => Some(None)
                   case WouldBlock => None
      ensures r == None <==> !old(closed) && old(queue) == []
      ensures r == Some(None) <==> old(closed) && old(queue) == []
      ensures r.Some? && r.value.Some? ==> old(queue) == [r.value.value] + queue
      ensures notFull == if r.Some? && r.value.Some? then NotifyOne(old(notFull)) else old(notFull)
      ensures notEmpty == old(notEmpty)
    {
      if queue != [] {
        var v := queue[0];
        queue := queue[1..];
        taken := (taken + 1) % WORD;
        notFull := NotifyOne(notFull);
        return Some(Some(v));
      }
      if closed {
        return Some(None);
      }
      return None;
    }

    method DoTryPut(v: T) returns (r: Option<bool>)
      modifies this
      ensures State() == TryPut(old(State()), v).0
      ensures r == match TryPut(old(State()), v).1
                   case Accepted => Some(true)
                   case Refused => Some(false)
                   case Full => None
      ensures r == None <==> !old(closed) && |old(queue)| >= capacity
      ensures r == Some(false) <==> old(closed)
      ensures queue == old(queue) + if r == Some(true) then [v] else []
      ensures notEmpty == if r == Some(true) then NotifyOne(old(notEmpty)) else old(notEmpty)
      ensures notFull == old(notFull)
    {
      if closed {
        return Some(false);
      }
      if |queue| < capacity {
        queue := queue + [v];
        notEmpty := NotifyOne(notEmpty);
        return Some(true);
      }
      return None;
    }

    method DoRvOffer(v: T) returns (r: Offer)
      modifies this
      ensures (State(), r) == RvOffer(old(State()), v)
      ensures r.OfferClosed? <==> old(closed)
      ensures r.Offered? <==> !old(closed) && old(queue) == []
      ensures queue == old(queue) + if r.Offered? then [v] else []
      ensures notEmpty == if r.Offered? then NotifyOne(old(notEmpty)) else old(notEmpty)
      ensures notFull == old(notFull)
    {
      if closed {
        return OfferClosed;
      }
      if queue == [] {
        var token := taken;
        queue := queue + [v];
        notEmpty := NotifyOne(notEmpty);
        return Offered(token);
      }
      return OfferFull;
    }

    method DoRvStatus(token: nat) returns (r: Status)
      modifies this
      ensures (State(), r) == RvStatus(old(State()), token)
      ensures r.Taken? <==> taken != token
      ensures r.Waiting? <==> taken == token && !closed
      ensures !r.ClosedUntaken? ==> queue == old(queue)
      ensures notEmpty == old(notEmpty) && notFull == old(notFull)
    {
      if taken != token {
        return Taken;
      }
      if closed {
        if queue != [] {
          queue := queue[1..];
        }
        return ClosedUntaken;
      }
      return Waiting;
    }
  }
}
