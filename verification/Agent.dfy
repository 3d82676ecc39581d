/**
 Agents: a state, a mailbox of actions applied one at a time, failure and
 restart. The two drainers (a task on the executor, and an inline loop where
 there is no executor) share these operations on the mailbox.
 */
module Agent {
  import opened Common

  /** What an action settles to, directly or through the future it hands back. */
  datatype Outcome<S, E> = Done(value: S) | Threw(error: E)

  /**
   What user code does. An action is one `send`, so a function of the action
   and the state it receives leaves its behaviour free. `watch` gives the
   result of every watch in order, an error or nothing.
   */
  datatype Behaviour<!S, !A, !E> = Behaviour(run: (A, S) -> Outcome<S, E>, watch: (A, S, S) -> seq<Option<E>>)

  datatype Mailbox<S, A, E> = Mailbox(state: S, error: Option<E>, queue: seq<A>, draining: bool)

  datatype Sent = Accepted | Refused | NoContext

  function FirstError<E>(results: seq<Option<E>>): (r: Option<E>)
    ensures r.None? <==> forall i :: 0 <= i < |results| ==> results[i].None?
    ensures r.Some? ==> exists i ::
      0 <= i < |results| && results[i] == r && forall j :: 0 <= j < i ==> results[j].None?
  {
    if |results| == 0 then None
    else if results[0].Some? then results[0]
    else
      var r := FirstError(results[1..]);
      assert forall i :: 0 < i < |results| ==> results[i] == results[1..][i - 1];
      assert r.Some? ==> exists i ::
        0 <= i < |results| && results[i] == r && forall j :: 0 <= j < i ==> results[j].None?
      by {
        if r.Some? {
          var k :| 0 <= k < |results[1..]| && results[1..][k] == r && forall j :: 0 <= j < k ==> results[1..][j].None?;
          assert results[k + 1] == r;
        }
      }
      r
  }

  /** The error that ends an action's turn, of the action or of the first failing watch. */
  function Failure<S, A, E>(b: Behaviour<S, A, E>, a: A, prev: S): Option<E> {
    match b.run(a, prev)
    case Done(next) => FirstError(b.watch(a, prev, next))
    case Threw(e) => Some(e)
  }

  /** The state after an action's turn: a failing watch does not take the new state back. */
  function StateAfter<S, A, E>(b: Behaviour<S, A, E>, a: A, prev: S): S {
    match b.run(a, prev)
    case Done(next) => next
    case Threw(_) => prev
  }

  function Settle<S, A, E>(b: Behaviour<S, A, E>, m: Mailbox<S, A, E>, a: A, prev: S): Mailbox<S, A, E> {
    var failure := Failure(b, a, prev);
    var m' := if b.run(a, prev).Done? then m.(state := b.run(a, prev).value) else m;
    if failure.Some? then m'.(error := failure, draining := false) else m'
  }

  /** What an action's own sends add to the mailbox: a failed agent refuses them. */
  function Joined<S, A, E>(m: Mailbox<S, A, E>, more: seq<A>): seq<A> {
    if m.error.Some? then [] else more
  }

  /** The inline drain: the k-th action taken sends `script[k]` to its own agent while it runs. */
  function Drained<S, A, E>(b: Behaviour<S, A, E>, m: Mailbox<S, A, E>, script: seq<seq<A>>)
    : (r: (Mailbox<S, A, E>, nat))
    ensures |m.queue| == 0 <==> r.1 == 0
    decreases Total(script) + |m.queue|
  {
    if |m.queue| == 0 then (m.(draining := false), 0)
    else
      var a := m.queue[0];
      var m1 := m.(queue := m.queue[1..] + Joined(m, Head(script)));
      var m2 := Settle(b, m1, a, m.state);
      HeadTotal(script);
      if Failure(b, a, m.state).Some? then (m2, 1)
      else
        var (m3, n) := Drained(b, m2, Tail(script));
        (m3, n + 1)
  }

  /** `error` is the first there is among the results, if there is one. */
  ghost predicate IsFirst<E>(error: Option<E>, results: seq<Option<E>>) {
    match error
    case None => forall i :: 0 <= i < |results| ==> results[i].None?
    case Some(e) =>
      exists i :: 0 <= i < |results| && results[i] == Some(e) && forall j :: 0 <= j < i ==> results[j].None?
  }

  /** One action, drained: an action that throws leaves the state; one that returns sets it, and the watches
      are then given the old state and the new one, in order, up to the first that fails. */
  lemma TurnOnce<S, A, E>(b: Behaviour<S, A, E>, a: A, prev: S)
    ensures var m := Drained(b, Mailbox(prev, None, [a], true), []).0;
      match b.run(a, prev)
      case Threw(e) => m == Mailbox(prev, Some(e), [], false)
      case Done(next) => m == Mailbox(next, m.error, [], false) && IsFirst(m.error, b.watch(a, prev, next))
  {
    var m: Mailbox<S, A, E> := Mailbox(prev, None, [a], true);
    assert m.queue[1..] + Joined(m, Head<A>([])) == [];
  }

  function Head<A>(script: seq<seq<A>>): seq<A> {
    if |script| == 0 then [] else script[0]
  }

  function Tail<A>(script: seq<seq<A>>): seq<seq<A>> {
    if |script| == 0 then [] else script[1..]
  }

  function Total<A>(script: seq<seq<A>>): nat {
    if |script| == 0 then 0 else |script[0]| + Total(script[1..])
  }

  lemma HeadTotal<A>(script: seq<seq<A>>)
    ensures Total(script) == |Head(script)| + Total(Tail(script))
  {
  }

  class AgentCell<S, A, E> {
    var state: S
    var error: Option<E>
    var queue: seq<A>
    var draining: bool

    ghost function View(): Mailbox<S, A, E>
      reads this
    {
      Mailbox(state, error, queue, draining)
    }

    constructor (init: S)
      ensures View() == Mailbox(init, None, [], false)
    {
      state, error, queue, draining := init, None, [], false;
    }

    /** Claims the drainer's role; a drainer already active keeps it. */
    method ClaimDrain() returns (claimed: bool)
      modifies this`draining
      ensures claimed == !old(draining) && draining
    {
      claimed := !draining;
      draining := true;
    }

    /** `send`: refused by a failed agent, otherwise queued behind everything sent before. */
    method Enqueue(a: A) returns (accepted: bool)
      modifies this`queue
      ensures accepted <==> old(error).None?
      ensures queue == if accepted then old(queue) + [a] else old(queue)
    {
      accepted := error.None?;
      if accepted {
        queue := queue + [a];
      }
    }

    /** The drainer's next action; with none left it retires. */
    method TakeNext() returns (next: Option<A>)
      modifies this`queue, this`draining
      ensures old(queue) == [] ==> next == None && queue == [] && !draining
      ensures old(queue) != [] ==> next == Some(old(queue)[0]) && queue == old(queue)[1..] && draining == old(draining)
    {
      if |queue| == 0 {
        draining := false;
        next := None;
      } else {
        next := Some(queue[0]);
        queue := queue[1..];
      }
    }

    /** Runs the watches in order up to the first that fails. */
    static method RunWatches(results: seq<Option<E>>) returns (error: Option<E>)
      ensures error == FirstError(results)
    {
      error := None;
      var k := 0;
      while k < |results|
        invariant k <= |results| && error.None?
        invariant FirstError(results) == FirstError(results[k..])
      {
        assert results[k..][1..] == results[k + 1..];
        if results[k].Some? {
          return results[k];
        }
        k := k + 1;
      }
    }

    /** One action's turn, from its result on. */
    method FinishAction(b: Behaviour<S, A, E>, a: A, prev: S) returns (failed: bool)
      modifies this
      ensures View() == Settle(b, old(View()), a, prev)
      ensures failed == Failure(b, a, prev).Some?
    {
      var failure: Option<E> := None;
      match b.run(a, prev) {
        case Done(next) =>
          state := next;
          failure := RunWatches(b.watch(a, prev, next));
        case Threw(e) =>
          failure := Some(e);
      }
      failed := failure.Some?;
      if failed {
        error := failure;
        draining := false;
      }
    }

    /** The inline drainer. A nested call, from an action of this agent, changes nothing. */
    method DrainSync(b: Behaviour<S, A, E>, script: seq<seq<A>>)
      modifies this
      ensures View() ==
        if old(draining) then old(View()) else Drained(b, old(View()).(draining := true), script).0
    {
      var claimed := ClaimDrain();
      if !claimed {
        return;
      }
      var rest := script;
      while true
        invariant Drained(b, old(View()).(draining := true), script).0 == Drained(b, View(), rest).0
        decreases Total(rest) + |queue|
      {
        var prev := state;
        var next := TakeNext();
        if next.None? {
          return;
        }
        HeadTotal(rest);
        var more := if error.None? then Head(rest) else [];
        queue := queue + more;
        var failed := FinishAction(b, next.value, prev);
        rest := Tail(rest);
        if failed {
          return;
        }
      }
    }

    /**
     `send` where there is no executor. Without an evaluation context to run in
     the action stays queued and the call fails.
     */
    method SendSync(a: A, context: bool, b: Behaviour<S, A, E>, script: seq<seq<A>>) returns (r: Sent)
      modifies this
      ensures r == if old(error).Some? then Refused else if context then Accepted else NoContext
      ensures var m := old(View()).(queue := old(queue) + [a]);
        View() ==
        if r.Refused? then old(View())
        else if r.NoContext? || old(draining) then m
        else Drained(b, m.(draining := true), script).0
    {
      var accepted := Enqueue(a);
      if !accepted {
        return Refused;
      }
      if !context {
        return NoContext;
      }
      DrainSync(b, script);
      return Accepted;
    }

    /** `restart-agent`, up to rescheduling: refused unless failed. */
    method Restart(s: S, clear: bool) returns (accepted: bool)
      modifies this
      ensures accepted <==> old(error).Some?
      ensures View() ==
        if accepted then Mailbox(s, None, if clear then [] else old(queue), old(draining)) else old(View())
    {
      accepted := error.Some?;
      if accepted {
        if clear {
          queue := [];
        }
        error := None;
        state := s;
      }
    }

    /** `await-agent`: drains here and now when actions are queued and nobody is draining, which takes
        an evaluation context. */
    method AwaitAgent(context: bool, b: Behaviour<S, A, E>, script: seq<seq<A>>) returns (r: Sent)
      modifies this
      ensures var due := !old(draining) && old(queue) != [];
        && r == (if due && !context then NoContext else Accepted)
        && View() == if due && context then Drained(b, old(View()).(draining := true), script).0 else old(View())
    {
      if !draining && |queue| > 0 {
        if !context {
          return NoContext;
        }
        DrainSync(b, script);
      }
      return Accepted;
    }
  }
}
