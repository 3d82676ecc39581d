/**
 The take counter does come round: an execution in which a delivered offer, left
 unpolled for 2^64 takes, is told that it is still waiting.
 */
module ChannelWrap {
  import opened Channel
  import opened ChannelRuns

  /** After `n` rounds of one put and one take each, the first put has not looked since its offer. */
  ghost predicate Rounds(s: Sys, n: nat) {
    && s.ch == Chan([], 0, false, n % WORD) && |s.log| == n && s.cancelled == []
    && (forall id :: id in s.tasks ==> id <= 2 * n)
    && (n > 0 ==> 1 in s.tasks && s.tasks[1] == Pending(7, 0, 0) && s.log[0].1.putter == 1)
  }

  lemma FewTakes(s: Sys)
    requires |s.log| < WORD
    ensures NoWrap(s)
  {
  }

  lemma ExtendExec(run: seq<Sys>, a: Action) returns (run': seq<Sys>)
    requires IsExec(0, run) && |run[|run| - 1].log| < WORD && Enabled(run[|run| - 1], a)
    ensures IsExec(0, run') && run'[|run'| - 1] == Apply(run[|run| - 1], a)
  {
    var last := run[|run| - 1];
    FewTakes(last);
    run' := run + [Apply(last, a)];
    forall i | 0 <= i < |run'| - 1 ensures NoWrap(run'[i]) && Next(run'[i], run'[i + 1]) {
      if i < |run| - 1 {
        assert NoWrap(run[i]) && Next(run[i], run[i + 1]);
      } else {
        assert run'[i + 1] == Apply(run'[i], a);
      }
    }
  }

  /** One more put and take. */
  lemma OneRound(run: seq<Sys>, n: nat) returns (run': seq<Sys>)
    requires IsExec(0, run) && Rounds(run[|run| - 1], n) && n < WORD
    ensures IsExec(0, run') && Rounds(run'[|run'| - 1], n + 1)
  {
    var put, take := 2 * n + 1, 2 * n + 2;
    run' := ExtendExec(run, SpawnPut(put, 7));
    run' := ExtendExec(run', Run(put));
    run' := ExtendExec(run', SpawnTake(take));
    run' := ExtendExec(run', Run(take));
  }

  lemma {:induction false} ManyRounds(n: nat) returns (run: seq<Sys>)
    requires n <= WORD
    ensures IsExec(0, run) && Rounds(run[|run| - 1], n)
  {
    if n == 0 {
      run := [Init(0)];
    } else {
      run := ManyRounds(n - 1);
      run := OneRound(run, n - 1);
    }
  }

  /** A reachable state in which the token is wrong. */
  lemma TokenWraps() returns (run: seq<Sys>)
    ensures IsExec(0, run)
    ensures var s := run[|run| - 1];
      1 in s.tasks && s.tasks[1].Pending? && DeliveredFrom(s, 1) && RvStatus(s.ch, s.tasks[1].token).1 == Waiting
  {
    run := ManyRounds(WORD);
    assert run[|run| - 1].log[0].1.putter == 1;
  }
}
