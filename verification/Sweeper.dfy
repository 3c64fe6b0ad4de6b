/** src/server/sweeper.py: the background loop that evicts idle sessions. */
module Sweeper {
  import opened PyText
  import opened CheckpointFactory
  import M = Metrics

  /** One wake-up: the clock it reads, and the threads whose deletion raises. */
  datatype Wake = Wake(clock: real, fails: set<string>)

  /** The tables without the rows of the given threads. */
  function Without(tb: Tables, gone: set<string>): Tables {
    Tables(tb.checkpoints - gone, tb.writes - gone, tb.touched - gone)
  }

  /** The threads one tick deletes. */
  function Evicted(tb: Tables, threshold: int, wake: Wake): set<string> {
    Stale(tb, Trunc(wake.clock), threshold) - wake.fails
  }

  function Ticked(c: M.Counts, deleted: nat): M.Counts {
    c.(activeSessions := c.activeSessions - deleted, sweeperRuns := c.sweeperRuns + 1,
       sweeperDeleted := c.sweeperDeleted + deleted)
  }

  /** The tables after a series of ticks. */
  function SweptBy(tb: Tables, threshold: int, wakes: seq<Wake>): Tables {
    if wakes == [] then tb
    else
      var before := SweptBy(tb, threshold, wakes[..|wakes| - 1]);
      Without(before, Evicted(before, threshold, wakes[|wakes| - 1]))
  }

  class Sweeper {
    const checkpointer: TouchingCheckpointer
    const threshold: int
    const metrics: M.Metrics

    constructor (checkpointer: TouchingCheckpointer, threshold: int, metrics: M.Metrics)
      ensures this.checkpointer == checkpointer && this.threshold == threshold && this.metrics == metrics
    {
      this.checkpointer, this.threshold, this.metrics := checkpointer, threshold, metrics;
    }

    /** `_tick`: a failed deletion is skipped; the gauge follows each deletion, the counters the tick. */
    method Tick(wake: Wake)
      requires checkpointer.Valid()
      modifies checkpointer, metrics
      ensures checkpointer.Valid()
      ensures var gone := Evicted(old(checkpointer.Contents()), threshold, wake);
              && checkpointer.Contents() == Without(old(checkpointer.Contents()), gone)
              && metrics.Value() == Ticked(old(metrics.Value()), |gone|)
    {
      hide Trunc, Without, Delete, Apply, Replay, LastTouch;
      var nowUnix := Trunc(wake.clock);
      var stale := checkpointer.ListStale(nowUnix, threshold);
      assert stale - wake.fails == Evicted(checkpointer.Contents(), threshold, wake);
      hide Evicted, Stale;
      var deletedCount := DeleteSessions(stale, wake.fails);
      metrics.sweeperRuns := metrics.sweeperRuns + 1;
      if deletedCount > 0 {
        metrics.sweeperDeleted := metrics.sweeperDeleted + deletedCount;
      }
    }

    /** The deletion loop of a tick. */
    method DeleteSessions(stale: set<string>, fails: set<string>) returns (deletedCount: nat)
      requires checkpointer.Valid()
      modifies checkpointer, metrics`activeSessions
      ensures checkpointer.Valid()
      ensures checkpointer.Contents() == Without(old(checkpointer.Contents()), stale - fails)
      ensures deletedCount == |stale - fails| && metrics.activeSessions == old(metrics.activeSessions) - deletedCount
    {
      hide Without, Delete, Apply, Replay, Handled;
      ghost var before := checkpointer.Contents();
      deletedCount := 0;
      var todo := stale;
      NothingHandled(before, stale, fails);
      while todo != {}
        invariant checkpointer.Valid() && todo <= stale
        invariant checkpointer.Contents() == Without(before, Handled(stale, todo, fails))
        invariant deletedCount == |Handled(stale, todo, fails)|
        invariant metrics.activeSessions == old(metrics.activeSessions) - deletedCount
      {
        var threadId :| threadId in todo;
        OneHandled(before, stale, todo, fails, threadId);
        if threadId !in fails {
          checkpointer.ADeleteThread(threadId);
          metrics.activeSessions := metrics.activeSessions - 1;
          deletedCount := deletedCount + 1;
        }
        todo := todo - {threadId};
      }
      AllHandled(stale, fails);
    }

    /** `run` until it is cancelled: one tick after each completed sleep. */
    method Run(wakes: seq<Wake>)
      requires checkpointer.Valid()
      modifies checkpointer, metrics
      ensures checkpointer.Valid()
      ensures checkpointer.Contents() == SweptBy(old(checkpointer.Contents()), threshold, wakes)
      ensures metrics.sweeperRuns == old(metrics.sweeperRuns) + |wakes|
      ensures metrics.activeSessions + metrics.sweeperDeleted == old(metrics.activeSessions + metrics.sweeperDeleted)
      ensures metrics.activeSessions - |checkpointer.touched| == old(metrics.activeSessions - |checkpointer.touched|)
    {
      hide Evicted, Without, Apply, Replay, LastTouch, Trunc;
      var i := 0;
      while i < |wakes|
        invariant 0 <= i <= |wakes| && checkpointer.Valid()
        invariant checkpointer.Contents() == SweptBy(old(checkpointer.Contents()), threshold, wakes[..i])
        invariant metrics.sweeperRuns == old(metrics.sweeperRuns) + i
        invariant metrics.activeSessions + metrics.sweeperDeleted
            == old(metrics.activeSessions + metrics.sweeperDeleted)
        invariant metrics.activeSessions - |checkpointer.touched|
            == old(metrics.activeSessions - |checkpointer.touched|)
      {
        EvictedCount(checkpointer.Contents(), threshold, wakes[i]);
        Tick(wakes[i]);
        assert wakes[..i + 1][..i] == wakes[..i];
        i := i + 1;
      }
      assert wakes[..i] == wakes;
    }
  }

  /** The threads deleted while `todo` are left. */
  ghost function Handled(stale: set<string>, todo: set<string>, fails: set<string>): set<string> {
    stale - todo - fails
  }

  lemma NothingHandled(tb: Tables, stale: set<string>, fails: set<string>)
    ensures Without(tb, Handled(stale, stale, fails)) == tb && |Handled(stale, stale, fails)| == 0
  {
    assert Handled(stale, stale, fails) == {};
  }

  lemma AllHandled(stale: set<string>, fails: set<string>)
    ensures Handled(stale, {}, fails) == stale - fails
  {}

  lemma OneHandled(tb: Tables, stale: set<string>, todo: set<string>, fails: set<string>, t: string)
    requires t in todo && todo <= stale
    ensures var before, after := Handled(stale, todo, fails), Handled(stale, todo - {t}, fails);
            && (t in fails ==> after == before)
            && (t !in fails ==> |after| == |before| + 1 && Delete(Without(tb, before), t) == Without(tb, after))
  {
    var before, after := Handled(stale, todo, fails), Handled(stale, todo - {t}, fails);
    if t in fails {
      assert after == before;
    } else {
      assert after == before + {t};
      OneMoreGone(tb, before, t);
    }
  }

  lemma OneMoreGone(tb: Tables, gone: set<string>, t: string)
    ensures Delete(Without(tb, gone), t) == Without(tb, gone + {t})
  {
    assert tb.checkpoints - gone - {t} == tb.checkpoints - (gone + {t});
    assert tb.writes - gone - {t} == tb.writes - (gone + {t});
    assert tb.touched - gone - {t} == tb.touched - (gone + {t});
  }

  /** Each deletion a tick counts removed exactly one row of the touch table. */
  lemma EvictedCount(tb: Tables, threshold: int, wake: Wake)
    ensures var gone := Evicted(tb, threshold, wake);
            |Without(tb, gone).touched| + |gone| == |tb.touched|
  {
    hide Trunc;
    var gone := Evicted(tb, threshold, wake);
    assert (tb.touched - gone).Keys == tb.touched.Keys - gone;
    assert tb.touched.Keys == (tb.touched.Keys - gone) + gone;
    assert |(tb.touched - gone).Keys| == |tb.touched - gone| && |tb.touched.Keys| == |tb.touched|;
  }

  // ---- What a tick leaves ----

  /** A tick without failures leaves nothing stale, and every thread that was not stale as it was. */
  lemma TickCleans(tb: Tables, threshold: int, clock: real)
    ensures var tb1 := Without(tb, Evicted(tb, threshold, Wake(clock, {})));
            && Stale(tb1, Trunc(clock), threshold) == {}
            && forall t :: t !in Stale(tb, Trunc(clock), threshold) ==>
                 && Rows(tb1.checkpoints, t) == Rows(tb.checkpoints, t) && Rows(tb1.writes, t) == Rows(tb.writes, t)
                 && (t in tb1.touched <==> t in tb.touched)
  {
    hide Trunc;
  }

  lemma StaleGrows(tb: Tables, threshold: int, now: int, later: int)
    requires now <= later
    ensures Stale(tb, now, threshold) <= Stale(tb, later, threshold)
  {}

  /** A thread whose deletion failed is found again by every later tick, until it is touched or deleted. */
  lemma FailedIsRetried(tb: Tables, threshold: int, wake: Wake, later: int, t: string)
    requires t in Stale(tb, Trunc(wake.clock), threshold) && t in wake.fails && Trunc(wake.clock) <= later
    ensures t in Stale(Without(tb, Evicted(tb, threshold, wake)), later, threshold)
  {
    hide Trunc;
  }

  /** An earlier tick makes no difference to what a later one leaves. */
  lemma LaterTickSubsumes(tb: Tables, threshold: int, wake: Wake, later: real)
    requires Trunc(wake.clock) <= Trunc(later)
    ensures SweptBy(tb, threshold, [wake, Wake(later, {})]) == SweptBy(tb, threshold, [Wake(later, {})])
  {
    hide Trunc;
    var last := Wake(later, {});
    assert [wake, last][..1] == [wake] && [wake][..0] == [] && [last][..0] == [];
    var tb1 := Without(tb, Evicted(tb, threshold, wake));
    assert SweptBy(tb, threshold, [wake]) == tb1 by { assert SweptBy(tb, threshold, [wake][..0]) == tb; }
    assert SweptBy(tb, threshold, [last]) == Without(tb, Evicted(tb, threshold, last)) by {
      assert SweptBy(tb, threshold, [last][..0]) == tb;
    }
    EvictTwice(tb, threshold, wake, last);
  }

  lemma EvictTwice(tb: Tables, threshold: int, wake: Wake, last: Wake)
    requires Trunc(wake.clock) <= Trunc(last.clock) && last.fails == {}
    ensures var tb1 := Without(tb, Evicted(tb, threshold, wake));
            Without(tb1, Evicted(tb1, threshold, last)) == Without(tb, Evicted(tb, threshold, last))
  {
    hide Trunc;
    var e1, e2 := Evicted(tb, threshold, wake), Evicted(tb, threshold, last);
    var tb1 := Without(tb, e1);
    StaleGrows(tb, threshold, Trunc(wake.clock), Trunc(last.clock));
    assert Evicted(tb1, threshold, last) == e2 - e1;
    WithoutTwice(tb, e1, e2 - e1);
    assert e1 + (e2 - e1) == e2;
  }

  lemma WithoutTwice(tb: Tables, a: set<string>, b: set<string>)
    ensures Without(Without(tb, a), b) == Without(tb, a + b)
  {
    assert tb.checkpoints - a - b == tb.checkpoints - (a + b);
    assert tb.writes - a - b == tb.writes - (a + b);
    assert tb.touched - a - b == tb.touched - (a + b);
  }
}
