/** src/server/metrics.py: the gauge and the counters the session lifecycle updates. */
module Metrics {

  datatype Counts = Counts(activeSessions: int, turnsRunning: nat, turnsDone: nat, hitsHeader: nat, hitsInternal: nat,
                           doneTotal: nat, sweeperRuns: nat, sweeperDeleted: nat)

  class Metrics {
    var activeSessions: int
    var turnsRunning: nat
    var turnsDone: nat
    var hitsHeader: nat
    var hitsInternal: nat
    var doneTotal: nat
    var sweeperRuns: nat
    var sweeperDeleted: nat

    function Value(): Counts
      reads this
    {
      Counts(activeSessions, turnsRunning, turnsDone, hitsHeader, hitsInternal, doneTotal, sweeperRuns,
                            sweeperDeleted)
    }

    constructor ()
      ensures Value() == NoCounts()
    {
      activeSessions, turnsRunning, turnsDone, hitsHeader, hitsInternal := 0, 0, 0, 0, 0;
      doneTotal, sweeperRuns, sweeperDeleted := 0, 0, 0;
    }
  }

  function NoCounts(): Counts {
    Counts(0, 0, 0, 0, 0, 0, 0, 0)
  }
}
