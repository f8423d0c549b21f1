/** The shutdown manager's own fields, moved by its methods and by what it waits for. */
module ShutdownManager {
  import opened Types
  import opened ShutdownProcess

  class ShutdownManager {
    var phases: seq<Phase>
    var draining: bool
    var running: bool
    var pending: set<nat>
    var errors: seq<nat>
    var phaseResults: seq<PhaseResult>
    var finished: bool
    var inFlight: Option<Outcome>
    ghost var log: seq<Happening>

    constructor ()
      ensures View() == IDLE
    {
      phases, draining, running, finished := [], false, false, false;
      pending, errors, phaseResults, inFlight := {}, [], [], None;
      log := [];
    }

    ghost function View(): State
      reads this
    {
      State(phases, draining, if running then Some(Active(pending, errors))
          else None, phaseResults, finished, inFlight, log)
    }

    method AddPhase(phase: Phase)
      modifies this
      ensures View() == Next(old(View()), ShutdownProcess.AddPhase(phase))
    {
      phases := phases + [phase];
    }

    /** A second call finds the first one's promise and starts nothing. */
    method Shutdown() returns (started: bool)
      modifies this
      ensures started == !old(draining)
      ensures View() == Next(old(View()), ShutdownProcess.Shutdown)
    {
      started := !draining;
      draining := true;
    }

    /** The next phase: every participant's dispose is called before any is awaited. */
    method RunPhase()
      requires Enabled(View(), Begin)
      modifies this
      ensures View() == Next(old(View()), Begin)
    {
      ghost var before := log;
      var phase, j := phases[|phaseResults|], 0;
      pending, errors, running := {}, [], true;
      while j < |phase.participants|
        invariant 0 <= j <= |phase.participants| && running && errors == []
        invariant pending == Upto(j) && log == before + Starts(|phaseResults|, j)
        invariant unchanged(`phases) && unchanged(`draining) && unchanged(`phaseResults) && unchanged(`finished)
                  && unchanged(`inFlight)
      {
        pending := pending + {j};
        assert Starts(|phaseResults|, j + 1) == Starts(|phaseResults|, j) + [Started(|phaseResults|, j)];
        log := log + [Started(|phaseResults|, j)];
        j := j + 1;
      }
    }

    method OnSettled(j: nat, failed: bool)
      requires Enabled(View(), Settle(j, failed))
      modifies this
      ensures View() == Next(old(View()), Settle(j, failed))
    {
      if failed { errors := errors + [j]; }
      pending := pending - {j};
      log := log + [Settled(|phaseResults|, j, failed)];
    }

    /** All settled: the phase's result is pushed. */
    method OnPhaseComplete()
      requires Enabled(View(), End)
      modifies this
      ensures View() == Next(old(View()), End)
    {
      phaseResults := phaseResults + [PhaseResult(phases[|phaseResults|].name, errors)];
      running := false;
    }

    method TotalErrors() returns (sum: nat)
      ensures sum == Total(phaseResults)
    {
      sum := 0;
      var i := 0;
      while i < |phaseResults|
        invariant 0 <= i <= |phaseResults| && sum == Total(phaseResults[..i])
      {
        assert phaseResults[..i + 1][..i] == phaseResults[..i];
        sum := sum + |phaseResults[i].errors|;
        i := i + 1;
      }
      assert phaseResults[..i] == phaseResults;
    }

    method OnAllPhasesComplete()
      requires Enabled(View(), Finish)
      modifies this
      ensures View() == Next(old(View()), Finish)
    {
      finished := true;
      if inFlight.None? {
        var total := TotalErrors();
        inFlight := Some(Outcome(false, total, phaseResults, |phases|));
      }
    }

    method OnTimeout()
      requires Enabled(View(), Timeout)
      modifies this
      ensures View() == Next(old(View()), Timeout)
    {
      var total := TotalErrors();
      inFlight := Some(Outcome(true, total, phaseResults, |phases|));
    }
  }
}
