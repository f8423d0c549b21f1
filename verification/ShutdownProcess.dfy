/** The phased shutdown as a process: what each participant did, in order, and what the
    result says about it. */
module ShutdownProcess {
  import opened Types

  datatype Phase = Phase(name: string, participants: seq<string>)

  /** Participant j of phase i was disposed of, or its disposal returned or threw. */
  datatype Happening = Started(i: nat, j: nat) | Settled(i: nat, j: nat, failed: bool)

  datatype PhaseResult = PhaseResult(name: string, errors: seq<nat>)

  /** The phase being disposed of: who has not settled yet, who threw so far. */
  datatype Active = Active(pending: set<nat>, errors: seq<nat>)

  /** What shutdown() resolved with, what it showed at that moment, and how many phases
      had been added by then. */
  datatype Outcome = Outcome(timedOut: bool, totalErrors: nat, reported: seq<PhaseResult>, phaseCount: nat)

  datatype State = State(
    phases: seq<Phase>, draining: bool, active: Option<Active>, results: seq<PhaseResult>,
    finished: bool, outcome: Option<Outcome>, log: seq<Happening>)

  const IDLE: State := State([], false, None, [], false, None, [])

  datatype Step = AddPhase(phase: Phase) | Shutdown | Begin | Settle(j: nat, failed: bool) | End | Finish | Timeout

  function Total(rs: seq<PhaseResult>): nat { if rs == [] then 0 else Total(rs[..|rs| - 1]) + |rs[|rs| - 1].errors| }

  predicate Enabled(s: State, st: Step) {
    match st
    case AddPhase(_) => true
    case Shutdown => true
    case Begin => s.draining && !s.finished && s.active.None? && |s.results| < |s.phases|
    case Settle(j, _) => s.active.Some? && j in s.active.value.pending
    case End => s.active.Some? && s.active.value.pending == {} && |s.results| < |s.phases|
    case Finish => s.draining && !s.finished && s.active.None? && |s.results| == |s.phases|
    case Timeout => s.draining && s.outcome.None?
  }

  function Upto(n: nat): (r: set<nat>)
    ensures forall j :: j in r <==> 0 <= j < n
  {
    if n == 0 then {} else Upto(n - 1) + {n - 1}
  }

  function Starts(i: nat, n: nat): (r: seq<Happening>)
    ensures |r| == n && forall j :: 0 <= j < n ==> r[j] == Started(i, j)
  {
    seq(n, j requires 0 <= j < n => Started(i, j))
  }

  function Resolve(s: State, timedOut: bool): State {
    if s.outcome.None? then s.(outcome := Some(Outcome(timedOut, Total(s.results), s.results, |s.phases|))) else s
  }

  function Next(s: State, st: Step): State
    requires Enabled(s, st)
  {
    match st
    case AddPhase(phase) => s.(phases := s.phases + [phase])
    case Shutdown => s.(draining := true)
    case Begin =>
      var i := |s.results|;
      var n := |s.phases[i].participants|;
      s.(active := Some(Active(Upto(n), [])), log := s.log + Starts(i, n))
    case Settle(j, failed) =>
      var a := s.active.value;
      s.(active := Some(Active(a.pending - {j}, if failed then a.errors + [j] else a.errors)),
         log := s.log + [Settled(|s.results|, j, failed)])
    case End =>
      s.(active := None, results := s.results + [PhaseResult(s.phases[|s.results|].name, s.active.value.errors)])
    case Finish => Resolve(s.(finished := true), false)
    case Timeout => Resolve(s, true)
  }

  // --------------------------------------------------------------------- what is kept

  predicate DidSettle(log: seq<Happening>, i: nat, j: nat) {
    exists p :: 0 <= p < |log| && log[p].Settled? && log[p].i == i && log[p].j == j
  }

  /** Who threw in phase i, in the order in which they did. */
  function Failures(log: seq<Happening>, i: nat): seq<nat> {
    if log == [] then []
    else
      var h := log[|log| - 1];
      Failures(log[..|log| - 1], i) + if h.Settled? && h.i == i && h.failed then [h.j] else []
  }

  /** When a participant is disposed of, everyone in earlier phases has settled. */
  ghost predicate Barrier(s: State) {
    forall p :: 0 <= p < |s.log| && s.log[p].Started? ==>
      s.log[p].i < |s.phases|
      && forall i, j :: 0 <= i < s.log[p].i && 0 <= j < |s.phases[i].participants| ==> DidSettle(s.log[..p], i, j)
  }

  /** Phases before the current one are settled, later ones not begun; in the current one
      exactly the participants no longer pending have settled. */
  ghost predicate Progress(s: State) {
    var n := |s.results|;
    && n <= |s.phases| && (s.active.Some? ==> n < |s.phases| && s.draining && !s.finished)
    && (forall i, j :: 0 <= i < n && 0 <= j < |s.phases[i].participants| ==> DidSettle(s.log, i, j))
    && (forall p :: 0 <= p < |s.log| ==> if s.active.Some? then s.log[p].i <= n else s.log[p].i < n)
    && (s.active.Some? ==> forall j :: 0 <= j < |s.phases[n].participants| ==>
         (j in s.active.value.pending <==> !DidSettle(s.log, n, j)))
    && (s.active.Some? ==> forall j :: j in s.active.value.pending ==> j < |s.phases[n].participants|)
  }

  /** No participant is disposed of twice. */
  ghost predicate StartedOnce(s: State) {
    forall p, q :: 0 <= p < q < |s.log| && s.log[p].Started? ==> s.log[p] != s.log[q]
  }

  /** Results name the phases in order, each with exactly those who threw in it. */
  ghost predicate Reported(s: State) {
    var n := |s.results|;
    && n <= |s.phases|
    && (forall k :: 0 <= k < n ==> s.results[k] == PhaseResult(s.phases[k].name, Failures(s.log, k)))
    && (s.active.Some? ==> s.active.value.errors == Failures(s.log, n))
  }

  /** What was returned is a prefix of the results, with its own errors counted; without
      a timeout it has every phase there was, and nothing is left to dispose of. */
  ghost predicate Returned(s: State) {
    s.outcome.Some? ==>
      var o := s.outcome.value;
      && o.reported <= s.results && o.totalErrors == Total(o.reported) && |o.reported| <= o.phaseCount <= |s.phases|
      && (!o.timedOut ==> s.finished && s.active.None? && o.reported == s.results && |o.reported| == o.phaseCount)
  }

  /** Phases that have begun. */
  function Begun(s: State): nat { |s.results| + if s.active.Some? then 1 else 0 }

  /** Every participant of a phase that began was disposed of. */
  ghost predicate AllStarted(s: State) {
    && Begun(s) <= |s.phases|
    && forall i, j :: 0 <= i < Begun(s) && 0 <= j < |s.phases[i].participants| ==> Started(i, j) in s.log
  }

  /** No participant of a phase settles before all of them have been disposed of. */
  ghost predicate StartsFirst(log: seq<Happening>) {
    forall p, q :: 0 <= p <= q < |log| && log[p].Settled? && log[q].Started? ==> log[p].i != log[q].i
  }

  ghost predicate Together(s: State) { AllStarted(s) && StartsFirst(s.log) }

  ghost predicate Inv(s: State) {
    Barrier(s) && Progress(s) && Together(s) && StartedOnce(s) && Reported(s) && Returned(s)
  }

  lemma SettleMore(log: seq<Happening>, more: seq<Happening>, i: nat, j: nat)
    ensures DidSettle(log, i, j) ==> DidSettle(log + more, i, j)
  {
    if p :| 0 <= p < |log| && log[p].Settled? && log[p].i == i && log[p].j == j {
      assert (log + more)[p] == log[p];
    }
  }

  lemma {:induction false} FailuresMore(log: seq<Happening>, more: seq<Happening>, i: nat)
    requires forall p :: 0 <= p < |more| ==> !(more[p].Settled? && more[p].i == i && more[p].failed)
    ensures Failures(log + more, i) == Failures(log, i)
  {
    if more == [] {
      assert log + more == log;
    } else {
      var n := |more| - 1;
      assert (log + more)[..|log + more| - 1] == log + more[..n];
      FailuresMore(log, more[..n], i);
    }
  }

  lemma FailuresLast(log: seq<Happening>, h: Happening, i: nat)
    ensures Failures(log + [h], i) == Failures(log, i) + if h.Settled? && h.i == i && h.failed then [h.j] else []
  {
    assert (log + [h])[..|log|] == log;
  }

  lemma {:induction false} NoFailuresYet(log: seq<Happening>, i: nat)
    requires forall p :: 0 <= p < |log| ==> log[p].i != i
    ensures Failures(log, i) == []
  {
    if log != [] { NoFailuresYet(log[..|log| - 1], i); }
  }

  // ------------------------------------------------------------------------- barrier

  /** Disposing of more participants once every earlier one has settled. */
  lemma BarrierExtends(s: State, t: State, more: seq<Happening>)
    requires Barrier(s) && t.log == s.log + more && s.phases <= t.phases
    requires forall q :: 0 <= q < |more| && more[q].Started? ==>
               more[q].i < |t.phases| && forall i, j :: 0 <= i < more[q].i && 0 <= j < |t.phases[i].participants| ==>
                 DidSettle(s.log, i, j)
    ensures Barrier(t)
  {
    forall p | 0 <= p < |t.log| && t.log[p].Started?
      ensures t.log[p].i < |t.phases|
      ensures forall i, j :: 0 <= i < t.log[p].i && 0 <= j < |t.phases[i].participants| ==> DidSettle(t.log[..p], i, j)
    {
      if p < |s.log| {
        assert t.log[p] == s.log[p] && t.log[..p] == s.log[..p];
      } else {
        assert t.log[p] == more[p - |s.log|];
        assert t.log[..p] == s.log + more[..p - |s.log|];
        forall i, j | 0 <= i < t.log[p].i && 0 <= j < |t.phases[i].participants| ensures DidSettle(t.log[..p], i, j) {
          SettleMore(s.log, more[..p - |s.log|], i, j);
        }
      }
    }
  }

  lemma BarrierStep(s: State, st: Step)
    requires Barrier(s) && Progress(s) && Enabled(s, st)
    ensures Barrier(Next(s, st))
  {
    var t := Next(s, st);
    match st
    case Begin => BarrierExtends(s, t, Starts(|s.results|, |s.phases[|s.results|].participants|));
    case Settle(j, failed) => BarrierExtends(s, t, [Settled(|s.results|, j, failed)]);
    case _ =>
      assert t.log == s.log + [];
      BarrierExtends(s, t, []);
  }

  // ------------------------------------------------------------------------ progress

  lemma ProgressBegin(s: State)
    requires Progress(s) && Enabled(s, Begin)
    ensures Progress(Next(s, Begin))
  {
    var n := |s.results|;
    var more := Starts(n, |s.phases[n].participants|);
    var t := Next(s, Begin);
    forall i, j | 0 <= i < n && 0 <= j < |s.phases[i].participants| ensures DidSettle(t.log, i, j) {
      SettleMore(s.log, more, i, j);
    }
    forall p | 0 <= p < |t.log|
      ensures t.log[p].i <= n && (t.log[p].Settled? ==> t.log[p].i < n)
    {
      if p < |s.log| { assert t.log[p] == s.log[p]; } else { assert t.log[p] == more[p - |s.log|]; }
    }
  }

  lemma ProgressSettle(s: State, j: nat, failed: bool)
    requires Progress(s) && Enabled(s, Settle(j, failed))
    ensures Progress(Next(s, Settle(j, failed)))
  {
    var n := |s.results|;
    var h := Settled(n, j, failed);
    var t := Next(s, Settle(j, failed));
    forall i, k ensures DidSettle(t.log, i, k) <==> DidSettle(s.log, i, k) || (i == n && k == j) {
      SettleMore(s.log, [h], i, k);
      assert t.log[|s.log|] == h;
      if p :| 0 <= p < |t.log| && t.log[p].Settled? && t.log[p].i == i && t.log[p].j == k && p < |s.log| {
        assert s.log[p] == t.log[p];
      }
    }
  }

  lemma ProgressStep(s: State, st: Step)
    requires Progress(s) && Enabled(s, st)
    ensures Progress(Next(s, st))
  {
    match st
    case Begin => ProgressBegin(s);
    case Settle(j, failed) => ProgressSettle(s, j, failed);
    case _ =>
  }

  lemma TogetherBegin(s: State)
    requires Progress(s) && Together(s) && Enabled(s, Begin)
    ensures Together(Next(s, Begin))
  {
    var n := |s.results|;
    var more := Starts(n, |s.phases[n].participants|);
    var t := Next(s, Begin);
    assert t.log == s.log + more;
    forall i, j | 0 <= i < Begun(t) && 0 <= j < |t.phases[i].participants|
      ensures Started(i, j) in t.log
    {
      if i == n { assert more[j] in more; } else { assert Started(i, j) in s.log; }
    }
    forall p, q | 0 <= p <= q < |t.log| && t.log[p].Settled? && t.log[q].Started?
      ensures t.log[p].i != t.log[q].i
    {
      assert p < |s.log| && t.log[p] == s.log[p];
      if q >= |s.log| { assert t.log[q] == more[q - |s.log|]; } else { assert t.log[q] == s.log[q]; }
    }
  }

  lemma TogetherSettle(s: State, j: nat, failed: bool)
    requires Progress(s) && Together(s) && Enabled(s, Settle(j, failed))
    ensures Together(Next(s, Settle(j, failed)))
  {
    var t := Next(s, Settle(j, failed));
    assert t.log == s.log + [Settled(|s.results|, j, failed)];
    forall i, k | 0 <= i < Begun(t) && 0 <= k < |t.phases[i].participants|
      ensures Started(i, k) in t.log
    {
      assert Started(i, k) in s.log;
    }
  }

  lemma TogetherStep(s: State, st: Step)
    requires Progress(s) && Together(s) && Enabled(s, st)
    ensures Together(Next(s, st))
  {
    match st
    case Begin => TogetherBegin(s);
    case Settle(j, failed) => TogetherSettle(s, j, failed);
    case _ =>
  }

  // -------------------------------------------------------------------- the result

  lemma StartedOnceStep(s: State, st: Step)
    requires Progress(s) && StartedOnce(s) && Enabled(s, st)
    ensures StartedOnce(Next(s, st))
  {
    var t := Next(s, st);
    if st.Begin? {
      var n := |s.results|;
      forall p, q | 0 <= p < q < |t.log| && t.log[p].Started?
        ensures t.log[p] != t.log[q]
      {
        if q >= |s.log| {
          assert t.log[q] == Started(n, q - |s.log|);
          if p < |s.log| {
            assert t.log[p] == s.log[p] && s.log[p].i < n;
          } else {
            assert t.log[p] == Started(n, p - |s.log|);
          }
        } else {
          assert t.log[p] == s.log[p] && t.log[q] == s.log[q];
        }
      }
    }
  }

  lemma ReportedStep(s: State, st: Step)
    requires Progress(s) && Reported(s) && Enabled(s, st)
    ensures Reported(Next(s, st))
  {
    var n := |s.results|;
    match st
    case Begin =>
      var more := Starts(n, |s.phases[n].participants|);
      NoFailuresYet(s.log, n);
      forall i ensures Failures(s.log + more, i) == Failures(s.log, i) { FailuresMore(s.log, more, i); }
    case Settle(j, failed) =>
      forall i
        ensures Failures(s.log + [Settled(n, j, failed)], i) == Failures(s.log, i) + if i == n && failed then [j]
                else []
      {
        FailuresLast(s.log, Settled(n, j, failed), i);
      }
    case _ =>
  }

  lemma ReturnedStep(s: State, st: Step)
    requires Progress(s) && Returned(s) && Enabled(s, st)
    ensures Returned(Next(s, st))
  {
  }

  lemma InvStep(s: State, st: Step)
    requires Inv(s) && Enabled(s, st)
    ensures Inv(Next(s, st))
  {
    hide Barrier, Progress, Together, StartedOnce, Reported, Returned;
    BarrierStep(s, st);
    ProgressStep(s, st);
    TogetherStep(s, st);
    StartedOnceStep(s, st);
    ReportedStep(s, st);
    ReturnedStep(s, st);
  }

  ghost predicate Runs(s: State, steps: seq<Step>)
    decreases |steps|
  {
    steps == [] || (Enabled(s, steps[0]) && Runs(Next(s, steps[0]), steps[1..]))
  }

  function After(s: State, steps: seq<Step>): State
    requires Runs(s, steps)
    decreases |steps|
  {
    if steps == [] then s else After(Next(s, steps[0]), steps[1..])
  }

  lemma {:induction false} EveryRun(s: State, steps: seq<Step>)
    requires Inv(s) && Runs(s, steps)
    ensures Inv(After(s, steps))
    decreases |steps|
  {
    hide Inv;
    if steps != [] {
      InvStep(s, steps[0]);
      EveryRun(Next(s, steps[0]), steps[1..]);
    }
  }

  /** How many participants of the first n phases have thrown. */
  function Thrown(log: seq<Happening>, n: nat): nat {
    if log == [] then 0
    else
      var h := log[|log| - 1];
      Thrown(log[..|log| - 1], n) + if h.Settled? && h.failed && h.i < n then 1 else 0
  }

  lemma {:induction false} ThrownByPhase(log: seq<Happening>, n: nat)
    ensures Thrown(log, 0) == 0 && Thrown(log, n + 1) == Thrown(log, n) + |Failures(log, n)|
  {
    if log != [] { ThrownByPhase(log[..|log| - 1], n); }
  }

  lemma {:induction false} TotalIsThrown(log: seq<Happening>, rs: seq<PhaseResult>)
    requires forall k :: 0 <= k < |rs| ==> rs[k].errors == Failures(log, k)
    ensures Total(rs) == Thrown(log, |rs|)
  {
    ThrownByPhase(log, if rs == [] then 0 else |rs| - 1);
    if rs != [] { TotalIsThrown(log, rs[..|rs| - 1]); }
  }

  /** Where a phase's reported errors are in the history: in their order, and nowhere else. */
  lemma {:induction false} FailuresAt(log: seq<Happening>, i: nat) returns (at: seq<nat>)
    ensures |at| == |Failures(log, i)| && forall k :: 0 <= k < |at| ==>
                                             at[k] < |log| && log[at[k]] == Settled(i, Failures(log, i)[k], true)
    ensures forall k, m :: 0 <= k < m < |at| ==> at[k] < at[m]
    ensures forall p :: 0 <= p < |log| && log[p].Settled? && log[p].i == i && log[p].failed ==> p in at
  {
    at := [];
    if log != [] {
      var n := |log| - 1;
      at := FailuresAt(log[..n], i);
      if log[n].Settled? && log[n].i == i && log[n].failed { at := at + [n]; }
    }
  }

  /** In every interleaving of settling participants, the timeout, phases added late and
      repeated shutdown calls: the barrier holds, a phase's participants are all disposed
      of before any settles and nobody twice, and the returned phases are an in-order
      prefix whose errors are the participants of these phases that threw. */
  lemma ShutdownIsPhased(steps: seq<Step>)
    requires Runs(IDLE, steps)
    ensures var s := After(IDLE, steps);
            Inv(s) && (s.outcome.Some? ==> s.outcome.value.totalErrors == Thrown(s.log, |s.outcome.value.reported|))
  {
    EveryRun(IDLE, steps);
    var s := After(IDLE, steps);
    if s.outcome.Some? { TotalIsThrown(s.log, s.outcome.value.reported); }
  }

  // ------------------------------------------------------------ the result afterwards

  function Errors(rs: seq<PhaseResult>, from: nat): nat
    requires from <= |rs|
  {
    Total(rs[from..])
  }

  lemma {:induction false} TotalSplits(rs: seq<PhaseResult>, k: nat)
    requires k <= |rs|
    ensures Total(rs) == Total(rs[..k]) + Total(rs[k..])
  {
    if k == |rs| {
      assert rs[..k] == rs && rs[k..] == [];
    } else {
      var n := |rs| - 1;
      TotalSplits(rs[..n], k);
      assert rs[..n][..k] == rs[..k] && rs[..n][k..] == rs[k..][..n - k];
      assert rs[k..][n - k] == rs[n];
    }
  }

  /** The returned object shares its phase list with the phases still running. After a
      timeout its error counts still add up to totalErrors exactly while no phase that
      ended later had an error. */
  lemma LiveResultAddsUpIff(s: State)
    requires Inv(s) && s.outcome.Some?
    ensures Total(s.results) == s.outcome.value.totalErrors <==> Errors(s.results, |s.outcome.value.reported|) == 0
  {
    var o := s.outcome.value;
    TotalSplits(s.results, |o.reported|);
    assert s.results[..|o.reported|] == o.reported;
  }

  /** One slow phase with a failing participant: the timeout returns no error, and the
      returned object shows one later. */
  lemma LiveResultDrifts() returns (steps: seq<Step>)
    ensures Runs(IDLE, steps)
    ensures var s := After(IDLE, steps);
            s.outcome == Some(Outcome(true, 0, [], 1)) && Total(s.results) == 1
  {
    var http := Phase("http", ["server"]);
    var s0 := Next(IDLE, AddPhase(http));
    assert s0.phases == [http];
    var s1 := Next(s0, Shutdown);
    var s2 := Next(s1, Begin);
    var s3 := Next(s2, Timeout);
    assert 0 in s3.active.value.pending;
    var s4 := Next(s3, Settle(0, true));
    assert s4.active.value.pending == {};
    var s5 := Next(s4, End);
    assert s4.active.value.errors == [0] && s4.phases == [http] && s4.results == [];
    assert s5.results == [PhaseResult(http.name, [0])];
    assert s5.results[..0] == [];
    steps := [End];
    assert Runs(s4, steps) && After(s4, steps) == s5;
    steps := Prepend(s3, Settle(0, true), steps);
    steps := Prepend(s2, Timeout, steps);
    steps := Prepend(s1, Begin, steps);
    steps := Prepend(s0, Shutdown, steps);
    steps := Prepend(IDLE, AddPhase(http), steps);
  }

  lemma Prepend(s: State, st: Step, steps: seq<Step>) returns (more: seq<Step>)
    requires Enabled(s, st) && Runs(Next(s, st), steps)
    ensures Runs(s, more) && After(s, more) == After(Next(s, st), steps)
  {
    more := [st] + steps;
    assert more[1..] == steps;
  }
}
