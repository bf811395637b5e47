/** Whole runs of the executor: they end, nothing is lost, and what they leave behind. */
module Runs {
  import opened Wrappers
  import opened Shape
  import opened Protocol
  import opened Invariant
  import opened Steps

  // --- Every run ends ---

  function Rank(p: Phase): nat {
    match p
    case Waiting => 8
    case Spawned => 7
    case Running => 6
    case Holding(_) => 5
    case Built(_) => 4
    case Written(_) => 3
    case Registered(_) => 2
    case Failing(_) => 2
    case Aborting => 1
    case Finished(_) => 0
    case Stopped => 0
  }

  function Measure(phase: seq<Phase>): (m: nat)
    ensures m <= 8 * |phase|
  {
    if phase == [] then 0 else Rank(phase[0]) + Measure(phase[1..])
  }

  lemma {:induction false} MeasureUpdate(a: seq<Phase>, i: nat, q: Phase)
    requires i < |a|
    ensures Measure(a[i := q]) == Measure(a) - Rank(a[i]) + Rank(q)
  {
    if i == 0 {
      assert a[0 := q][1..] == a[1..];
    } else {
      assert a[i := q][1..] == a[1..][i - 1 := q];
      MeasureUpdate(a[1..], i - 1, q);
    }
  }

  /** A step that changes anything lowers the measure, so no schedule takes more than
      eight effective steps per node. */
  lemma StepsEnd(c: Config, s: State, at: (nat, bool))
    requires Valid(c) && Sized(c, s) && Inv(c, s)
    ensures Pick(c, s, at) == s || Measure(Pick(c, s, at).phase) < Measure(s.phase)
  {
    var (i, fault) := at;
    if i < |c.nodes| {
      assert NodeInv(c, s, i);
      if s.phase[i].Registered? {
        ReleaseRank(c, s, i, fault);
      } else {
        OwnRank(c, s, i, fault);
      }
    }
  }

  /** The two phases a release changes. */
  function Released(c: Config, s: State, i: nat, p: nat): seq<Phase>
    requires i < |s.phase| && s.phase[i].Registered? && p < |s.phase|
  {
    s.phase[i := Finished(s.phase[i].ref)][p := Spawned]
  }

  lemma ReleasePhase(c: Config, s: State, i: nat, fault: bool) returns (p: nat)
    requires Valid(c) && Sized(c, s) && Inv(c, s) && i < |c.nodes| && s.phase[i].Registered?
    ensures c.nodes[i].parent == Some(p) && p < |s.phase| && p != i && s.phase[p].Waiting?
    ensures var t := Pick(c, s, (i, fault));
      && t.error == s.error && t.abort == s.abort
      && (t.phase == s.phase[i := Finished(s.phase[i].ref)] || t.phase == Released(c, s, i, p))
  {
    assert NodeInv(c, s, i);
    ParentWaits(c, s, i);
    p := c.nodes[i].parent.value;
  }

  lemma ReleaseRank(c: Config, s: State, i: nat, fault: bool)
    requires Valid(c) && Sized(c, s) && Inv(c, s) && i < |c.nodes| && s.phase[i].Registered?
    ensures Measure(Pick(c, s, (i, fault)).phase) < Measure(s.phase)
  {
    var p := ReleasePhase(c, s, i, fault);
    MeasureRelease(s.phase, i, p);
  }

  lemma MeasureRelease(a: seq<Phase>, i: nat, p: nat)
    requires i < |a| && p < |a| && p != i && a[i].Registered? && a[p].Waiting?
    ensures Measure(a[i := Finished(a[i].ref)]) < Measure(a)
    ensures Measure(a[i := Finished(a[i].ref)][p := Spawned]) < Measure(a)
  {
    MeasureUpdate(a, i, Finished(a[i].ref));
    MeasureUpdate(a[i := Finished(a[i].ref)], p, Spawned);
  }

  lemma OwnRank(c: Config, s: State, i: nat, fault: bool)
    requires Valid(c) && Sized(c, s) && i < |c.nodes| && !s.phase[i].Registered?
    ensures Pick(c, s, (i, fault)) == s || Measure(Pick(c, s, (i, fault)).phase) < Measure(s.phase)
  {
    OwnForward(c, s, i, fault);
    MeasureUpdate(s.phase, i, Pick(c, s, (i, fault)).phase[i]);
  }

  lemma OwnPhase(c: Config, s: State, i: nat, fault: bool)
    requires Sized(c, s) && i < |c.nodes| && !s.phase[i].Registered?
    requires c.nodes[i].parent.Some? ==> c.nodes[i].parent.value < |c.nodes| && c.nodes[i].parentSlot.Some?
    requires Next(c, s, i, fault).Some?
    ensures var t := Next(c, s, i, fault).value;
      t.phase == s.phase[i := t.phase[i]] && Rank(t.phase[i]) < Rank(s.phase[i])
  {
    RankFalls(c, s, i, fault);
  }

  lemma RankFalls(c: Config, s: State, i: nat, fault: bool)
    requires Sized(c, s) && i < |c.nodes| && !s.phase[i].Registered?
    requires c.nodes[i].parent.Some? ==> c.nodes[i].parent.value < |c.nodes| && c.nodes[i].parentSlot.Some?
    requires Next(c, s, i, fault).Some?
    ensures Rank(Next(c, s, i, fault).value.phase[i]) < Rank(s.phase[i])
  {
  }

  /** No step moves any node backwards: each passes through every stage at most once, so a
      node is spawned, serialised and appended at most once in a run. */
  lemma NeverBack(c: Config, s: State, at: (nat, bool), j: nat)
    requires Valid(c) && Sized(c, s) && Inv(c, s) && j < |c.nodes|
    ensures Pick(c, s, at).phase[j] == s.phase[j] || Rank(Pick(c, s, at).phase[j]) < Rank(s.phase[j])
  {
    var (i, fault) := at;
    if i < |c.nodes| {
      if s.phase[i].Registered? {
        var _ := ReleasePhase(c, s, i, fault);
      } else {
        OwnForward(c, s, i, fault);
      }
    }
  }

  lemma OwnForward(c: Config, s: State, i: nat, fault: bool)
    requires Valid(c) && Sized(c, s) && i < |c.nodes| && !s.phase[i].Registered?
    ensures var t := Pick(c, s, (i, fault));
      t == s || (t.phase == s.phase[i := t.phase[i]] && Rank(t.phase[i]) < Rank(s.phase[i]))
  {
    assert i > 0 ==> ParentOk(c.nodes, c.kids, i);
    if Next(c, s, i, fault).Some? {
      OwnPhase(c, s, i, fault);
    }
  }

  /** The number of picks in `sched` that change the state. */
  function Effective(c: Config, sched: Schedule): nat
    requires Valid(c)
    decreases |sched|
  {
    if sched == [] then 0
    else
      var before := Exec(c, sched[..|sched| - 1]);
      Effective(c, sched[..|sched| - 1]) + if Pick(c, before, sched[|sched| - 1]) == before then 0 else 1
  }

  lemma {:induction false} Termination(c: Config, sched: Schedule)
    requires Valid(c)
    ensures Effective(c, sched) + Measure(Exec(c, sched).phase) <= 8 * |c.nodes|
    decreases |sched|
  {
    if sched != [] {
      var init := sched[..|sched| - 1];
      Termination(c, init);
      RunInv(c, init);
      StepsEnd(c, Exec(c, init), sched[|sched| - 1]);
    }
  }

  // --- Nothing is stuck ---

  predicate AllFinished(s: State) {
    forall i :: 0 <= i < |s.phase| ==> s.phase[i].Finished?
  }

  /** Once a node has run, the whole subtree below it has finished. */
  lemma {:induction false} RootLast(c: Config, s: State, i: nat)
    requires Valid(c) && Sized(c, s) && Inv(c, s) && 0 < i < |c.nodes| && !s.phase[0].Waiting?
    ensures s.phase[i].Finished?
    decreases i
  {
    assert ParentOk(c.nodes, c.kids, i);
    var p := c.nodes[i].parent.value;
    if p > 0 {
      RootLast(c, s, p);
    }
    assert NodeInv(c, s, p);
    KidsFinished(c, s, p);
  }

  predicate CanMove(p: Phase) {
    p.Spawned? || p.Running? || p.Holding? || p.Built? || p.Written? || p.Registered? || p.Aborting?
  }

  lemma Moves(c: Config, s: State, i: nat)
    requires Valid(c) && Sized(c, s) && Inv(c, s) && i < |c.nodes|
    requires CanMove(s.phase[i]) || (s.phase[i].Failing? && s.lock.None?)
    ensures Pick(c, s, (i, false)) != s
  {
    if s.phase[i].Registered? {
      var _ := ReleasePhase(c, s, i, false);
      assert Pick(c, s, (i, false)).phase[i].Finished?;
    } else {
      OwnMoves(c, s, i);
    }
  }

  lemma OwnMoves(c: Config, s: State, i: nat)
    requires Valid(c) && Sized(c, s) && Inv(c, s) && i < |c.nodes| && !s.phase[i].Registered?
    requires CanMove(s.phase[i]) || (s.phase[i].Failing? && s.lock.None?)
    ensures Pick(c, s, (i, false)) != s
  {
    assert i > 0 ==> ParentOk(c.nodes, c.kids, i);
    OwnPhase(c, s, i, false);
  }

  /** In a quiescent state every node either waits, has finished, or was stopped by an error. */
  lemma Settled(c: Config, s: State, i: nat)
    requires Valid(c) && Sized(c, s) && Inv(c, s) && Quiescent(c, s) && i < |c.nodes|
    ensures s.lock.None?
    ensures s.phase[i].Waiting? || s.phase[i].Finished? || s.phase[i].Stopped?
  {
    if s.lock.Some? {
      assert Pick(c, s, (s.lock.value, false)) == s;
      Moves(c, s, s.lock.value);
    }
    if CanMove(s.phase[i]) || s.phase[i].Failing? {
      assert Pick(c, s, (i, false)) == s;
      Moves(c, s, i);
    }
  }

  /** Without an error a joined scope has finished every node: by induction from the last
      node down, a node whose children have all finished cannot still be waiting. */
  lemma {:induction false} QuiescentFinished(c: Config, s: State, i: nat)
    requires Valid(c) && Sized(c, s) && Inv(c, s) && Quiescent(c, s) && s.error.None? && i < |c.nodes|
    ensures forall j :: i <= j < |c.nodes| ==> s.phase[j].Finished?
    decreases |c.nodes| - i
  {
    if i + 1 < |c.nodes| {
      QuiescentFinished(c, s, i + 1);
    }
    Settled(c, s, i);
    assert NodeInv(c, s, i);
    KidIds(c, i, |c.nodes|);
    NonePending(s.phase, c.kids[i]);
    assert !Down(s.phase[i]);
  }

  // --- Outcomes ---

  /** A joined scope returns exactly one of two things. Either no error was signalled:
      every node has been written once and the root's extent is returned. Or the captured
      error is returned, it is a legitimate one, and the root was never written out. */
  lemma RunOutcome(c: Config, sched: Schedule)
    requires Valid(c) && Quiescent(c, Exec(c, sched))
    ensures var s := Exec(c, sched);
      && (s.error.None? ==> AllFinished(s) && s.root.Some? && Outcome(s) == Ok(s.root.value))
      && (s.error.Some? ==> s.root.None? && Outcome(s) == Err(s.error.value) && Legitimate(c, s.error.value))
  {
    var s := Exec(c, sched);
    RunInv(c, sched);
    Settled(c, s, 0);
    if s.error.None? {
      QuiescentFinished(c, s, 0);
    } else {
      ErrorOrRoot(c, s);
    }
  }

  /** At no moment are both an error and a root result captured. */
  lemma ErrorOrRoot(c: Config, s: State)
    requires Valid(c) && Sized(c, s) && Inv(c, s)
    ensures s.error.None? || s.root.None?
  {
    if s.error.Some? && s.root.Some? {
      var d :| 0 <= d < |s.phase| && Down(s.phase[d]);
      if d > 0 {
        RootLast(c, s, d);
      }
    }
  }

  /** While a worker is signalling its error, another one that fails waits for it. */
  lemma LockExcludes(c: Config, s: State, i: nat, j: nat, fault: bool)
    requires Valid(c) && Sized(c, s) && j < |c.nodes| && s.lock == Some(i) && s.phase[j].Failing?
    ensures Pick(c, s, (j, fault)) == s
  {
    assert j > 0 ==> ParentOk(c.nodes, c.kids, j);
  }

  ghost predicate StoppedByAbort(s: State) {
    forall i :: 0 <= i < |s.phase| && s.phase[i].Stopped? ==> s.abort
  }

  /** So whenever a worker has stopped on account of an error, its own or another's, the abort
      flag is already set. */
  lemma {:induction false} AbortFirst(c: Config, sched: Schedule)
    requires Valid(c)
    ensures StoppedByAbort(Exec(c, sched))
    decreases |sched|
  {
    if sched != [] {
      var init := sched[..|sched| - 1];
      AbortFirst(c, init);
      RunInv(c, init);
      AbortStep(c, Exec(c, init), sched[|sched| - 1].0, sched[|sched| - 1].1);
    }
  }

  lemma AbortStep(c: Config, s: State, i: nat, fault: bool)
    requires Valid(c) && Sized(c, s) && Inv(c, s) && StoppedByAbort(s)
    ensures StoppedByAbort(Pick(c, s, (i, fault)))
  {
    if i < |c.nodes| {
      if s.phase[i].Registered? {
        var _ := ReleasePhase(c, s, i, fault);
      } else {
        OwnForward(c, s, i, fault);
        OwnAbort(c, s, i, fault);
      }
    }
  }

  lemma OwnAbort(c: Config, s: State, i: nat, fault: bool)
    requires Valid(c) && Sized(c, s) && Inv(c, s) && i < |c.nodes| && !s.phase[i].Registered?
    ensures s.abort ==> Pick(c, s, (i, fault)).abort
    ensures Pick(c, s, (i, fault)).phase[i].Stopped? && !s.phase[i].Stopped? ==> Pick(c, s, (i, fault)).abort
  {
    assert i > 0 ==> ParentOk(c.nodes, c.kids, i);
  }

  /** The error that is returned is the first one signalled. */
  lemma {:induction false} FirstErrorWins(c: Config, sched: Schedule, more: Schedule)
    requires Valid(c) && Exec(c, sched).error.Some?
    ensures Exec(c, sched + more).error == Exec(c, sched).error
    decreases |more|
  {
    if more == [] {
      assert sched + more == sched;
    } else {
      var init := more[..|more| - 1];
      FirstErrorWins(c, sched, init);
      assert (sched + more)[..|sched + more| - 1] == sched + init;
    }
  }

  ghost predicate NoFaults(sched: Schedule) {
    forall k :: 0 <= k < |sched| ==> !sched[k].1
  }

  ghost predicate AllPack(c: Config) {
    forall i :: 0 <= i < |c.nodes| ==> Pack(c, i).Ok?
  }

  /** If no write fails and every node's own work succeeds, no error is ever signalled. */
  lemma {:induction false} NoFaultNoError(c: Config, sched: Schedule)
    requires Valid(c) && NoFaults(sched) && AllPack(c)
    ensures Exec(c, sched).error.None?
    ensures forall i :: 0 <= i < |c.nodes| ==> !Exec(c, sched).phase[i].Failing?
    decreases |sched|
  {
    if sched != [] {
      var init := sched[..|sched| - 1];
      assert forall k :: 0 <= k < |init| ==> init[k] == sched[k];
      NoFaultNoError(c, init);
      RunInv(c, init);
      CleanStep(c, Exec(c, init), sched[|sched| - 1].0);
    }
  }

  lemma CleanStep(c: Config, s: State, i: nat)
    requires Valid(c) && Sized(c, s) && Inv(c, s) && AllPack(c) && s.error.None?
    requires forall j :: 0 <= j < |c.nodes| ==> !s.phase[j].Failing?
    ensures Pick(c, s, (i, false)).error.None?
    ensures forall j :: 0 <= j < |c.nodes| ==> !Pick(c, s, (i, false)).phase[j].Failing?
  {
    if i < |c.nodes| {
      assert NodeInv(c, s, i);
      if s.phase[i].Holding? {
        ProduceNoMissing(c, s, i);
      } else if s.phase[i].Written? && c.nodes[i].parent.Some? {
        RegisterStep(c, s, i, false);
      }
    }
  }

  predicate IoFailing(p: Phase) {
    p == Failing(IoFailed)
  }

  /** Without write faults no write failure is ever reported. */
  lemma {:induction false} NoFaultNoIo(c: Config, sched: Schedule)
    requires Valid(c) && NoFaults(sched) && forall i :: 0 <= i < |c.nodes| ==> Pack(c, i) != Err(IoFailed)
    ensures Exec(c, sched).error != Some(IoFailed)
    ensures forall i :: 0 <= i < |c.nodes| ==> !IoFailing(Exec(c, sched).phase[i])
    decreases |sched|
  {
    if sched != [] {
      var init := sched[..|sched| - 1];
      assert forall k :: 0 <= k < |init| ==> init[k] == sched[k];
      NoFaultNoIo(c, init);
      RunInv(c, init);
      NoIoStep(c, Exec(c, init), sched[|sched| - 1].0);
    }
  }

  lemma NoIoStep(c: Config, s: State, i: nat)
    requires Valid(c) && Sized(c, s) && Inv(c, s) && s.error != Some(IoFailed)
    requires forall j :: 0 <= j < |c.nodes| ==> Pack(c, j) != Err(IoFailed)
    requires forall j :: 0 <= j < |c.nodes| ==> !IoFailing(s.phase[j])
    ensures Pick(c, s, (i, false)).error != Some(IoFailed)
    ensures forall j :: 0 <= j < |c.nodes| ==> !IoFailing(Pick(c, s, (i, false)).phase[j])
  {
    if i < |c.nodes| {
      if s.phase[i].Registered? {
        var _ := ReleasePhase(c, s, i, false);
      } else {
        assert !IoFailing(s.phase[i]);
        OwnNoIo(c, s, i);
        OwnForward(c, s, i, false);
      }
    }
  }

  lemma OwnNoIo(c: Config, s: State, i: nat)
    requires Valid(c) && Sized(c, s) && Inv(c, s) && s.error != Some(IoFailed)
    requires i < |c.nodes| && !s.phase[i].Registered? && !IoFailing(s.phase[i]) && Pack(c, i) != Err(IoFailed)
    ensures Pick(c, s, (i, false)).error != Some(IoFailed)
    ensures !IoFailing(Pick(c, s, (i, false)).phase[i])
  {
    assert NodeInv(c, s, i);
    if s.phase[i].Holding? {
      ProduceNoMissing(c, s, i);
    } else if s.phase[i].Written? && c.nodes[i].parent.Some? {
      RegisterStep(c, s, i, false);
    }
  }

  /** Conversely, a run in which some node's own work fails never succeeds. */
  lemma FailureIsReported(c: Config, sched: Schedule, i: nat)
    requires Valid(c) && Quiescent(c, Exec(c, sched)) && i < |c.nodes| && Pack(c, i).Err?
    ensures Outcome(Exec(c, sched)).Err?
  {
    RunOutcome(c, sched);
    RunInv(c, sched);
    if Exec(c, sched).error.None? {
      assert NodeInv(c, Exec(c, sched), i);
    }
  }
}
