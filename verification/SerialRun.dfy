/** The serial order of work as one particular schedule of the transition system: nodes in
    descending id, each worker running to its end before the next one starts. */
module SerialRun {
  import opened Wrappers
  import opened Bytes
  import opened Format
  import opened Shape
  import opened Protocol
  import opened Invariant
  import opened Steps

  /** At which nodes the stream fails. */
  type Faults = nat -> bool

  /** No worker ever takes more than six steps. */
  const TURN: nat := 6

  function Times(c: Config, s: State, at: (nat, bool), k: nat): (r: State)
    requires Valid(c) && Sized(c, s)
    ensures Sized(c, r)
    decreases k, |s.phase|
  {
    if k == 0 then s else Times(c, Pick(c, s, at), at, k - 1)
  }

  /** The turns of nodes `n - 1` down to `i`. */
  function SerialSchedule(n: nat, i: nat, fails: Faults): Schedule
    decreases n - i
  {
    if i >= n then [] else SerialSchedule(n, i + 1, fails) + Repeated((i, fails(i)), TURN)
  }

  function Repeated(at: (nat, bool), k: nat): Schedule
    decreases k, at.0
  {
    if k == 0 then [] else [at] + Repeated(at, k - 1)
  }

  lemma {:induction false} ExecTimes(c: Config, sched: Schedule, at: (nat, bool), k: nat)
    requires Valid(c)
    ensures Exec(c, sched + Repeated(at, k)) == Times(c, Exec(c, sched), at, k)
    decreases k
  {
    if k == 0 {
      assert sched + [] == sched;
    } else {
      Assoc(sched, [at], Repeated(at, k - 1));
      ExecTimes(c, sched + [at], at, k - 1);
      ExecOne(c, sched, at);
    }
  }

  lemma ExecOne(c: Config, sched: Schedule, at: (nat, bool))
    requires Valid(c)
    ensures Exec(c, sched + [at]) == Pick(c, Exec(c, sched), at)
  {
    assert (sched + [at])[..|sched|] == sched;
  }

  lemma {:induction false} TimesInv(c: Config, s: State, at: (nat, bool), k: nat)
    requires Valid(c) && Sized(c, s) && Inv(c, s)
    ensures Inv(c, Times(c, s, at, k))
    decreases k
  {
    if k > 0 {
      PickInv(c, s, at);
      TimesInv(c, Pick(c, s, at), at, k - 1);
    }
  }

  // --- One turn ---

  /** Nodes from `i` on have finished, the others have not started, and nothing failed. */
  ghost predicate Ready(c: Config, s: State, i: nat)
    requires Valid(c) && Sized(c, s)
  {
    && Inv(c, s)
    && s.error.None? && !s.abort && s.lock.None?
    && (forall j :: i <= j < |s.phase| ==> s.phase[j].Finished?)
    && (forall j :: 0 <= j < i && j < |s.phase| ==> Fresh(s.phase[j]))
  }

  predicate Fresh(p: Phase) {
    p.Waiting? || p.Spawned?
  }

  lemma ReadyInit(c: Config)
    requires Valid(c)
    ensures Ready(c, Init(c), |c.nodes|)
  {
    InitInv(c);
  }

  /** Descending ids guarantee that every child has delivered: the next node is ready to
      run, and its slots are full. */
  lemma NextIsSpawned(c: Config, s: State, i: nat)
    requires Valid(c) && Sized(c, s) && i < |c.nodes| && Ready(c, s, i + 1)
    ensures Ids(c.kids[i], |s.phase|) && s.phase[i].Spawned? && s.slots[i] == SlotView(s.phase, c.kids[i])
    ensures forall k :: 0 <= k < |c.kids[i]| ==> s.phase[c.kids[i][k]].Finished?
  {
    assert NodeInv(c, s, i);
    KidIds(c, i, |c.nodes|);
    NonePending(s.phase, c.kids[i]);
  }

  /** The state once node `i` has appended `buf`. */
  function WithChunk(s: State, i: nat, buf: bytes): State
    requires i < |s.phase| == |s.slots|
  {
    Goto(s.(slots := s.slots[i := []], out := s.out + buf), i, Written(ChildRef(|s.out|, |buf|)))
  }

  /** The first three steps take the slots and build the chunk. */
  lemma ThreeSteps(c: Config, s: State, i: nat, fault: bool, k: nat)
    requires Valid(c) && Sized(c, s) && i < |c.nodes| && s.phase[i].Spawned? && !s.abort
    ensures var r := Produce(c, i, s.slots[i]);
      Times(c, s, (i, fault), k + 3)
      == Times(c, Goto(s.(slots := s.slots[i := []]), i, if r.Ok? then Built(r.value) else Failing(r.error)),
               (i, fault), k)
  {
    var got := s.slots[i];
    var r := Produce(c, i, got);
    var q := if r.Ok? then Built(r.value) else Failing(r.error);
    assert i > 0 ==> ParentOk(c.nodes, c.kids, i);
    OneStep(c, s, i, fault, Goto(s, i, Running), k + 2);
    assert s.phase[i := Running][i := Holding(got)] == s.phase[i := Holding(got)];
    OneStep(c, Goto(s, i, Running), i, fault, Goto(s.(slots := s.slots[i := []]), i, Holding(got)), k + 1);
    assert s.phase[i := Holding(got)][i := q] == s.phase[i := q];
    OneStep(c, Goto(s.(slots := s.slots[i := []]), i, Holding(got)), i, fault,
      Goto(s.(slots := s.slots[i := []]), i, q), k);
  }

  lemma OneStep(c: Config, s: State, i: nat, fault: bool, t: State, k: nat)
    requires Valid(c) && Sized(c, s) && i < |c.nodes|
    requires c.nodes[i].parent.Some? ==> c.nodes[i].parent.value < |c.nodes| && c.nodes[i].parentSlot.Some?
    requires Next(c, s, i, fault) == Some(t)
    ensures Times(c, s, (i, fault), k + 1) == Times(c, t, (i, fault), k)
  {
  }

  lemma FourSteps(c: Config, s: State, i: nat, buf: bytes, k: nat)
    requires Valid(c) && Sized(c, s) && i < |c.nodes| && s.phase[i].Spawned? && !s.abort
    requires Produce(c, i, s.slots[i]) == Ok(buf)
    ensures Times(c, s, (i, false), k + 4) == Times(c, WithChunk(s, i, buf), (i, false), k)
  {
    ThreeSteps(c, s, i, false, k + 1);
    WriteStep(c, s.(slots := s.slots[i := []]), i, buf, k);
  }

  lemma WriteStep(c: Config, s: State, i: nat, buf: bytes, k: nat)
    requires Valid(c) && Sized(c, s) && i < |c.nodes|
    ensures Times(c, Goto(s, i, Built(buf)), (i, false), k + 1)
         == Times(c, Goto(s.(out := s.out + buf), i, Written(ChildRef(|s.out|, |buf|))), (i, false), k)
  {
    assert i > 0 ==> ParentOk(c.nodes, c.kids, i);
    assert s.phase[i := Built(buf)][i := Written(ChildRef(|s.out|, |buf|))]
        == s.phase[i := Written(ChildRef(|s.out|, |buf|))];
    OneStep(c, Goto(s, i, Built(buf)), i, false, Goto(s.(out := s.out + buf), i, Written(ChildRef(|s.out|, |buf|))), k);
  }

  /** A node that can no longer move. */
  predicate Resting(p: Phase) {
    p.Waiting? || p.Finished? || p.Stopped?
  }

  lemma {:induction false} RestingStays(c: Config, s: State, at: (nat, bool), k: nat)
    requires Valid(c) && Sized(c, s) && at.0 < |c.nodes| && Resting(s.phase[at.0])
    ensures Times(c, s, at, k) == s
    decreases k
  {
    if k > 0 {
      assert at.0 > 0 ==> ParentOk(c.nodes, c.kids, at.0);
      assert Pick(c, s, at) == s;
      RestingStays(c, s, at, k - 1);
    }
  }

  function Slot(c: Config, i: nat): nat
    requires i < |c.nodes|
  {
    c.nodes[i].parentSlot.GetOr(0)
  }

  /** The slots once node `i` has taken its own and delivered `r` to its parent. */
  function Delivery(c: Config, slots: seq<seq<Option<ChildRef>>>, i: nat, r: ChildRef): seq<seq<Option<ChildRef>>>
    requires i < |c.nodes| == |slots|
    requires c.nodes[i].parent.Some?
      ==> c.nodes[i].parent.value < |slots| && Slot(c, i) < |slots[c.nodes[i].parent.value]|
  {
    if c.nodes[i].parent.None? then slots[i := []]
    else
      var p := c.nodes[i].parent.value;
      slots[i := []][p := slots[p][Slot(c, i) := Some(r)]]
  }

  /** The parent of the next node still has its slot. */
  lemma SlotFree(c: Config, s: State, i: nat)
    requires Valid(c) && Sized(c, s) && i < |c.nodes| && Ready(c, s, i + 1) && c.nodes[i].parent.Some?
    ensures ParentOk(c.nodes, c.kids, i) && c.nodes[i].parent.value != i
    ensures Slot(c, i) == c.nodes[i].parentSlot.value < |s.slots[c.nodes[i].parent.value]|
  {
    NextIsSpawned(c, s, i);
    ParentWaits(c, s, i);
  }

  lemma RootTurn(c: Config, s: State, i: nat, buf: bytes)
    requires Valid(c) && Sized(c, s) && i < |c.nodes| && s.phase[i].Spawned? && !s.abort && c.nodes[i].parent.None?
    requires Produce(c, i, s.slots[i]) == Ok(buf)
    ensures var r := ChildRef(|s.out|, |buf|);
      Times(c, s, (i, false), TURN)
      == Goto(s.(slots := s.slots[i := []], out := s.out + buf, root := Some(r)), i, Finished(r))
  {
    var r := ChildRef(|s.out|, |buf|);
    FourSteps(c, s, i, buf, 2);
    RootFinish(c, WithChunk(s, i, buf), i, r);
    assert s.phase[i := Written(r)][i := Finished(r)] == s.phase[i := Finished(r)];
  }

  lemma RootFinish(c: Config, s: State, i: nat, r: ChildRef)
    requires Valid(c) && Sized(c, s) && i < |c.nodes| && c.nodes[i].parent.None? && s.phase[i] == Written(r)
    ensures Times(c, s, (i, false), 2) == Goto(s.(root := Some(r)), i, Finished(r))
  {
    var t := Goto(s.(root := Some(r)), i, Finished(r));
    OneStep(c, s, i, false, t, 1);
    RestingStays(c, t, (i, false), 1);
  }

  lemma ChildTurn(c: Config, s: State, i: nat, buf: bytes)
    requires Valid(c) && Sized(c, s) && i < |c.nodes| && s.phase[i].Spawned? && !s.abort
    requires c.nodes[i].parent.Some? && ParentOk(c.nodes, c.kids, i) && Slot(c, i) < |s.slots[c.nodes[i].parent.value]|
    requires Produce(c, i, s.slots[i]) == Ok(buf)
    ensures var r, t := ChildRef(|s.out|, |buf|), Times(c, s, (i, false), TURN);
      && t.out == s.out + buf
      && t.slots == Delivery(c, s.slots, i, r)
      && t.error == s.error && t.lock == s.lock && t.abort == s.abort
      && (|| t.phase == s.phase[i := Finished(r)]
          || t.phase == s.phase[i := Finished(r)][c.nodes[i].parent.value := Spawned])
  {
    FourSteps(c, s, i, buf, 2);
    ChildFinish(c, s, i, buf);
  }

  lemma ChildFinish(c: Config, s: State, i: nat, buf: bytes)
    requires Valid(c) && Sized(c, s) && i < |c.nodes| && c.nodes[i].parent.Some? && ParentOk(c.nodes, c.kids, i)
    requires Slot(c, i) < |s.slots[c.nodes[i].parent.value]|
    ensures var r, t := ChildRef(|s.out|, |buf|), Times(c, WithChunk(s, i, buf), (i, false), 2);
      && t.out == s.out + buf
      && t.slots == Delivery(c, s.slots, i, r)
      && t.error == s.error && t.lock == s.lock && t.abort == s.abort
      && (|| t.phase == s.phase[i := Finished(r)]
          || t.phase == s.phase[i := Finished(r)][c.nodes[i].parent.value := Spawned])
  {
    var r, a := ChildRef(|s.out|, |buf|), WithChunk(s, i, buf);
    var p := c.nodes[i].parent.value;
    var b := Goto(a.(slots := Delivery(c, s.slots, i, r)), i, Registered(r));
    OneStep(c, a, i, false, b, 1);
    OneStep(c, b, i, false, Release(b, i, r, p), 0);
    assert s.phase[i := Written(r)][i := Registered(r)][i := Finished(r)] == s.phase[i := Finished(r)];
  }

  /** A turn without a fault leaves the next node ready. */
  lemma TurnDone(c: Config, s: State, i: nat, buf: bytes)
    requires Valid(c) && Sized(c, s) && i < |c.nodes| && Ready(c, s, i + 1)
    requires Produce(c, i, s.slots[i]) == Ok(buf)
    ensures c.nodes[i].parent.Some? ==>
              && c.nodes[i].parent.value < i
              && c.nodes[i].parentSlot == Some(Slot(c, i))
              && Slot(c, i) < |s.slots[c.nodes[i].parent.value]|
    ensures var r, t := ChildRef(|s.out|, |buf|), Times(c, s, (i, false), TURN);
      && Ready(c, t, i)
      && t.out == s.out + buf
      && t.slots == Delivery(c, s.slots, i, r)
      && t.phase[i] == Finished(r)
  {
    TimesInv(c, s, (i, false), TURN);
    NextIsSpawned(c, s, i);
    if c.nodes[i].parent.None? {
      RootTurn(c, s, i, buf);
    } else {
      SlotFree(c, s, i);
      ChildTurn(c, s, i, buf);
    }
  }

  // --- A turn that fails ---

  /** The state once node `i` has reported `e`. */
  function Halted(s: State, i: nat, e: Error): State
    requires i < |s.phase|
  {
    Goto(s.(error := Some(e), lock := None, abort := true), i, Stopped)
  }

  lemma Halting(c: Config, s: State, i: nat, fault: bool, e: Error, k: nat)
    requires Valid(c) && Sized(c, s) && i < |c.nodes| && s.phase[i] == Failing(e) && s.error.None? && s.lock.None?
    ensures Times(c, s, (i, fault), k + 2) == Halted(s, i, e)
  {
    var t := Goto(s.(error := Some(e), lock := Some(i)), i, Aborting);
    assert i > 0 ==> ParentOk(c.nodes, c.kids, i);
    OneStep(c, s, i, fault, t, k + 1);
    assert s.phase[i := Aborting][i := Stopped] == s.phase[i := Stopped];
    OneStep(c, t, i, fault, Halted(s, i, e), k);
    RestingStays(c, Halted(s, i, e), (i, fault), k);
  }

  lemma WorkFails(c: Config, s: State, i: nat, fault: bool, e: Error)
    requires Valid(c) && Sized(c, s) && i < |c.nodes| && s.phase[i].Spawned?
    requires !s.abort && s.error.None? && s.lock.None?
    requires Produce(c, i, s.slots[i]) == Err(e)
    ensures Times(c, s, (i, fault), TURN) == Halted(s.(slots := s.slots[i := []]), i, e)
  {
    ThreeSteps(c, s, i, fault, 3);
    WorkFault(c, s.(slots := s.slots[i := []]), i, fault, e);
  }

  lemma WorkFault(c: Config, s: State, i: nat, fault: bool, e: Error)
    requires Valid(c) && Sized(c, s) && i < |c.nodes| && s.error.None? && s.lock.None?
    ensures Times(c, Goto(s, i, Failing(e)), (i, fault), 3) == Halted(s, i, e)
  {
    Halting(c, Goto(s, i, Failing(e)), i, fault, e, 1);
    HaltedAfter(s, i, Failing(e), e);
  }

  lemma WriteFails(c: Config, s: State, i: nat, buf: bytes)
    requires Valid(c) && Sized(c, s) && i < |c.nodes| && s.phase[i].Spawned?
    requires !s.abort && s.error.None? && s.lock.None?
    requires Produce(c, i, s.slots[i]) == Ok(buf)
    ensures Times(c, s, (i, true), TURN) == Halted(s.(slots := s.slots[i := []]), i, IoFailed)
  {
    ThreeSteps(c, s, i, true, 3);
    WriteFault(c, s.(slots := s.slots[i := []]), i, buf);
  }

  lemma WriteFault(c: Config, s: State, i: nat, buf: bytes)
    requires Valid(c) && Sized(c, s) && i < |c.nodes| && s.error.None? && s.lock.None?
    ensures Times(c, Goto(s, i, Built(buf)), (i, true), 3) == Halted(s, i, IoFailed)
  {
    assert i > 0 ==> ParentOk(c.nodes, c.kids, i);
    assert s.phase[i := Built(buf)][i := Failing(IoFailed)] == s.phase[i := Failing(IoFailed)];
    OneStep(c, Goto(s, i, Built(buf)), i, true, Goto(s, i, Failing(IoFailed)), 2);
    Halting(c, Goto(s, i, Failing(IoFailed)), i, true, IoFailed, 0);
    HaltedAfter(s, i, Failing(IoFailed), IoFailed);
  }

  lemma HaltedAfter(s: State, i: nat, p: Phase, e: Error)
    requires i < |s.phase|
    ensures Halted(Goto(s, i, p), i, e) == Halted(s, i, e)
  {
    assert s.phase[i := p][i := Stopped] == s.phase[i := Stopped];
  }

  /** The error that ends a turn, if there is one. */
  function TurnError(c: Config, s: State, i: nat, fault: bool): Option<Error>
    requires Sized(c, s) && i < |c.nodes|
  {
    match Produce(c, i, s.slots[i])
    case Err(e) => Some(e)
    case Ok(_) => if fault then Some(IoFailed) else None
  }

  /** A turn that fails reports its error and leaves the output alone. */
  lemma TurnFailed(c: Config, s: State, i: nat, fault: bool, e: Error)
    requires Valid(c) && Sized(c, s) && i < |c.nodes| && Ready(c, s, i + 1) && TurnError(c, s, i, fault) == Some(e)
    ensures Aborted(Times(c, s, (i, fault), TURN), i, e, s.out)
  {
    NextIsSpawned(c, s, i);
    match Produce(c, i, s.slots[i])
    case Err(_) => WorkFails(c, s, i, fault, e);
    case Ok(buf) => WriteFails(c, s, i, buf);
  }

  // --- After a failure ---

  /** An error has been reported; nodes from `i` on rest. */
  ghost predicate Aborted(s: State, i: nat, e: Error, out: bytes) {
    && s.error == Some(e) && s.abort && s.lock.None? && s.out == out
    && (forall j :: i <= j < |s.phase| ==> Resting(s.phase[j]))
    && (forall j :: 0 <= j < i && j < |s.phase| ==> Fresh(s.phase[j]))
  }

  lemma AbortedTurn(c: Config, s: State, i: nat, fault: bool, e: Error, out: bytes)
    requires Valid(c) && Sized(c, s) && i < |c.nodes| && Aborted(s, i + 1, e, out)
    ensures Aborted(Times(c, s, (i, fault), TURN), i, e, out)
  {
    var at := (i, fault);
    if s.phase[i].Spawned? {
      assert i > 0 ==> ParentOk(c.nodes, c.kids, i);
      OneStep(c, s, i, fault, Goto(s, i, Stopped), 5);
      RestingStays(c, Goto(s, i, Stopped), at, 5);
    } else {
      RestingStays(c, s, at, TURN);
    }
  }

  /** The nodes from `i` on have had their turns, and an error has been reported. */
  ghost predicate AbortedAt(c: Config, i: nat, fails: Faults, e: Error, out: bytes)
    requires Valid(c)
  {
    Aborted(Exec(c, SerialSchedule(|c.nodes|, i, fails)), i, e, out)
  }

  lemma AbortedNext(c: Config, i: nat, fails: Faults, e: Error, out: bytes)
    requires Valid(c) && 0 < i <= |c.nodes| && AbortedAt(c, i, fails, e, out)
    ensures AbortedAt(c, i - 1, fails, e, out)
  {
    ExecTimes(c, SerialSchedule(|c.nodes|, i, fails), (i - 1, fails(i - 1)), TURN);
    AbortedTurn(c, Exec(c, SerialSchedule(|c.nodes|, i, fails)), i - 1, fails(i - 1), e, out);
  }

  /** The rest of the schedule stops every node that could still start. */
  lemma {:induction false} AbortedRest(c: Config, i: nat, fails: Faults, e: Error, out: bytes)
    requires Valid(c) && i <= |c.nodes| && AbortedAt(c, i, fails, e, out)
    ensures AbortedAt(c, 0, fails, e, out)
    decreases i
  {
    if i > 0 {
      AbortedNext(c, i, fails, e, out);
      AbortedRest(c, i - 1, fails, e, out);
    }
  }

  lemma RestIsQuiescent(c: Config, s: State)
    requires Valid(c) && Sized(c, s) && forall j :: 0 <= j < |s.phase| ==> Resting(s.phase[j])
    ensures Quiescent(c, s)
  {
    forall i, fault | 0 <= i < |c.nodes|
      ensures Pick(c, s, (i, fault)) == s
    {
      assert i > 0 ==> ParentOk(c.nodes, c.kids, i);
    }
  }
}
