/** Each kind of step keeps the invariant, hence every schedule does. */
module Steps {
  import opened Wrappers
  import opened Bytes
  import opened Format
  import opened Shape
  import opened Protocol
  import opened Invariant

  // --- Nodes ---

  lemma ChangeOne(a: seq<Phase>, i: nat, q: Phase, ks: seq<nat>)
    requires i < |a| && Ids(ks, |a|) && Alike(a[i], q)
    ensures AllAlike(a, a[i := q], ks)
  {
  }

  /** A step that moves node `i` in a way its parent cannot see. */
  lemma QuietNodes(c: Config, s: State, t: State, i: nat, q: Phase)
    requires Valid(c) && Sized(c, s) && Sized(c, t) && i < |c.nodes|
    requires forall j :: 0 <= j < |c.nodes| ==> NodeInv(c, s, j)
    requires t.phase == s.phase[i := q] && Alike(s.phase[i], q) && !s.phase[i].Waiting? && !q.Waiting?
    requires forall j :: 0 <= j < |c.nodes| && j != i ==> t.slots[j] == s.slots[j]
    requires t.deps == s.deps && s.out <= t.out
    requires Ids(c.kids[i], |t.phase|) ==> PhaseInv(c, t, i)
    ensures forall j :: 0 <= j < |c.nodes| ==> NodeInv(c, t, j)
  {
    forall j | 0 <= j < |c.nodes|
      ensures NodeInv(c, t, j)
    {
      assert NodeInv(c, s, j);
      ChangeOne(s.phase, i, q, c.kids[j]);
      if j == i {
        SameViews(s.phase, t.phase, c.kids[i]);
      } else {
        Untouched(c, s, t, j);
      }
    }
  }

  lemma QuietView(c: Config, s: State, i: nat, q: Phase)
    requires Valid(c) && Sized(c, s) && i < |c.nodes| && NodeInv(c, s, i) && Alike(s.phase[i], q)
    ensures SlotView(s.phase[i := q], c.kids[i]) == SlotView(s.phase, c.kids[i])
  {
    ChangeOne(s.phase, i, q, c.kids[i]);
    SameViews(s.phase, s.phase[i := q], c.kids[i]);
  }

  /** A node that no longer waits has all its children finished. */
  lemma KidsFinished(c: Config, s: State, i: nat)
    requires Valid(c) && Sized(c, s) && i < |c.nodes| && NodeInv(c, s, i) && !s.phase[i].Waiting?
    ensures forall k :: 0 <= k < |c.kids[i]| ==> s.phase[c.kids[i][k]].Finished?
  {
    NonePending(s.phase, c.kids[i]);
  }

  lemma ProduceNoMissing(c: Config, s: State, i: nat)
    requires Valid(c) && Sized(c, s) && i < |c.nodes| && NodeInv(c, s, i) && !s.phase[i].Waiting?
    ensures Collect(SlotView(s.phase, c.kids[i])).Ok?
    ensures Produce(c, i, SlotView(s.phase, c.kids[i])).Err? ==>
              Legitimate(c, Produce(c, i, SlotView(s.phase, c.kids[i])).error)
  {
    KidsFinished(c, s, i);
    CollectFull(SlotView(s.phase, c.kids[i]));
  }

  // --- Tiles ---

  predicate SameRefs(s: State, t: State) {
    |s.phase| == |t.phase| && forall i :: 0 <= i < |s.phase| ==> RefOf(t.phase[i]) == RefOf(s.phase[i])
  }

  lemma SameTiles(s: State, t: State)
    requires Tiled(s) && SameRefs(s, t) && t.out == s.out
    ensures Tiled(t)
  {
    forall i: nat, pos: nat
      ensures InExtent(t, i, pos) == InExtent(s, i, pos)
    {
    }
    forall pos: nat
      ensures Covered(t, pos) == Covered(s, pos)
    {
      if Covered(s, pos) {
        var i: nat :| InExtent(s, i, pos);
        assert InExtent(t, i, pos);
      }
      if Covered(t, pos) {
        var i: nat :| InExtent(t, i, pos);
        assert InExtent(s, i, pos);
      }
    }
  }

  lemma AppendTiles(s: State, t: State, i: nat, buf: bytes)
    requires Tiled(s) && i < |s.phase| && RefOf(s.phase[i]).None?
    requires t.out == s.out + buf && t.phase == s.phase[i := Written(ChildRef(|s.out|, |buf|))]
    ensures Tiled(t)
  {
    forall j: nat, pos: nat
      ensures InExtent(t, j, pos) == (if j == i then |s.out| <= pos < |t.out| else InExtent(s, j, pos))
    {
    }
    forall pos: nat
      ensures Covered(t, pos) <==> pos < |t.out|
    {
      if pos < |s.out| {
        assert Covered(s, pos);
        var j: nat :| InExtent(s, j, pos);
        assert InExtent(t, j, pos);
      } else if pos < |t.out| {
        assert InExtent(t, i, pos);
      } else {
        forall j: nat
          ensures !InExtent(t, j, pos)
        {
          Inside(s, j, pos);
        }
      }
    }
    forall j: nat, k: nat, pos: nat | InExtent(t, j, pos) && InExtent(t, k, pos)
      ensures j == k
    {
      Inside(s, j, pos);
      Inside(s, k, pos);
    }
  }

  lemma Inside(s: State, j: nat, pos: nat)
    requires Tiled(s)
    ensures InExtent(s, j, pos) ==> pos < |s.out|
  {
    assert InExtent(s, j, pos) ==> Covered(s, pos);
  }

  lemma KeepDown(a: seq<Phase>, i: nat, q: Phase)
    requires i < |a| && (Down(a[i]) ==> Down(q))
    ensures SomeDown(a) || Down(q) ==> SomeDown(a[i := q])
  {
    if SomeDown(a) {
      var d :| 0 <= d < |a| && Down(a[d]);
      assert Down(a[i := q][d]);
    } else if Down(q) {
      assert Down(a[i := q][i]);
    }
  }

  // --- Steps of one worker on its own ---

  lemma SpawnedStep(c: Config, s: State, i: nat, fault: bool)
    requires Valid(c) && Sized(c, s) && i < |c.nodes| && Inv(c, s) && s.phase[i].Spawned?
    ensures Inv(c, Pick(c, s, (i, fault)))
  {
    var t := Pick(c, s, (i, fault));
    assert NodeInv(c, s, i);
    QuietView(c, s, i, t.phase[i]);
    QuietNodes(c, s, t, i, t.phase[i]);
    KeepDown(s.phase, i, t.phase[i]);
    SameTiles(s, t);
  }

  lemma RunningStep(c: Config, s: State, i: nat, fault: bool)
    requires Valid(c) && Sized(c, s) && i < |c.nodes| && Inv(c, s) && s.phase[i].Running?
    ensures Inv(c, Pick(c, s, (i, fault)))
  {
    var t := Pick(c, s, (i, fault));
    assert NodeInv(c, s, i);
    QuietView(c, s, i, t.phase[i]);
    QuietNodes(c, s, t, i, t.phase[i]);
    KeepDown(s.phase, i, t.phase[i]);
    SameTiles(s, t);
  }

  lemma HoldingStep(c: Config, s: State, i: nat, fault: bool)
    requires Valid(c) && Sized(c, s) && i < |c.nodes| && Inv(c, s) && s.phase[i].Holding?
    ensures Inv(c, Pick(c, s, (i, fault)))
  {
    var t := Pick(c, s, (i, fault));
    assert NodeInv(c, s, i);
    ProduceNoMissing(c, s, i);
    QuietView(c, s, i, t.phase[i]);
    QuietNodes(c, s, t, i, t.phase[i]);
    KeepDown(s.phase, i, t.phase[i]);
    SameTiles(s, t);
  }

  lemma BuiltStep(c: Config, s: State, i: nat, fault: bool)
    requires Valid(c) && Sized(c, s) && i < |c.nodes| && Inv(c, s) && s.phase[i].Built?
    ensures Inv(c, Pick(c, s, (i, fault)))
  {
    var t := Pick(c, s, (i, fault));
    assert NodeInv(c, s, i);
    QuietView(c, s, i, t.phase[i]);
    if fault {
      SameTiles(s, t);
    } else {
      AppendTiles(s, t, i, s.phase[i].buf);
      BuiltWrote(c, s, t, i);
    }
    QuietNodes(c, s, t, i, t.phase[i]);
    KeepDown(s.phase, i, t.phase[i]);
  }

  lemma BuiltWrote(c: Config, s: State, t: State, i: nat)
    requires Valid(c) && Sized(c, s) && Sized(c, t) && i < |c.nodes| && Inv(c, s) && s.phase[i].Built?
    requires var buf := s.phase[i].buf;
      t.out == s.out + buf && t.phase == s.phase[i := Written(ChildRef(|s.out|, |buf|))]
    ensures Ids(c.kids[i], |t.phase|) && WroteOk(c, t, i, t.phase[i].ref)
  {
    var r := t.phase[i].ref;
    assert NodeInv(c, s, i);
    QuietView(c, s, i, t.phase[i]);
    KidsFinished(c, s, i);
    KidIds(c, i, |c.nodes|);
    assert Extent(t.out, r) == s.phase[i].buf;
    forall k | 0 <= k < |c.kids[i]|
      ensures EndsBefore(t, c.kids[i][k], r.offset)
    {
      assert NodeInv(c, s, c.kids[i][k]);
    }
  }

  lemma FailingStep(c: Config, s: State, i: nat, fault: bool)
    requires Valid(c) && Sized(c, s) && i < |c.nodes| && Inv(c, s) && (s.phase[i].Failing? || s.phase[i].Aborting?)
    ensures Inv(c, Pick(c, s, (i, fault)))
  {
    var t := Pick(c, s, (i, fault));
    if t != s {
      assert NodeInv(c, s, i);
      QuietNodes(c, s, t, i, t.phase[i]);
      KeepDown(s.phase, i, t.phase[i]);
      SameTiles(s, t);
      assert Down(t.phase[i]);
    }
  }

  lemma RootStep(c: Config, s: State, i: nat, fault: bool)
    requires Valid(c) && Sized(c, s) && i < |c.nodes| && Inv(c, s) && s.phase[i].Written? && c.nodes[i].parent.None?
    ensures Inv(c, Pick(c, s, (i, fault)))
  {
    var t := Pick(c, s, (i, fault));
    assert i > 0 ==> ParentOk(c.nodes, c.kids, i);
    RootNodes(c, s, t, i);
    SameTiles(s, t);
    KeepDown(s.phase, i, t.phase[i]);
  }

  lemma RootNodes(c: Config, s: State, t: State, i: nat)
    requires Valid(c) && Sized(c, s) && i == 0 < |c.nodes| && Inv(c, s) && s.phase[i].Written?
    requires c.nodes[i].parent.None?
    requires t == Goto(s.(root := Some(s.phase[i].ref)), i, Finished(s.phase[i].ref))
    ensures forall j :: 0 <= j < |c.nodes| ==> NodeInv(c, t, j)
  {
    forall j | 0 <= j < |c.nodes|
      ensures NodeInv(c, t, j)
    {
      assert NodeInv(c, s, j);
      KidIds(c, j, |c.nodes|);
      SameViews(s.phase, t.phase, c.kids[j]);
      if j == i {
        StillWrote(c, s, t, i, s.phase[i].ref);
      } else {
        Untouched(c, s, t, j);
      }
    }
  }

  // --- Steps that reach the parent ---

  lemma NotKid(c: Config, i: nat, j: nat)
    requires Valid(c) && i < |c.nodes| && j < |c.nodes| && c.nodes[i].parent != Some(j)
    ensures forall k :: 0 <= k < |c.kids[j]| ==> c.kids[j][k] != i
  {
    forall k | 0 <= k < |c.kids[j]|
      ensures c.kids[j][k] != i
    {
      if c.kids[j][k] == i {
        OnlyParent(c, i, j, k);
      }
    }
  }

  /** While a child has not finished, its parent waits and its slots are in place. */
  lemma ParentWaits(c: Config, s: State, i: nat)
    requires Valid(c) && Sized(c, s) && i < |c.nodes| && Inv(c, s)
    requires c.nodes[i].parent.Some? && !s.phase[i].Finished?
    ensures ParentOk(c.nodes, c.kids, i)
    ensures var p := c.nodes[i].parent.value;
      p != i && NodeInv(c, s, p) && s.phase[p].Waiting? && s.slots[p] == SlotView(s.phase, c.kids[p])
  {
    ParentIds(c, i);
    var p := c.nodes[i].parent.value;
    assert NodeInv(c, s, p);
    NonePending(s.phase, c.kids[p]);
  }

  lemma RegisterStep(c: Config, s: State, i: nat, fault: bool)
    requires Valid(c) && Sized(c, s) && i < |c.nodes| && Inv(c, s) && s.phase[i].Written? && c.nodes[i].parent.Some?
    ensures Inv(c, Pick(c, s, (i, fault)))
    ensures Pick(c, s, (i, fault)).phase == s.phase[i := Registered(s.phase[i].ref)]
  {
    var t := Pick(c, s, (i, fault));
    ParentWaits(c, s, i);
    var p, slot := c.nodes[i].parent.value, c.nodes[i].parentSlot.value;
    var r := s.phase[i].ref;
    assert t == Goto(s.(slots := s.slots[p := s.slots[p][slot := Some(r)]]), i, Registered(r));
    RegisterNodes(c, s, t, i, p, slot);
    SameTiles(s, t);
    KeepDown(s.phase, i, t.phase[i]);
    assert i != 0;
  }

  lemma RegisterNodes(c: Config, s: State, t: State, i: nat, p: nat, slot: nat)
    requires Valid(c) && Sized(c, s) && i < |c.nodes| && Inv(c, s) && s.phase[i].Written?
    requires c.nodes[i].parent == Some(p) && c.nodes[i].parentSlot == Some(slot) && ParentOk(c.nodes, c.kids, i)
    requires p != i && s.phase[p].Waiting? && Ids(c.kids[p], |s.phase|) && s.slots[p] == SlotView(s.phase, c.kids[p])
    requires t
      == Goto(s.(slots := s.slots[p := s.slots[p][slot := Some(s.phase[i].ref)]]), i, Registered(s.phase[i].ref))
    ensures forall j :: 0 <= j < |c.nodes| ==> NodeInv(c, t, j)
  {
    forall j | 0 <= j < |c.nodes|
      ensures NodeInv(c, t, j)
    {
      assert NodeInv(c, s, j);
      if j == p {
        PendingSame(s.phase, t.phase, c.kids[p]);
        RegisterView(c, s, t, i, p, slot);
      } else {
        NotKid(c, i, j);
        SameViews(s.phase, t.phase, c.kids[j]);
        if j == i {
          StillWrote(c, s, t, i, s.phase[i].ref);
        } else {
          Untouched(c, s, t, j);
        }
      }
    }
  }

  lemma RegisterView(c: Config, s: State, t: State, i: nat, p: nat, slot: nat)
    requires Valid(c) && Sized(c, s) && Sized(c, t) && i < |c.nodes| && p < |c.nodes| && Ids(c.kids[p], |s.phase|)
    requires s.phase[i].Written? && t.phase == s.phase[i := Registered(s.phase[i].ref)]
    requires c.nodes[i].parent == Some(p) && c.nodes[i].parentSlot == Some(slot)
    requires slot < |c.kids[p]| && c.kids[p][slot] == i
    ensures SlotView(t.phase, c.kids[p]) == SlotView(s.phase, c.kids[p])[slot := Some(s.phase[i].ref)]
  {
    forall k | 0 <= k < |c.kids[p]| && k != slot
      ensures c.kids[p][k] != i
    {
      if c.kids[p][k] == i {
        OnlyParent(c, i, p, k);
      }
    }
  }

  lemma ReleaseStep(c: Config, s: State, i: nat, fault: bool)
    requires Valid(c) && Sized(c, s) && i < |c.nodes| && Inv(c, s) && s.phase[i].Registered?
    ensures Inv(c, Pick(c, s, (i, fault)))
  {
    var p := ReleaseIs(c, s, i, fault);
    var t := Release(s, i, s.phase[i].ref, p);
    ReleaseNodes(c, s, t, i, p);
    SameTiles(s, t);
    ReleaseGlobals(c, s, t, i, p);
  }

  lemma ReleaseIs(c: Config, s: State, i: nat, fault: bool) returns (p: nat)
    requires Valid(c) && Sized(c, s) && i < |c.nodes| && Inv(c, s) && s.phase[i].Registered?
    ensures i > 0 && c.nodes[i].parent == Some(p) && ParentOk(c.nodes, c.kids, i)
    ensures p != i && s.phase[p].Waiting? && NodeInv(c, s, p)
    ensures Pick(c, s, (i, fault)) == Release(s, i, s.phase[i].ref, p)
  {
    assert NodeInv(c, s, i);
    ParentWaits(c, s, i);
    p := c.nodes[i].parent.value;
  }

  lemma ReleaseGlobals(c: Config, s: State, t: State, i: nat, p: nat)
    requires Valid(c) && Sized(c, s) && Sized(c, t) && 0 < i < |c.nodes| && p < |c.nodes| && GlobalInv(c, s)
    requires s.phase[i].Registered? && s.phase[p].Waiting? && p != i && t == Release(s, i, s.phase[i].ref, p)
    ensures GlobalInv(c, t)
  {
    var mid := s.phase[i := Finished(s.phase[i].ref)];
    KeepDown(s.phase, i, Finished(s.phase[i].ref));
    KeepDown(mid, p, t.phase[p]);
    assert mid[p := t.phase[p]] == t.phase;
  }

  lemma ReleaseNodes(c: Config, s: State, t: State, i: nat, p: nat)
    requires Valid(c) && Sized(c, s) && Sized(c, t) && i < |c.nodes| && Inv(c, s) && s.phase[i].Registered?
    requires c.nodes[i].parent == Some(p) && ParentOk(c.nodes, c.kids, i)
    requires p != i && s.phase[p].Waiting? && NodeInv(c, s, p)
    requires t == Release(s, i, s.phase[i].ref, p)
    ensures forall j :: 0 <= j < |c.nodes| ==> NodeInv(c, t, j)
  {
    forall j | 0 <= j < |c.nodes|
      ensures NodeInv(c, t, j)
    {
      assert NodeInv(c, s, j);
      if j == p {
        ReleaseParent(c, s, t, i, p);
      } else {
        NotKid(c, i, j);
        SameViews(s.phase, t.phase, c.kids[j]);
        if j == i {
          StillWrote(c, s, t, i, s.phase[i].ref);
        } else {
          Untouched(c, s, t, j);
        }
      }
    }
  }

  lemma ReleaseParent(c: Config, s: State, t: State, i: nat, p: nat)
    requires Valid(c) && Sized(c, s) && Sized(c, t) && i < |c.nodes| && p < |c.nodes| && s.phase[i].Registered?
    requires c.nodes[i].parent == Some(p) && ParentOk(c.nodes, c.kids, i)
    requires p != i && s.phase[p].Waiting? && NodeInv(c, s, p)
    requires t == Release(s, i, s.phase[i].ref, p)
    ensures NodeInv(c, t, p)
  {
    var ks, slot := c.kids[p], c.nodes[i].parentSlot.value;
    KidIds(c, p, |c.nodes|);
    forall k | 0 <= k < |ks| && k != slot
      ensures ks[k] != i
    {
      if ks[k] == i {
        OnlyParent(c, i, p, k);
      }
    }
    OneFinishes(s.phase, t.phase, ks, slot);
    assert SlotView(t.phase, ks) == SlotView(s.phase, ks);
  }

  // --- All steps, all schedules ---

  lemma PickInv(c: Config, s: State, at: (nat, bool))
    requires Valid(c) && Sized(c, s) && Inv(c, s)
    ensures Inv(c, Pick(c, s, at))
  {
    var (i, fault) := at;
    if i < |c.nodes| {
      match s.phase[i]
      case Waiting =>
      case Finished(_) =>
      case Stopped =>
      case Spawned => SpawnedStep(c, s, i, fault);
      case Running => RunningStep(c, s, i, fault);
      case Holding(_) => HoldingStep(c, s, i, fault);
      case Built(_) => BuiltStep(c, s, i, fault);
      case Written(_) =>
        if c.nodes[i].parent.None? {
          RootStep(c, s, i, fault);
        } else {
          RegisterStep(c, s, i, fault);
        }
      case Registered(_) => ReleaseStep(c, s, i, fault);
      case Failing(_) => FailingStep(c, s, i, fault);
      case Aborting => FailingStep(c, s, i, fault);
    }
  }

  /** The protocol invariant holds in every state of every run. */
  lemma {:induction false} RunInv(c: Config, sched: Schedule)
    requires Valid(c)
    ensures Inv(c, Exec(c, sched))
    decreases |sched|
  {
    if sched == [] {
      InitInv(c);
    } else {
      RunInv(c, sched[..|sched| - 1]);
      PickInv(c, Exec(c, sched[..|sched| - 1]), sched[|sched| - 1]);
    }
  }
}
