/** The chunks of a written file account for every byte. */
module Accounting {
  import opened Wrappers
  import opened Format
  import opened Trees
  import opened Graph
  import opened Shape
  import opened Protocol
  import opened Invariant
  import opened Steps
  import opened Runs
  import opened Stored
  import opened Inspector

  // --- The output of a run ---

  /** Bytes appended by the nodes with these phases. */
  function Appended(phase: seq<Phase>): nat {
    if phase == [] then 0 else Share(phase[0]) + Appended(phase[1..])
  }

  lemma {:induction false} AppendedConcat(a: seq<Phase>, b: seq<Phase>)
    ensures Appended(a + b) == Appended(a) + Appended(b)
  {
    if a == [] {
      assert a + b == b;
    } else {
      assert (a + b)[1..] == a[1..] + b;
      AppendedConcat(a[1..], b);
    }
  }

  function Share(p: Phase): nat {
    if RefOf(p).Some? then RefOf(p).value.length else 0
  }

  lemma {:induction false} AppendedUpdate(a: seq<Phase>, i: nat, q: Phase)
    requires i < |a|
    ensures Appended(a[i := q]) == Appended(a) - Share(a[i]) + Share(q)
  {
    if i == 0 {
      assert a[0 := q][1..] == a[1..];
    } else {
      assert a[i := q][1..] == a[1..][i - 1 := q];
      AppendedUpdate(a[1..], i - 1, q);
    }
  }

  /** At every moment of every run the output is as long as the chunks appended so far. */
  lemma {:induction false} OutputAccounted(c: Config, sched: Schedule)
    requires Valid(c)
    ensures Appended(Exec(c, sched).phase) == |Exec(c, sched).out|
    decreases |sched|
  {
    if sched == [] {
      NothingAppended(Init(c).phase);
    } else {
      var init := sched[..|sched| - 1];
      OutputAccounted(c, init);
      RunInv(c, init);
      StepAccounted(c, Exec(c, init), sched[|sched| - 1].0, sched[|sched| - 1].1);
    }
  }

  lemma {:induction false} NothingAppended(a: seq<Phase>)
    requires forall i :: 0 <= i < |a| ==> RefOf(a[i]).None?
    ensures Appended(a) == 0
  {
    if a != [] {
      NothingAppended(a[1..]);
    }
  }

  lemma StepAccounted(c: Config, s: State, i: nat, fault: bool)
    requires Valid(c) && Sized(c, s) && Inv(c, s) && Appended(s.phase) == |s.out|
    ensures Appended(Protocol.Pick(c, s, (i, fault)).phase) == |Protocol.Pick(c, s, (i, fault)).out|
  {
    if i < |c.nodes| {
      if s.phase[i].Registered? {
        ReleaseAccounted(c, s, i, fault);
      } else {
        OwnAccounted(c, s, i, fault);
      }
    }
  }

  lemma ReleaseAccounted(c: Config, s: State, i: nat, fault: bool)
    requires Valid(c) && Sized(c, s) && Inv(c, s) && i < |c.nodes| && s.phase[i].Registered?
    ensures Appended(Protocol.Pick(c, s, (i, fault)).phase) == Appended(s.phase)
    ensures Protocol.Pick(c, s, (i, fault)).out == s.out
  {
    assert NodeInv(c, s, i);
    ParentWaits(c, s, i);
    AppendedUpdate(s.phase, i, Finished(s.phase[i].ref));
    AppendedUpdate(s.phase[i := Finished(s.phase[i].ref)], c.nodes[i].parent.value, Spawned);
  }

  lemma OwnAccounted(c: Config, s: State, i: nat, fault: bool)
    requires Valid(c) && Sized(c, s) && Inv(c, s) && i < |c.nodes| && !s.phase[i].Registered?
    requires Appended(s.phase) == |s.out|
    ensures Appended(Protocol.Pick(c, s, (i, fault)).phase) == |Protocol.Pick(c, s, (i, fault)).out|
  {
    assert i > 0 ==> ParentOk(c.nodes, c.kids, i);
    if s.phase[i].Written? && c.nodes[i].parent.Some? {
      RegisterAccounted(c, s, i, fault);
    } else if Next(c, s, i, fault).Some? {
      OwnPhase(c, s, i, fault);
      AppendedUpdate(s.phase, i, Next(c, s, i, fault).value.phase[i]);
      OwnShare(c, s, i, fault);
    }
  }

  lemma RegisterAccounted(c: Config, s: State, i: nat, fault: bool)
    requires Valid(c) && Sized(c, s) && Inv(c, s) && i < |c.nodes| && s.phase[i].Written? && c.nodes[i].parent.Some?
    ensures Appended(Protocol.Pick(c, s, (i, fault)).phase) == Appended(s.phase)
    ensures Protocol.Pick(c, s, (i, fault)).out == s.out
  {
    assert i > 0 ==> ParentOk(c.nodes, c.kids, i);
    RegisterStep(c, s, i, fault);
    AppendedUpdate(s.phase, i, Registered(s.phase[i].ref));
  }

  lemma OwnShare(c: Config, s: State, i: nat, fault: bool)
    requires Sized(c, s) && i < |c.nodes| && !s.phase[i].Registered?
    requires c.nodes[i].parent.Some? ==> c.nodes[i].parent.value < |c.nodes| && c.nodes[i].parentSlot.Some?
    requires s.phase[i].Written? ==> c.nodes[i].parent.None?
    requires Next(c, s, i, fault).Some?
    ensures var t := Next(c, s, i, fault).value; |t.out| == |s.out| - Share(s.phase[i]) + Share(t.phase[i])
  {
  }

  /** The chunk of node `at`, as a node of the file. */
  function NodeAt(s: State, f: File, at: nat): Result<ChunkNode>
    requires at < |s.phase| && s.phase[at].Finished?
  {
    GetChunk(f, FinishedRef(s, at).offset, FinishedRef(s, at).length)
  }

  /** The children of `n`, from the `i`-th on, are the nodes `ids`, all in front of `n`. */
  ghost predicate KidsAre(s: State, f: File, n: ChunkNode, i: nat, ids: seq<nat>) {
    && i + |ids| == n.childCount
    && forall k :: 0 <= k < |ids| ==> KidIs(s, f, n, i + k, ids[k])
  }

  ghost predicate KidIs(s: State, f: File, n: ChunkNode, i: nat, id: nat) {
    && id < |s.phase| && s.phase[id].Finished?
    && FinishedRef(s, id).offset < n.offset
    && ChildAt(f, n, i) == NodeAt(s, f, id)
  }

  /** The chunk of node `at` parses, is as long as what the node appended, and leads to the
      chunks of the nodes `ids`. */
  ghost predicate NodeFound(s: State, f: File, at: nat, ids: seq<nat>) {
    && at < |s.phase| && s.phase[at].Finished?
    && NodeAt(s, f, at).Ok?
    && var n := NodeAt(s, f, at).value;
    && n.offset == FinishedRef(s, at).offset <= n.payloadEnd
    && n.length == Share(s.phase[at])
    && KidsAre(s, f, n, 0, ids)
  }

  ghost predicate AllFound(s: State, f: File, kids: seq<seq<nat>>) {
    |s.phase| == |kids| && forall at :: 0 <= at < |kids| ==> NodeFound(s, f, at, kids[at])
  }

  lemma FindAll(c: Config, s: State, f: File)
    requires Complete(c, s) && Holds(c, s, f)
    ensures AllFound(s, f, c.kids)
  {
    forall at | 0 <= at < |c.kids|
      ensures NodeFound(s, f, at, c.kids[at])
    {
      FindNode(c, s, f, at);
    }
  }

  lemma FindNode(c: Config, s: State, f: File, at: nat)
    requires Complete(c, s) && Holds(c, s, f) && at < |c.nodes|
    ensures NodeFound(s, f, at, c.kids[at])
  {
    FewKids(c, at);
    var n := NodeReadable(c, s, f, at);
    GetChunkSafe(f, n.offset, n.length);
    forall k | 0 <= k < |c.kids[at]|
      ensures KidIs(s, f, n, 0 + k, c.kids[at][k])
    {
      assert NodeInv(c, s, c.kids[at][k]);
    }
  }

  /** A node has fewer children than the graph has nodes. */
  lemma FewKids(c: Config, at: nat)
    requires Valid(c) && at < |c.nodes|
    ensures |c.kids[at]| < |c.nodes|
  {
    assert KidsOk(c.nodes, c.kids, at);
    if c.kids[at] != [] {
      var k := |c.kids[at]| - 1;
      Increasing(c, at, k);
      assert KidOk(c.nodes, at, k, c.kids[at][k]);
    }
  }

  lemma {:induction false} Increasing(c: Config, at: nat, k: nat)
    requires Valid(c) && at < |c.nodes| && k < |c.kids[at]|
    ensures c.kids[at][k] > at + k
    decreases k
  {
    assert KidsOk(c.nodes, c.kids, at);
    assert KidOk(c.nodes, at, k, c.kids[at][k]);
    if k > 0 {
      Increasing(c, at, k - 1);
    }
  }

  /** The phases of `k` consecutive nodes. */
  function Phases(s: State, at: nat, k: nat): seq<Phase> {
    if at + k <= |s.phase| then s.phase[at..at + k] else []
  }

  lemma SplitPhases(s: State, at: nat, a: nat, b: nat)
    requires at + a + b <= |s.phase|
    ensures Phases(s, at, a + b) == Phases(s, at, a) + Phases(s, at + a, b)
    ensures a == 1 ==> Phases(s, at, a) == [s.phase[at]]
  {
  }

  // --- A tree of chunks in a file ---

  /** The chunk `n` is the one that node `at` appended, and below it are, in order, those of
      the nodes of its subtree `t`, each in front of its parent. */
  ghost predicate Shows(s: State, f: File, n: ChunkNode, t: Tree, at: nat)
    decreases t
  {
    && at < |s.phase| && n.offset <= n.payloadEnd && n.length == Share(s.phase[at])
    && KidsShow(s, f, n, t.children, at + 1, 0)
  }

  ghost predicate KidsShow(s: State, f: File, n: ChunkNode, ts: seq<Tree>, at: nat, i: nat)
    decreases ts
  {
    if ts == [] then i == n.childCount
    else
      && i < n.childCount && ChildAt(f, n, i).Ok?
      && ChildAt(f, n, i).value.offset < n.offset
      && Shows(s, f, ChildAt(f, n, i).value, ts[0], at)
      && KidsShow(s, f, n, ts[1..], at + Size(ts[0]), i + 1)
  }

  lemma {:induction false} ShowPlaced(
    ns: seq<Node>, kids: seq<seq<nat>>, s: State, f: File, t: Tree, at: nat, parent: Option<nat>, slot: Option<nat>)
    requires AllFound(s, f, kids) && Placed(ns, kids, t, at, parent, slot) && s.phase[at].Finished?
    ensures NodeAt(s, f, at).Ok? && Shows(s, f, NodeAt(s, f, at).value, t, at)
    ensures NodeAt(s, f, at).value.offset == FinishedRef(s, at).offset
    decreases t
  {
    PlacedHead(ns, kids, t, at, parent, slot);
    assert NodeFound(s, f, at, kids[at]);
    ShowForest(ns, kids, s, f, t.children, at + 1, at, 0, NodeAt(s, f, at).value, 0);
  }

  lemma {:induction false} ShowForest(
    ns: seq<Node>, kids: seq<seq<nat>>, s: State, f: File, ts: seq<Tree>,
    at: nat, p: nat, slot: nat, n: ChunkNode, i: nat)
    requires AllFound(s, f, kids) && PlacedAll(ns, kids, ts, at, p, slot)
    requires KidsAre(s, f, n, i, ChildIds(ts, at))
    ensures KidsShow(s, f, n, ts, at, i)
    decreases ts
  {
    if ts != [] {
      PlacedFirst(ns, kids, ts, at, p, slot);
      KidsAreCons(s, f, n, i, at, ChildIds(ts[1..], at + Size(ts[0])));
      ShowPlaced(ns, kids, s, f, ts[0], at, Some(p), Some(slot));
      ShowForest(ns, kids, s, f, ts[1..], at + Size(ts[0]), p, slot + 1, n, i + 1);
    }
  }

  lemma KidsAreCons(s: State, f: File, n: ChunkNode, i: nat, id: nat, ids: seq<nat>)
    requires KidsAre(s, f, n, i, [id] + ids)
    ensures KidIs(s, f, n, i, id) && KidsAre(s, f, n, i + 1, ids)
  {
    assert KidIs(s, f, n, i + 0, ([id] + ids)[0]);
    forall k | 0 <= k < |ids|
      ensures KidIs(s, f, n, i + 1 + k, ids[k])
    {
      assert KidIs(s, f, n, i + (k + 1), ([id] + ids)[k + 1]);
    }
  }

  // --- Inspecting it ---

  /** The report on a node, given the reports on its children. */
  function InfoOf(n: ChunkNode, infos: seq<ChunkInfo>): ChunkInfo
    requires n.offset <= n.payloadEnd
  {
    ChunkInfo(n.offset, n.length, n.payloadEnd - n.offset, n.childCount,
      CompressionMethod(n.meta), IsChunkable(n.meta), infos)
  }

  predicate Reports(f: File, n: ChunkNode, fuel: nat, info: ChunkInfo) {
    Inspect(f, n, fuel) == Ok(info)
  }

  /** The reports on the children of `n` from the `i`-th on. */
  predicate ReportsFrom(f: File, n: ChunkNode, i: nat, fuel: nat, infos: seq<ChunkInfo>) {
    && i <= n.childCount && ChildrenFrom(f, n, i).Ok?
    && InspectAll(f, ChildrenFrom(f, n, i).value, fuel) == Ok(infos)
  }

  lemma FirstShown(s: State, f: File, n: ChunkNode, ts: seq<Tree>, at: nat, i: nat)
    returns (child: ChunkNode, j: nat, next: nat)
    requires ts != [] && i <= n.childCount && KidsShow(s, f, n, ts, at, i)
    ensures ChildAt(f, n, i) == Ok(child) && child.offset < n.offset && Shows(s, f, child, ts[0], at)
    ensures j == i + 1 <= n.childCount && next == at + Size(ts[0]) && KidsShow(s, f, n, ts[1..], next, j)
    ensures SizeAll(ts) == Size(ts[0]) + SizeAll(ts[1..])
  {
    child, j, next := ChildAt(f, n, i).value, i + 1, at + Size(ts[0]);
  }

  /** Inspecting a subtree reports exactly the bytes its nodes appended. */
  lemma {:induction false} InspectShown(s: State, f: File, n: ChunkNode, t: Tree, at: nat, fuel: nat)
    returns (info: ChunkInfo, total: nat)
    requires Shows(s, f, n, t, at) && at + Size(t) <= |s.phase| && fuel > n.offset
    ensures Reports(f, n, fuel, info)
    ensures TotalLength(info) == total && total == Appended(Phases(s, at, Size(t)))
    decreases t
  {
    var less := fuel - 1;
    var infos, below := InspectKids(s, f, n, t.children, at + 1, 0, less);
    info, total := InfoOf(n, infos), n.length + below;
    InspectFrom(f, n, infos, fuel, less);
    AppendedNode(s, at, SizeAll(t.children));
  }

  lemma {:induction false} InspectKids(s: State, f: File, n: ChunkNode, ts: seq<Tree>, at: nat, i: nat, fuel: nat)
    returns (infos: seq<ChunkInfo>, total: nat)
    requires i <= n.childCount && KidsShow(s, f, n, ts, at, i) && at + SizeAll(ts) <= |s.phase| && fuel >= n.offset
    ensures ReportsFrom(f, n, i, fuel, infos)
    ensures TotalLengths(infos) == total && total == Appended(Phases(s, at, SizeAll(ts)))
    decreases ts
  {
    if ts == [] {
      infos, total := [], 0;
    } else {
      var child, j, next := FirstShown(s, f, n, ts, at, i);
      var first, a := InspectShown(s, f, child, ts[0], at, fuel);
      var rest, b := InspectKids(s, f, n, ts[1..], next, j, fuel);
      infos, total := [first] + rest, a + b;
      InspectCons(f, n, i, j, child, first, rest, fuel);
      TotalForest(s, at, next, Size(ts[0]), SizeAll(ts[1..]), SizeAll(ts), first, rest);
    }
  }

  lemma InspectFrom(f: File, n: ChunkNode, infos: seq<ChunkInfo>, fuel: nat, less: nat)
    requires fuel == less + 1 && n.offset <= n.payloadEnd
    requires ReportsFrom(f, n, 0, less, infos)
    ensures Reports(f, n, fuel, InfoOf(n, infos))
  {
  }

  lemma InspectCons(
    f: File, n: ChunkNode, i: nat, j: nat, child: ChunkNode, first: ChunkInfo, rest: seq<ChunkInfo>, fuel: nat)
    requires j == i + 1 && i < n.childCount && ChildAt(f, n, i) == Ok(child) && Reports(f, child, fuel, first)
    requires ReportsFrom(f, n, j, fuel, rest)
    ensures ReportsFrom(f, n, i, fuel, [first] + rest)
  {
    assert ChildrenFrom(f, n, i).value[1..] == ChildrenFrom(f, n, i + 1).value;
  }

  lemma AppendedNode(s: State, at: nat, below: nat)
    requires at + 1 + below <= |s.phase|
    ensures Appended(Phases(s, at, 1 + below)) == Share(s.phase[at]) + Appended(Phases(s, at + 1, below))
  {
    SplitPhases(s, at, 1, below);
    assert ([s.phase[at]] + Phases(s, at + 1, below))[1..] == Phases(s, at + 1, below);
  }

  lemma AppendedForest(s: State, at: nat, first: nat, rest: nat)
    requires at + first + rest <= |s.phase|
    ensures Appended(Phases(s, at, first + rest))
      == Appended(Phases(s, at, first)) + Appended(Phases(s, at + first, rest))
  {
    SplitPhases(s, at, first, rest);
    AppendedConcat(Phases(s, at, first), Phases(s, at + first, rest));
  }

  lemma TotalForest(
    s: State, at: nat, next: nat, a: nat, b: nat, both: nat, first: ChunkInfo, rest: seq<ChunkInfo>)
    requires next == at + a && next + b <= |s.phase| && both == a + b
    requires TotalLength(first) == Appended(Phases(s, at, a)) && TotalLengths(rest) == Appended(Phases(s, next, b))
    ensures TotalLengths([first] + rest) == Appended(Phases(s, at, both))
  {
    AppendedForest(s, at, a, b);
    assert ([first] + rest)[1..] == rest;
  }
}
