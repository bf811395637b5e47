/** What every step of every run of the executor keeps. */
module Invariant {
  import opened Wrappers
  import opened Bytes
  import opened Format
  import opened Graph
  import opened Shape
  import opened Protocol

  // --- Views of a state ---

  /** The extent a node has appended, if it has. */
  function RefOf(p: Phase): Option<ChildRef> {
    match p
    case Written(r) => Some(r)
    case Registered(r) => Some(r)
    case Finished(r) => Some(r)
    case _ => None
  }

  predicate Delivered(p: Phase) {
    p.Registered? || p.Finished?
  }

  /** What the slots of a node hold: the results its children have delivered. */
  function SlotView(phase: seq<Phase>, ks: seq<nat>): (v: seq<Option<ChildRef>>)
    requires Ids(ks, |phase|)
    ensures |v| == |ks|
  {
    seq(|ks|, k requires 0 <= k < |ks| => if Delivered(phase[ks[k]]) then RefOf(phase[ks[k]]) else None)
  }

  predicate Ids(ks: seq<nat>, n: nat) {
    forall k :: 0 <= k < |ks| ==> ks[k] < n
  }

  /** How many of these children have not finished. */
  function Pending(phase: seq<Phase>, ks: seq<nat>): (n: nat)
    requires Ids(ks, |phase|)
    ensures n <= |ks|
  {
    if ks == [] then 0 else (if phase[ks[0]].Finished? then 0 else 1) + Pending(phase, ks[1..])
  }

  function Extent(out: bytes, r: ChildRef): bytes {
    if r.offset + r.length <= |out| then out[r.offset..r.offset + r.length] else []
  }

  // --- The invariant ---

  /** A node that has appended its chunk: the bytes are the ones it produced from its
      children's results, and each child's extent ends before it begins. */
  ghost predicate WroteOk(c: Config, s: State, i: nat, r: ChildRef)
    requires Valid(c) && Sized(c, s) && i < |c.nodes| && Ids(c.kids[i], |s.phase|)
  {
    && r.offset + r.length <= |s.out|
    && r.length >= 1
    && Produce(c, i, SlotView(s.phase, c.kids[i])) == Ok(Extent(s.out, r))
    && forall k :: 0 <= k < |c.kids[i]| ==> EndsBefore(s, c.kids[i][k], r.offset)
  }

  predicate EndsBefore(s: State, kid: nat, at: nat) {
    kid < |s.phase| && RefOf(s.phase[kid]).Some? &&
    RefOf(s.phase[kid]).value.offset + RefOf(s.phase[kid]).value.length <= at
  }

  /** The counter is the number of unfinished children; the node waits exactly as long as
      it is positive; and what the node holds is what its children delivered. */
  ghost predicate NodeInv(c: Config, s: State, i: nat)
    requires Valid(c) && Sized(c, s) && i < |c.nodes|
  {
    && Ids(c.kids[i], |s.phase|)
    && s.deps[i] == Pending(s.phase, c.kids[i])
    && (s.phase[i].Waiting? <==> s.deps[i] > 0)
    && PhaseInv(c, s, i)
  }

  ghost predicate PhaseInv(c: Config, s: State, i: nat)
    requires Valid(c) && Sized(c, s) && i < |c.nodes| && Ids(c.kids[i], |s.phase|)
  {
    match s.phase[i]
    case Waiting => s.slots[i] == SlotView(s.phase, c.kids[i])
    case Spawned => s.slots[i] == SlotView(s.phase, c.kids[i])
    case Running => s.slots[i] == SlotView(s.phase, c.kids[i])
    case Holding(got) => got == SlotView(s.phase, c.kids[i])
    case Built(buf) => Produce(c, i, SlotView(s.phase, c.kids[i])) == Ok(buf)
    case Written(r) => WroteOk(c, s, i, r)
    case Registered(r) => WroteOk(c, s, i, r) && c.nodes[i].parent.Some?
    case Finished(r) => WroteOk(c, s, i, r)
    case Failing(e) => Legitimate(c, e)
    case Aborting => true
    case Stopped => true
  }

  /** Errors come from a write that failed, or from a node whose own work fails. In
      particular no child result is ever missing and no slot is ever out of bounds. */
  ghost predicate Legitimate(c: Config, e: Error) {
    e == IoFailed || exists i :: 0 <= i < |c.nodes| && Pack(c, i) == Err(e)
  }

  predicate Down(p: Phase) {
    p.Aborting? || p.Stopped?
  }

  ghost predicate SomeDown(phase: seq<Phase>) {
    exists i :: 0 <= i < |phase| && Down(phase[i])
  }

  /** Abort flag, captured error and captured root result. */
  ghost predicate GlobalInv(c: Config, s: State)
    requires Valid(c) && Sized(c, s)
  {
    && (s.error.None? ==> !s.abort && s.lock.None? && forall i :: 0 <= i < |s.phase| ==> !Down(s.phase[i]))
    && (s.error.Some? ==> Legitimate(c, s.error.value) && (s.lock.Some? || s.abort)
                          && SomeDown(s.phase))
    && (s.lock.Some? ==> s.lock.value < |s.phase|)
    && (forall i :: 0 <= i < |s.phase| ==> (s.phase[i].Aborting? <==> s.lock == Some(i)))
    && (s.root.Some? <==> s.phase[0].Finished?)
    && (s.root.Some? ==> s.phase[0] == Finished(s.root.value))
  }

  predicate InExtent(s: State, i: nat, pos: nat) {
    i < |s.phase| && RefOf(s.phase[i]).Some? &&
    RefOf(s.phase[i]).value.offset <= pos < RefOf(s.phase[i]).value.offset + RefOf(s.phase[i]).value.length
  }

  /** Every byte of the output belongs to exactly one appended chunk. */
  ghost predicate Tiled(s: State) {
    && (forall pos: nat :: Covered(s, pos) <==> pos < |s.out|)
    && (forall i: nat, j: nat, pos: nat :: InExtent(s, i, pos) && InExtent(s, j, pos) ==> i == j)
  }

  ghost predicate Covered(s: State, pos: nat) {
    exists i: nat :: InExtent(s, i, pos)
  }

  ghost predicate Inv(c: Config, s: State)
    requires Valid(c) && Sized(c, s)
  {
    && (forall i :: 0 <= i < |c.nodes| ==> NodeInv(c, s, i))
    && GlobalInv(c, s)
    && Tiled(s)
  }

  // --- Facts about views ---

  lemma KidIds(c: Config, i: nat, n: nat)
    requires Valid(c) && i < |c.nodes| == n
    ensures Ids(c.kids[i], n)
    ensures forall k :: 0 <= k < |c.kids[i]| ==> c.kids[i][k] > i
  {
    assert KidsOk(c.nodes, c.kids, i);
    forall k | 0 <= k < |c.kids[i]|
      ensures i < c.kids[i][k] < n
    {
      assert KidOk(c.nodes, i, k, c.kids[i][k]);
    }
  }

  /** A node is a child of its parent only, and only once. */
  lemma OnlyParent(c: Config, i: nat, j: nat, k: nat)
    requires Valid(c) && i < |c.nodes| && j < |c.nodes| && k < |c.kids[j]| && c.kids[j][k] == i
    ensures c.nodes[i].parent == Some(j) && c.nodes[i].parentSlot == Some(k)
  {
    assert KidsOk(c.nodes, c.kids, j);
    assert KidOk(c.nodes, j, k, c.kids[j][k]);
  }

  lemma ParentIds(c: Config, i: nat)
    requires Valid(c) && i < |c.nodes| && c.nodes[i].parent.Some?
    ensures i > 0 && ParentOk(c.nodes, c.kids, i)
  {
    if i > 0 {
      assert ParentOk(c.nodes, c.kids, i);
    }
  }

  /** As far as the parent can tell, nothing happened to this child. */
  predicate Alike(p: Phase, q: Phase) {
    && Delivered(p) == Delivered(q)
    && p.Finished? == q.Finished?
    && (RefOf(p).Some? ==> RefOf(q) == RefOf(p))
  }

  predicate AllAlike(a: seq<Phase>, b: seq<Phase>, ks: seq<nat>)
    requires |a| == |b| && Ids(ks, |a|)
  {
    forall k :: 0 <= k < |ks| ==> Alike(a[ks[k]], b[ks[k]])
  }

  lemma {:induction false} SameViews(a: seq<Phase>, b: seq<Phase>, ks: seq<nat>)
    requires |a| == |b| && Ids(ks, |a|) && AllAlike(a, b, ks)
    ensures SlotView(a, ks) == SlotView(b, ks) && Pending(a, ks) == Pending(b, ks)
  {
    if ks != [] {
      SameViews(a, b, ks[1..]);
    }
  }

  lemma {:induction false} NonePending(a: seq<Phase>, ks: seq<nat>)
    requires Ids(ks, |a|)
    ensures Pending(a, ks) == 0 <==> forall k :: 0 <= k < |ks| ==> a[ks[k]].Finished?
  {
    if ks != [] {
      NonePending(a, ks[1..]);
      if Pending(a, ks) == 0 {
        forall k | 0 <= k < |ks|
          ensures a[ks[k]].Finished?
        {
          if k > 0 {
            assert ks[1..][k - 1] == ks[k];
          }
        }
      } else if Pending(a, ks[1..]) != 0 {
        var k :| 0 <= k < |ks[1..]| && !a[ks[1..][k]].Finished?;
        assert ks[k + 1] == ks[1..][k];
      }
    }
  }

  lemma {:induction false} OneFinishes(a: seq<Phase>, b: seq<Phase>, ks: seq<nat>, at: nat)
    requires |a| == |b| && Ids(ks, |a|) && at < |ks|
    requires !a[ks[at]].Finished? && b[ks[at]].Finished?
    requires forall k :: 0 <= k < |ks| && k != at ==> a[ks[k]].Finished? == b[ks[k]].Finished?
    ensures Pending(b, ks) == Pending(a, ks) - 1
  {
    if at == 0 {
      PendingSame(a, b, ks[1..]);
    } else {
      OneFinishes(a, b, ks[1..], at - 1);
    }
  }

  lemma {:induction false} PendingSame(a: seq<Phase>, b: seq<Phase>, ks: seq<nat>)
    requires |a| == |b| && Ids(ks, |a|)
    requires forall k :: 0 <= k < |ks| ==> a[ks[k]].Finished? == b[ks[k]].Finished?
    ensures Pending(b, ks) == Pending(a, ks)
  {
    if ks != [] {
      PendingSame(a, b, ks[1..]);
    }
  }

  lemma {:induction false} CollectFull(got: seq<Option<ChildRef>>)
    requires forall k :: 0 <= k < |got| ==> got[k].Some?
    ensures Collect(got).Ok?
    ensures forall k :: 0 <= k < |got| ==> Collect(got).value[k] == got[k].value
  {
    if got != [] {
      CollectFull(got[1..]);
    }
  }

  // --- The initial state ---

  lemma {:induction false} AllPending(a: seq<Phase>, ks: seq<nat>)
    requires Ids(ks, |a|) && forall i :: 0 <= i < |a| ==> !a[i].Finished?
    ensures Pending(a, ks) == |ks|
  {
    if ks != [] {
      AllPending(a, ks[1..]);
    }
  }

  lemma InitInv(c: Config)
    requires Valid(c)
    ensures Inv(c, Init(c))
  {
    var s := Init(c);
    forall i | 0 <= i < |c.nodes|
      ensures NodeInv(c, s, i)
    {
      assert KidsOk(c.nodes, c.kids, i);
      KidIds(c, i, |c.nodes|);
      AllPending(s.phase, c.kids[i]);
      assert SlotView(s.phase, c.kids[i]) == Nones(|c.kids[i]|);
    }
  }

  // --- Nodes that a step does not concern ---

  /** If a step leaves a node, its slots and its counter alone, only appends to the output
      and does not visibly change its children, the node's invariant survives. */
  lemma Untouched(c: Config, s: State, t: State, j: nat)
    requires Valid(c) && Sized(c, s) && Sized(c, t) && j < |c.nodes| && NodeInv(c, s, j)
    requires t.phase[j] == s.phase[j] && t.slots[j] == s.slots[j] && t.deps[j] == s.deps[j] && s.out <= t.out
    requires AllAlike(s.phase, t.phase, c.kids[j])
    ensures NodeInv(c, t, j)
  {
    SameViews(s.phase, t.phase, c.kids[j]);
    if RefOf(s.phase[j]).Some? {
      StillWrote(c, s, t, j, RefOf(s.phase[j]).value);
    }
  }

  lemma StillWrote(c: Config, s: State, t: State, j: nat, r: ChildRef)
    requires Valid(c) && Sized(c, s) && Sized(c, t) && j < |c.nodes| && Ids(c.kids[j], |s.phase|)
    requires WroteOk(c, s, j, r) && s.out <= t.out && AllAlike(s.phase, t.phase, c.kids[j])
    ensures WroteOk(c, t, j, r)
  {
    SameViews(s.phase, t.phase, c.kids[j]);
    assert Extent(t.out, r) == Extent(s.out, r);
    forall k | 0 <= k < |c.kids[j]|
      ensures EndsBefore(t, c.kids[j][k], r.offset)
    {
      assert EndsBefore(s, c.kids[j][k], r.offset);
    }
  }
}
