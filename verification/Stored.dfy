/** What a finished run leaves in the file: the whole chunk tree, readable from the root. */
module Stored {
  import opened Wrappers
  import opened Bytes
  import opened Format
  import opened FileHeader
  import opened Jobs
  import opened Trees
  import opened Graph
  import opened Shape
  import opened Protocol
  import opened Invariant
  import opened Steps
  import opened Runs

  /** The chunk `n` of the file carries the payload of `t`, and its children table leads,
      in order, to chunks that carry the children of `t`. Children end before `n` starts,
      so following references always moves towards the front of the file. */
  ghost predicate StoredAt(f: File, h: Hash, n: ChunkNode, t: Tree)
    decreases t
  {
    && Execute(h, t.job).Ok?
    && ReadRaw(f, n) == Execute(h, t.job)
    && n.childCount == |t.children| < U32
    && forall k :: 0 <= k < |t.children| ==>
         && ChildAt(f, n, k).Ok?
         && ChildAt(f, n, k).value.offset + ChildAt(f, n, k).value.length <= n.offset
         && StoredAt(f, h, ChildAt(f, n, k).value, t.children[k])
  }

  // --- One node ---

  /** What `Pack` yields can be unpacked with the compressor named in the meta byte. */
  lemma PackUndone(c: Config, f: File, n: ChunkNode, i: nat)
    requires RegistryOk(c.reg) && f.reg == c.reg && i < |c.nodes| && Pack(c, i).Ok?
    requires n.offset <= n.payloadEnd <= |f.data| && f.data[n.offset..n.payloadEnd] == Pack(c, i).value.0
    requires CompressionMethod(n.meta) == Pack(c, i).value.1
    ensures Execute(c.hash, c.nodes[i].job).Ok? && ReadRaw(f, n) == Execute(c.hash, c.nodes[i].job)
  {
    var payload := Execute(c.hash, c.nodes[i].job).value;
    var comp := Select(c, c.nodes[i].cid).value;
    SelectedIsRegistered(c, c.nodes[i].cid);
    assert Lossless(comp);
    assert comp.decompress(comp.compress(payload).value) == Some(payload);
  }

  lemma SelectedIsRegistered(c: Config, cid: nat)
    requires RegistryOk(c.reg) && Select(c, cid).Ok?
    ensures var comp := Select(c, cid).value; comp.id < 8 && Lookup(c.reg, comp.id) == Ok(comp) && Lossless(comp)
  {
  }

  lemma PackedId(c: Config, i: nat)
    requires RegistryOk(c.reg) && i < |c.nodes| && Pack(c, i).Ok?
    ensures Pack(c, i).value.1 < 8
  {
    SelectedIsRegistered(c, c.nodes[i].cid);
  }

  function FinishedRef(s: State, i: nat): ChildRef
    requires i < |s.phase| && s.phase[i].Finished?
  {
    s.phase[i].ref
  }

  lemma {:induction false} CollectRefs(s: State, ks: seq<nat>)
    requires Ids(ks, |s.phase|) && AllFinished(s)
    ensures var got := Collect(SlotView(s.phase, ks));
      got.Ok? && |got.value| == |ks| && forall k :: 0 <= k < |ks| ==> got.value[k] == FinishedRef(s, ks[k])
  {
    CollectFull(SlotView(s.phase, ks));
  }

  /** The file contains the run's output at its front, and is small enough to address. */
  ghost predicate Holds(c: Config, s: State, f: File) {
    s.out <= f.data && |f.data| < U64 && f.reg == c.reg && RegistryOk(c.reg) && |c.nodes| <= U32
  }

  ghost predicate Complete(c: Config, s: State) {
    Valid(c) && Sized(c, s) && Inv(c, s) && AllFinished(s)
  }

  /** A finished node's extent parses to its payload and its children's extents. */
  lemma NodeReadable(c: Config, s: State, f: File, i: nat) returns (n: ChunkNode)
    requires Complete(c, s) && Holds(c, s, f) && i < |c.nodes| && |c.kids[i]| < U32
    ensures GetChunk(f, FinishedRef(s, i).offset, FinishedRef(s, i).length) == Ok(n)
    ensures n.offset == FinishedRef(s, i).offset && n.length == FinishedRef(s, i).length
    ensures Execute(c.hash, c.nodes[i].job).Ok? && ReadRaw(f, n) == Execute(c.hash, c.nodes[i].job)
    ensures n.childCount == |c.kids[i]|
    ensures Ids(c.kids[i], |s.phase|)
    ensures forall k :: 0 <= k < |c.kids[i]| ==> RefAt(f, n, k) == Ok(FinishedRef(s, c.kids[i][k]))
    ensures forall k :: 0 <= k < |c.kids[i]| ==>
              FinishedRef(s, c.kids[i][k]).offset + FinishedRef(s, c.kids[i][k]).length <= n.offset
  {
    var r := FinishedRef(s, i);
    assert NodeInv(c, s, i);
    CollectRefs(s, c.kids[i]);
    var refs := Collect(SlotView(s.phase, c.kids[i])).value;
    var (packed, id) := Pack(c, i).value;
    FramedInFile(s.out, f, r, packed, refs, id);
    n := FramedNode(c, f, i, r.offset, packed, refs, id);
    forall k | 0 <= k < |c.kids[i]|
      ensures RefAt(f, n, k) == Ok(FinishedRef(s, c.kids[i][k]))
      ensures FinishedRef(s, c.kids[i][k]).offset + FinishedRef(s, c.kids[i][k]).length <= n.offset
    {
      assert NodeInv(c, s, c.kids[i][k]);
      assert EndsBefore(s, c.kids[i][k], r.offset);
      FramedRefAt(f, n, packed, refs, id, k);
    }
  }

  lemma FramedNode(
    c: Config, f: File, i: nat, offset: nat, packed: bytes, refs: seq<ChildRef>, id: nat) returns (n: ChunkNode)
    requires RegistryOk(c.reg) && f.reg == c.reg && i < |c.nodes| && Pack(c, i) == Ok((packed, id))
    requires FramedAt(f, offset, packed, refs, id) && |f.data| < U64 && |refs| < U32
    ensures n == NodeOf(offset, packed, refs, id)
    ensures GetChunk(f, offset, |Frame(packed, refs, id)|) == Ok(n)
    ensures Execute(c.hash, c.nodes[i].job).Ok? && ReadRaw(f, n) == Execute(c.hash, c.nodes[i].job)
  {
    FrameRoundTrip(f, offset, packed, refs, id);
    n := NodeOf(offset, packed, refs, id);
    PackedId(c, i);
    MetaRoundTrip(refs != [], id);
    PackUndone(c, f, n, i);
  }

  lemma FramedInFile(out: bytes, f: File, r: ChildRef, packed: bytes, refs: seq<ChildRef>, id: nat)
    requires out <= f.data && r.offset + r.length <= |out|
    requires out[r.offset..r.offset + r.length] == Frame(packed, refs, id)
    ensures FramedAt(f, r.offset, packed, refs, id) && r.length == |Frame(packed, refs, id)|
  {
    assert f.data[r.offset..r.offset + r.length] == out[r.offset..r.offset + r.length];
  }

  // --- The whole tree ---

  lemma {:induction false} CountBelowSize(ts: seq<Tree>)
    ensures |ts| <= SizeAll(ts)
  {
    if ts != [] {
      CountBelowSize(ts[1..]);
    }
  }

  lemma {:induction false} TreeStored(
    c: Config, s: State, f: File, t: Tree, at: nat, parent: Option<nat>, slot: Option<nat>)
    requires Complete(c, s) && Holds(c, s, f) && Placed(c.nodes, c.kids, t, at, parent, slot)
    ensures GetChunk(f, FinishedRef(s, at).offset, FinishedRef(s, at).length).Ok?
    ensures StoredAt(f, c.hash, GetChunk(f, FinishedRef(s, at).offset, FinishedRef(s, at).length).value, t)
    decreases t
  {
    PlacedHead(c.nodes, c.kids, t, at, parent, slot);
    CountBelowSize(t.children);
    var n := NodeReadable(c, s, f, at);
    forall k | 0 <= k < |t.children|
      ensures KidStored(f, c.hash, n, k, t.children[k])
    {
      PlacedChild(c.nodes, c.kids, t.children, at + 1, at, 0, k, k);
      TreeStored(c, s, f, t.children[k], c.kids[at][k], Some(at), Some(k));
      GetChunkExtent(f, FinishedRef(s, c.kids[at][k]));
    }
    AllKidsStored(f, c.hash, n, t);
  }

  /** The `k`-th child of `n` ends before `n` starts and carries `t`. */
  ghost predicate KidStored(f: File, h: Hash, n: ChunkNode, k: nat, t: Tree) {
    && ChildAt(f, n, k).Ok?
    && ChildAt(f, n, k).value.offset + ChildAt(f, n, k).value.length <= n.offset
    && StoredAt(f, h, ChildAt(f, n, k).value, t)
  }

  lemma AllKidsStored(f: File, h: Hash, n: ChunkNode, t: Tree)
    requires Execute(h, t.job).Ok? && ReadRaw(f, n) == Execute(h, t.job) && n.childCount == |t.children| < U32
    requires forall k :: 0 <= k < |t.children| ==> KidStored(f, h, n, k, t.children[k])
    ensures StoredAt(f, h, n, t)
  {
    forall k | 0 <= k < |t.children|
      ensures ChildAt(f, n, k).Ok?
      ensures ChildAt(f, n, k).value.offset + ChildAt(f, n, k).value.length <= n.offset
      ensures StoredAt(f, h, ChildAt(f, n, k).value, t.children[k])
    {
      assert KidStored(f, h, n, k, t.children[k]);
    }
  }

  lemma GetChunkExtent(f: File, r: ChildRef)
    requires GetChunk(f, r.offset, r.length).Ok?
    ensures GetChunk(f, r.offset, r.length).value.offset == r.offset
    ensures GetChunk(f, r.offset, r.length).value.length == r.length
  {
  }

  // --- A written file ---

  /** The executor's configuration for the graph that `visit` builds for `t`. */
  function ConfigFor(t: Tree, reg: Registry, useCompression: bool, fallback: bool, h: Hash): (c: Config)
    ensures Valid(c)
  {
    GraphShape(t);
    Config(Flatten(t, 0, None, None), Kids(t, 0), reg, useCompression, fallback, h)
  }

  /** `write`: the run's output followed by the global header. */
  function FileBytes(s: State): bytes
    requires s.root.Some?
  {
    s.out + Header(s.root.value)
  }

  /** The file opens, and its root chunk carries the tree `t`. */
  ghost predicate FileHolds(data: bytes, reg: Registry, h: Hash, t: Tree) {
    var file := Open(data, reg);
    file.Ok? && RootNode(file.value).Ok? && StoredAt(file.value, h, RootNode(file.value).value, t)
  }

  /** Any run that ends without error produces a file that opens and whose root chunk
      carries the whole tree, whatever order the workers appended in. */
  lemma RunIsReadable(t: Tree, c: Config, sched: Schedule)
    requires c == ConfigFor(t, c.reg, c.useCompression, c.fallback, c.hash)
    requires RegistryOk(c.reg) && Size(t) <= U32
    requires Quiescent(c, Exec(c, sched)) && Outcome(Exec(c, sched)).Ok?
    requires |Exec(c, sched).out| + HEADER_SIZE < U64
    ensures Exec(c, sched).root.Some? && FileHolds(FileBytes(Exec(c, sched)), c.reg, c.hash, t)
  {
    RunInv(c, sched);
    RunOutcome(c, sched);
    GraphShape(t);
    StateIsReadable(t, c, Exec(c, sched));
  }

  lemma StateIsReadable(t: Tree, c: Config, s: State)
    requires Complete(c, s) && s.root.Some? && Placed(c.nodes, c.kids, t, 0, None, None)
    requires RegistryOk(c.reg) && |c.nodes| <= U32 && |s.out| + HEADER_SIZE < U64
    ensures FileHolds(FileBytes(s), c.reg, c.hash, t)
  {
    var r := s.root.value;
    assert NodeInv(c, s, 0);
    OpenRoundTrip(s.out, r, c.reg);
    TreeStored(c, s, File(FileBytes(s), r, c.reg), t, 0, None, None);
  }
}
