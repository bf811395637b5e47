/** Which compressor every chunk of a written file was made with. */
module Compression {
  import opened Wrappers
  import opened Bytes
  import opened Format
  import opened Values
  import opened Jobs
  import opened Trees
  import opened Protocol
  import opened Invariant
  import opened Runs
  import opened Stored
  import opened EndToEnd
  import opened Configuration
  import Accounting

  // --- The choice ---

  /** `id` is the compressor for a node that asks for `cid`: with compression on, 0 asks for
      1; an id the registry does not have gives way to 0 in the serial executor alone. */
  ghost predicate Chosen(c: Config, cid: nat, id: nat) {
    var wanted := if c.useCompression && cid == 0 then 1 else cid;
    if wanted < |c.reg| && c.reg[wanted].Some? then id == wanted
    else c.fallback && id == 0 && 0 < |c.reg| && c.reg[0].Some?
  }

  /** A node's own work succeeds exactly if its payload can be serialised, a compressor can be
      chosen, and that one accepts the payload; the result is its output, under its id. */
  lemma PackExact(c: Config, i: nat, packed: bytes, id: nat)
    requires RegistryOk(c.reg) && i < |c.nodes|
    ensures Pack(c, i) == Ok((packed, id)) <==>
              && Execute(c.hash, c.nodes[i].job).Ok?
              && Chosen(c, c.nodes[i].cid, id)
              && c.reg[id].value.compress(Execute(c.hash, c.nodes[i].job).value) == Some(packed)
  {
  }

  /** Its errors, in the order in which they are found. */
  lemma PackFails(c: Config, i: nat, id: nat)
    requires RegistryOk(c.reg) && i < |c.nodes|
    ensures var payload, cid := Execute(c.hash, c.nodes[i].job), c.nodes[i].cid;
      && (payload.Err? ==> Pack(c, i) == Err(payload.error))
      && (payload.Ok? && (forall x: nat :: !Chosen(c, cid, x)) ==> Pack(c, i) == Err(NotRegistered))
      && (payload.Ok? && Chosen(c, cid, id) && c.reg[id].value.compress(payload.value).None? ==>
            Pack(c, i) == Err(CompressionFailed))
  {
    if Select(c, c.nodes[i].cid).Ok? {
      assert Chosen(c, c.nodes[i].cid, Select(c, c.nodes[i].cid).value.id);
    }
  }

  // --- In the file ---

  /** The chunk `n` names the compressor chosen for node `i`, and its payload bytes are what
      that compressor made of the node's serialised job. */
  ghost predicate CompressedAs(c: Config, f: File, n: ChunkNode, i: nat)
    requires i < |c.nodes|
  {
    var id, payload := CompressionMethod(n.meta), Execute(c.hash, c.nodes[i].job);
    && Chosen(c, c.nodes[i].cid, id)
    && payload.Ok? && id < |c.reg| && c.reg[id].Some?
    && n.offset <= n.payloadEnd <= |f.data|
    && c.reg[id].value.compress(payload.value) == Some(f.data[n.offset..n.payloadEnd])
  }

  /** Every finished node of a run without an error. */
  lemma NodeCompressed(c: Config, s: State, f: File, i: nat) returns (n: ChunkNode)
    requires Complete(c, s) && Holds(c, s, f) && i < |c.nodes|
    ensures GetChunk(f, FinishedRef(s, i).offset, FinishedRef(s, i).length) == Ok(n)
    ensures CompressedAs(c, f, n, i)
  {
    Accounting.FewKids(c, i);
    assert NodeInv(c, s, i);
    CollectRefs(s, c.kids[i]);
    var refs := Collect(SlotView(s.phase, c.kids[i])).value;
    var (packed, id) := Pack(c, i).value;
    FramedInFile(s.out, f, FinishedRef(s, i), packed, refs, id);
    n := FramedCompressed(c, f, i, FinishedRef(s, i).offset, packed, refs, id);
  }

  lemma FramedCompressed(
    c: Config, f: File, i: nat, offset: nat, packed: bytes, refs: seq<ChildRef>, id: nat) returns (n: ChunkNode)
    requires RegistryOk(c.reg) && i < |c.nodes| && Pack(c, i) == Ok((packed, id))
    requires FramedAt(f, offset, packed, refs, id) && |f.data| < U64 && |refs| < U32
    ensures GetChunk(f, offset, |Frame(packed, refs, id)|) == Ok(n) && CompressedAs(c, f, n, i)
  {
    FrameRoundTrip(f, offset, packed, refs, id);
    n := NodeOf(offset, packed, refs, id);
    PackedId(c, i);
    MetaRoundTrip(refs != [], id);
    PackExact(c, i, packed, id);
  }

  /** Every chunk of a written file was made with the compressor its node asked for, the root
      having asked for 0, and every other node for what its place under its parent prescribes. */
  lemma FileCompressed(w: Options, o: Obj, sched: Schedule, i: nat) returns (n: ChunkNode)
    requires OptionsOk(w) && Succeeds(w, o, sched) && i < Size(RootTree(w, o))
    ensures AllFinished(Exec(Setup(w, o), sched))
    ensures var r := FinishedRef(Exec(Setup(w, o), sched), i);
      GetChunk(Reopened(w, o, sched), r.offset, r.length) == Ok(n)
    ensures CompressedAs(Setup(w, o), Reopened(w, o, sched), n, i)
    ensures if i == 0 then Setup(w, o).nodes[0].cid == 0 else NodeConfigured(Setup(w, o).nodes, i)
  {
    RunIsComplete(w, o, sched);
    n := NodeCompressed(Setup(w, o), Exec(Setup(w, o), sched), Reopened(w, o, sched), i);
    GraphConfigured(w.env, o, NO_CONFIG, i);
  }

  /** So the shards of a vector or map are compressed exactly as their container is. */
  lemma ShardsLikeContainer(c: Config, f: File, p: nat, i: nat, container: ChunkNode, shard: ChunkNode)
    requires p < |c.nodes| && i < |c.nodes| && NodeConfigured(c.nodes, i) && c.nodes[i].parent == Some(p)
    requires c.nodes[p].job.VecContainerJob? || c.nodes[p].job.MapContainerJob?
    requires CompressedAs(c, f, container, p) && CompressedAs(c, f, shard, i)
    ensures CompressionMethod(shard.meta) == CompressionMethod(container.meta)
  {
  }
}
