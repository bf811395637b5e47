/** Serialization jobs: what each kind of node writes as its payload. */
module Jobs {
  import opened Wrappers
  import opened Bytes
  import opened Values
  import opened Bincode
  import opened Sharding

  type u64 = x: int | 0 <= x < U64
  type Hash = Leaf -> u64

  datatype Job =
    | StructJob(fields: seq<Obj>, attrs: seq<Option<Attr>>)
    | PrimitiveJob(obj: Obj)
    | VecContainerJob(runs: seq<ShardRun>, total: nat)
    | VecShardJob(items: seq<Obj>)
    | MapContainerJob(shards: nat)
    | MapShardJob(keys: seq<Leaf>, vals: seq<Obj>)
    | PlaceholderJob

  /** The local fields only, in declaration order. */
  function EncLocals(fs: seq<Obj>, attrs: seq<Option<Attr>>): bytes {
    if fs == [] || attrs == [] then []
    else (if attrs[0].None? then Enc(fs[0]) else []) + EncLocals(fs[1..], attrs[1..])
  }

  /** `serialize_shallow`: a struct leaves its chunkable fields out. */
  function Shallow(o: Obj): bytes {
    match o
    case OStruct(fs, attrs) => EncLocals(fs, attrs)
    case _ => Enc(o)
  }

  function ShallowAll(os: seq<Obj>): bytes {
    if os == [] then [] else Shallow(os[0]) + ShallowAll(os[1..])
  }

  function EncRun(r: ShardRun): bytes {
    EncUint(r.itemCount) + EncUint(r.repeat)
  }

  function EncRunList(runs: seq<ShardRun>): bytes {
    if runs == [] then [] else EncRun(runs[0]) + EncRunList(runs[1..])
  }

  function EncRuns(runs: seq<ShardRun>): bytes {
    EncUint(|runs|) + EncRunList(runs)
  }

  // --- The map shard: count, padding, hashes, offsets, data ---

  function EntryBytes(k: Leaf, o: Obj): (bs: bytes)
    ensures |bs| >= 1
  {
    EncLeaf(k) + Shallow(o)
  }

  function HashTable(h: Hash, ks: seq<Leaf>): (bs: bytes)
    ensures |bs| == 8 * |ks|
  {
    if ks == [] then [] else LE(h(ks[0]), 8) + HashTable(h, ks[1..])
  }

  /** Offsets of the entries when the first one starts at `pos`. */
  function OffsetTable(ks: seq<Leaf>, vs: seq<Obj>, pos: nat): (bs: bytes)
    requires |ks| == |vs|
    ensures |bs| == 4 * |ks|
    decreases |ks|
  {
    if ks == [] then []
    else LE(pos, 4) + OffsetTable(ks[1..], vs[1..], pos + |EntryBytes(ks[0], vs[0])|)
  }

  function Blob(ks: seq<Leaf>, vs: seq<Obj>): bytes
    requires |ks| == |vs|
  {
    if ks == [] then [] else EntryBytes(ks[0], vs[0]) + Blob(ks[1..], vs[1..])
  }

  /** Every entry starts below the 4 GB that a `u32` offset reaches. */
  predicate OffsetsFit(ks: seq<Leaf>, vs: seq<Obj>, pos: nat)
    requires |ks| == |vs|
    decreases |ks|
  {
    ks == [] || (pos < U32 && OffsetsFit(ks[1..], vs[1..], pos + |EntryBytes(ks[0], vs[0])|))
  }

  function MapShardBytes(h: Hash, ks: seq<Leaf>, vs: seq<Obj>): Result<bytes>
    requires |ks| == |vs|
  {
    if ks == [] then Ok([])
    else if !OffsetsFit(ks, vs, 0) || |ks| >= U32 then Err(BadEncoding)
    else Ok(Assemble(|ks|, HashTable(h, ks), OffsetTable(ks, vs, 0), Blob(ks, vs)))
  }

  function Assemble(count: nat, hashes: bytes, offsets: bytes, blob: bytes): bytes {
    LE(count, 4) + [0, 0, 0, 0] + hashes + offsets + blob
  }

  /** `SerializationJob::execute`. */
  function Execute(h: Hash, job: Job): Result<bytes> {
    match job
    case StructJob(fs, attrs) => Ok(EncLocals(fs, attrs))
    case PrimitiveJob(o) => Ok(Enc(o))
    case VecContainerJob(runs, total) => Ok(LE(total, 8) + EncRuns(runs))
    case VecShardJob(items) => Ok(EncUint(|items|) + ShallowAll(items))
    case MapContainerJob(n) => Ok(LE(n, 4))
    case MapShardJob(ks, vs) => if |ks| == |vs| then MapShardBytes(h, ks, vs) else Err(BadEncoding)
    case PlaceholderJob => Err(PlaceholderRun)
  }

  // --- The loop that writes a map shard ---

  // Each buffer holds what the first `i` entries contribute to its table.

  ghost predicate HashesDone(h: Hash, ks: seq<Leaf>, i: nat, hashes: bytes)
    requires i <= |ks|
  {
    hashes + HashTable(h, ks[i..]) == HashTable(h, ks)
  }

  ghost predicate OffsetsDone(ks: seq<Leaf>, vs: seq<Obj>, i: nat, offsets: bytes, pos: nat, start: nat)
    requires |ks| == |vs| && i <= |ks|
  {
    && offsets + OffsetTable(ks[i..], vs[i..], pos) == OffsetTable(ks, vs, start)
    && OffsetsFit(ks, vs, start) == OffsetsFit(ks[i..], vs[i..], pos)
  }

  ghost predicate BlobDone(ks: seq<Leaf>, vs: seq<Obj>, i: nat, blob: bytes)
    requires |ks| == |vs| && i <= |ks|
  {
    blob + Blob(ks[i..], vs[i..]) == Blob(ks, vs)
  }

  lemma HashStep(h: Hash, ks: seq<Leaf>, i: nat, hashes: bytes)
    requires i < |ks| && HashesDone(h, ks, i, hashes)
    ensures HashesDone(h, ks, i + 1, hashes + LE(h(ks[i]), 8))
  {
    assert ks[i..][1..] == ks[i + 1..];
    Assoc(hashes, LE(h(ks[i]), 8), HashTable(h, ks[i + 1..]));
  }

  lemma OffsetStep(ks: seq<Leaf>, vs: seq<Obj>, i: nat, offsets: bytes, pos: nat, next: nat, start: nat)
    requires |ks| == |vs| && i < |ks| && OffsetsDone(ks, vs, i, offsets, pos, start) && pos < U32
    requires next == pos + |EntryBytes(ks[i], vs[i])|
    ensures OffsetsDone(ks, vs, i + 1, offsets + LE(pos, 4), next, start)
  {
    DropNext(ks, i);
    DropNext(vs, i);
    OffsetUnfold(ks[i..], vs[i..], pos, next, ks[i + 1..], vs[i + 1..]);
    Assoc(offsets, LE(pos, 4), OffsetTable(ks[i + 1..], vs[i + 1..], next));
  }

  lemma OffsetUnfold(ks: seq<Leaf>, vs: seq<Obj>, pos: nat, next: nat, kt: seq<Leaf>, vt: seq<Obj>)
    requires 0 < |ks| == |vs| && kt == ks[1..] && vt == vs[1..] && next == pos + |EntryBytes(ks[0], vs[0])|
    ensures OffsetTable(ks, vs, pos) == LE(pos, 4) + OffsetTable(kt, vt, next)
    ensures OffsetsFit(ks, vs, pos) == (pos < U32 && OffsetsFit(kt, vt, next))
  {
  }

  lemma BlobStep(ks: seq<Leaf>, vs: seq<Obj>, i: nat, blob: bytes)
    requires |ks| == |vs| && i < |ks| && BlobDone(ks, vs, i, blob)
    ensures BlobDone(ks, vs, i + 1, blob + EntryBytes(ks[i], vs[i]))
  {
    assert ks[i..][1..] == ks[i + 1..] && vs[i..][1..] == vs[i + 1..];
    Assoc(blob, EntryBytes(ks[i], vs[i]), Blob(ks[i + 1..], vs[i + 1..]));
  }

  method ExecuteMapShard(h: Hash, ks: seq<Leaf>, vs: seq<Obj>) returns (r: Result<bytes>)
    requires |ks| == |vs|
    ensures r == MapShardBytes(h, ks, vs)
  {
    var count := |ks|;
    if count == 0 {
      return Ok([]);
    }
    var dataBlob: bytes, offsets: bytes, hashes: bytes := [], [], [];
    for i := 0 to count
      invariant HashesDone(h, ks, i, hashes)
      invariant OffsetsDone(ks, vs, i, offsets, |dataBlob|, 0)
      invariant BlobDone(ks, vs, i, dataBlob)
    {
      var pos := |dataBlob|;
      if pos >= U32 {
        return Err(BadEncoding);
      }
      var next := dataBlob + EntryBytes(ks[i], vs[i]);
      HashStep(h, ks, i, hashes);
      OffsetStep(ks, vs, i, offsets, pos, |next|, 0);
      BlobStep(ks, vs, i, dataBlob);
      hashes := hashes + LE(h(ks[i]), 8);
      offsets := offsets + LE(pos, 4);
      dataBlob := next;
    }
    if count >= U32 {
      return Err(BadEncoding);
    }
    assert hashes + [] == hashes && offsets + [] == offsets && dataBlob + [] == dataBlob;
    r := Ok(Assemble(count, hashes, offsets, dataBlob));
  }
}
