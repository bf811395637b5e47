/** Looking one key up in a hash-sharded map. */
module MapLookup {
  import opened Wrappers
  import opened Bytes
  import opened Format
  import opened Values
  import opened Bincode
  import opened Jobs
  import opened Trees
  import opened Stored
  import opened Reader
  import opened Loadable
  import opened MapFormat
  import opened EncodingBounds
  import opened Buckets
  import opened MapBack
  import Iteration
  import ReadBack

  // --- The scan of one shard ---

  /** The bytes of a candidate entry; nothing about the payload is taken for granted. */
  function Candidate(p: bytes, count: nat, i: nat): Result<bytes> {
    var at := 8 + count * 8 + i * 4;
    if at + 4 > |p| then Err(BadFormat)
    else
      var from := DataStart(count) + FromLE(p[at..at + 4]);
      if from > |p| then Err(BadFormat) else Ok(p[from..])
  }

  function HashAt(p: bytes, i: nat): nat
    requires 8 + i * 8 + 8 <= |p|
  {
    FromLE(p[8 + i * 8..8 + i * 8 + 8])
  }

  /** Entries from `i` on: the first one with this hash and this key. */
  function Scan(
    defs: Defs, k: LeafTy, v: Ty, p: bytes, count: nat, hash: nat, key: Leaf, i: nat, fuel: nat)
    : Result<Option<Value>>
    requires i <= count && 8 + count * 8 <= |p|
    decreases count - i
  {
    if i == count then Ok(None)
    else if HashAt(p, i) != hash then Scan(defs, k, v, p, count, hash, key, i + 1, fuel)
    else
      var data :- Candidate(p, count, i);
      var (stored, val, _) :- DecPair(defs, k, v, data, fuel);
      if stored == key then Ok(Some(val)) else Scan(defs, k, v, p, count, hash, key, i + 1, fuel)
  }

  method ScanShard(
    defs: Defs, k: LeafTy, v: Ty, p: bytes, count: nat, hash: nat, key: Leaf, fuel: nat)
    returns (r: Result<Option<Value>>)
    requires 8 + count * 8 <= |p|
    ensures r == Scan(defs, k, v, p, count, hash, key, 0, fuel)
  {
    for i := 0 to count
      invariant Scan(defs, k, v, p, count, hash, key, 0, fuel) == Scan(defs, k, v, p, count, hash, key, i, fuel)
    {
      if HashAt(p, i) == hash {
        var data := Candidate(p, count, i);
        if data.Err? {
          return Err(data.error);
        }
        var pair := DecPair(defs, k, v, data.value, fuel);
        if pair.Err? {
          return Err(pair.error);
        }
        if pair.value.0 == key {
          return Ok(Some(pair.value.1));
        }
      }
    }
    return Ok(None);
  }

  // --- Finding the shard ---

  /** The payload and node of the shard a key belongs to; `None` for a map without one. The
      writer never stores fewer than four bytes, not even for an empty map. */
  function ShardFor(f: File, h: Hash, n: ChunkNode, key: Leaf): Result<Option<(ChunkNode, bytes)>> {
    var payload :- ReadRaw(f, n);
    if |payload| < 4 then Ok(None)
    else
      var shards := FromLE(payload[..4]);
      if shards == 0 then Err(DivideByZero)
      else
        var shard :- ChildAt(f, n, h(key) % shards);
        var p :- ReadRaw(f, shard);
        if |p| < 8 then Ok(None) else Ok(Some((shard, p)))
  }

  function GetValue(
    f: File, h: Hash, defs: Defs, k: LeafTy, v: Ty, n: ChunkNode, key: Leaf, fuel: nat)
    : Result<Option<Value>>
  {
    var found :- ShardFor(f, h, n, key);
    if found.None? then Ok(None)
    else
      var p := found.value.1;
      var count := FromLE(p[..4]);
      if 8 + count * 8 > |p| then Err(BadFormat) else Scan(defs, k, v, p, count, h(key), key, 0, fuel)
  }

  /** `ParcodeMapPromise::get`. */
  method Get(
    f: File, h: Hash, defs: Defs, k: LeafTy, v: Ty, n: ChunkNode, key: Leaf, fuel: nat)
    returns (r: Result<Option<Value>>)
    ensures r == GetValue(f, h, defs, k, v, n, key, fuel)
  {
    var found := ShardFor(f, h, n, key);
    if found.Err? {
      return Err(found.error);
    }
    if found.value.None? {
      return Ok(None);
    }
    var p := found.value.value.1;
    var count := FromLE(p[..4]);
    if 8 + count * 8 > |p| {
      return Err(BadFormat);
    }
    r := ScanShard(defs, k, v, p, count, h(key), key, fuel);
  }

  // --- Lookup in a stored map ---

  /** The node `n` of the file holds the sharded map with these entries. */
  ghost predicate MapStored(
    f: File, h: Hash, defs: Defs, k: LeafTy, ty: Ty, n: ChunkNode, ks: seq<Leaf>, vs: seq<Obj>,
    forests: seq<seq<Tree>>, cid: nat, fuel: nat)
  {
    && Entries(defs, k, ty, ks, vs, fuel) && |forests| == |ks| && Distinct(ks)
    && StoredAt(f, h, n, MapTree(h, ks, vs, forests, cid))
  }

  function BucketOf(h: Hash, ks: seq<Leaf>, key: Leaf): nat
    requires ks != []
  {
    h(key) % NumShards(|ks|)
  }

  /** The keys and the values of the bucket of `key`. */
  function BucketKeys(h: Hash, ks: seq<Leaf>, key: Leaf): seq<Leaf>
    requires ks != []
  {
    Pick(h, NumShards(|ks|), BucketOf(h, ks, key), ks, ks)
  }

  function BucketVals<T>(h: Hash, ks: seq<Leaf>, vs: seq<T>, key: Leaf): seq<T>
    requires ks != [] && |ks| == |vs|
  {
    Pick(h, NumShards(|ks|), BucketOf(h, ks, key), ks, vs)
  }

  lemma {:induction false} MapShardsAt(
    h: Hash, ks: seq<Leaf>, vs: seq<Obj>, forests: seq<seq<Tree>>, n: nat, b: nat, cid: nat, i: nat)
    requires |ks| == |vs| == |forests| && b + i < n
    ensures MapShards(h, ks, vs, forests, n, b, cid)[i] == MapShard(h, ks, vs, forests, n, b + i, cid)
    decreases i
  {
    if i > 0 {
      MapShardsAt(h, ks, vs, forests, n, b + 1, cid, i - 1);
    }
  }

  /** The shard that a lookup opens is the bucket the writer put the key into. */
  lemma ShardFound(
    f: File, h: Hash, defs: Defs, k: LeafTy, ty: Ty, n: ChunkNode, ks: seq<Leaf>, vs: seq<Obj>,
    forests: seq<seq<Tree>>, cid: nat, fuel: nat, key: Leaf)
    requires MapStored(f, h, defs, k, ty, n, ks, vs, forests, cid, fuel) && ks != []
    ensures |BucketKeys(h, ks, key)| == |BucketVals(h, ks, vs, key)| == |BucketVals(h, ks, forests, key)|
    ensures Entries(defs, k, ty, BucketKeys(h, ks, key), BucketVals(h, ks, vs, key), fuel)
    ensures ChildAt(f, n, BucketOf(h, ks, key)).Ok?
    ensures var shard, p := ChildAt(f, n, BucketOf(h, ks, key)).value,
      MapShardBytes(h, BucketKeys(h, ks, key), BucketVals(h, ks, vs, key));
      && StoredAt(f, h, shard, MapShard(h, ks, vs, forests, NumShards(|ks|), BucketOf(h, ks, key), cid))
      && p.Ok? && ReadRaw(f, shard) == p
      && ShardFor(f, h, n, key) == Ok(if |p.value| < 8 then None else Some((shard, p.value)))
  {
    BucketStored(f, h, defs, k, ty, n, ks, vs, forests, cid, fuel, BucketOf(h, ks, key));
    CountStored(f, h, n, ks, vs, forests, cid);
    PickLength(h, NumShards(|ks|), BucketOf(h, ks, key), ks, ks, forests);
    ShardForIs(f, h, n, key, NumShards(|ks|), ReadRaw(f, ChildAt(f, n, BucketOf(h, ks, key)).value).value);
  }

  lemma CountStored(f: File, h: Hash, n: ChunkNode, ks: seq<Leaf>, vs: seq<Obj>, forests: seq<seq<Tree>>, cid: nat)
    requires 0 < |ks| == |vs| == |forests| && StoredAt(f, h, n, MapTree(h, ks, vs, forests, cid))
    ensures ReadRaw(f, n).Ok? && |ReadRaw(f, n).value| == 4 && FromLE(ReadRaw(f, n).value[..4]) == NumShards(|ks|)
  {
    MapTreeOpen(f, h, n, ks, vs, forests, cid);
    Widths();
    FromLERoundTrip(NumShards(|ks|), 4);
    assert LE(NumShards(|ks|), 4)[..4] == LE(NumShards(|ks|), 4);
  }

  /** A stored map has one bucket for each full 2000 entries, but at least one and at most
      1024; a key is looked up in the one its hash chooses among all of them. */
  lemma BucketCount(
    f: File, h: Hash, defs: Defs, k: LeafTy, ty: Ty, n: ChunkNode, ks: seq<Leaf>, vs: seq<Obj>,
    forests: seq<seq<Tree>>, cid: nat, fuel: nat, m: nat, key: Leaf)
    requires MapStored(f, h, defs, k, ty, n, ks, vs, forests, cid, fuel) && ks != []
    ensures |ks| < 4000 ==> n.childCount == 1
    ensures 1 < m < 1024 ==> (n.childCount == m <==> m * 2000 <= |ks| < (m + 1) * 2000)
    ensures |ks| >= 2048000 ==> n.childCount == 1024
    ensures n.childCount > 0 && ChildAt(f, n, h(key) % n.childCount).Ok?
    ensures ShardFor(f, h, n, key).Ok?
    ensures ShardFor(f, h, n, key).value.Some? ==>
              ShardFor(f, h, n, key).value.value.0 == ChildAt(f, n, h(key) % n.childCount).value
  {
    MapTreeOpen(f, h, n, ks, vs, forests, cid);
    NumShardsExact(|ks|, m);
    ShardFound(f, h, defs, k, ty, n, ks, vs, forests, cid, fuel, key);
  }

  lemma BucketStored(
    f: File, h: Hash, defs: Defs, k: LeafTy, ty: Ty, n: ChunkNode, ks: seq<Leaf>, vs: seq<Obj>,
    forests: seq<seq<Tree>>, cid: nat, fuel: nat, b: nat)
    requires MapStored(f, h, defs, k, ty, n, ks, vs, forests, cid, fuel) && b < NumShards(|ks|)
    ensures ChildAt(f, n, b).Ok?
    ensures StoredAt(f, h, ChildAt(f, n, b).value, MapShard(h, ks, vs, forests, NumShards(|ks|), b, cid))
    ensures |Pick(h, NumShards(|ks|), b, ks, ks)| == |Pick(h, NumShards(|ks|), b, ks, vs)|
    ensures Entries(defs, k, ty, Pick(h, NumShards(|ks|), b, ks, ks), Pick(h, NumShards(|ks|), b, ks, vs), fuel)
    ensures var p := MapShardBytes(h, Pick(h, NumShards(|ks|), b, ks, ks), Pick(h, NumShards(|ks|), b, ks, vs));
      p.Ok? && ReadRaw(f, ChildAt(f, n, b).value) == p
  {
    MapShardsAt(h, ks, vs, forests, NumShards(|ks|), 0, cid, b);
    Iteration.StoredKid(f, h, n, MapTree(h, ks, vs, forests, cid), b);
    EntriesPicked(defs, k, ty, h, NumShards(|ks|), b, ks, vs, fuel);
    BucketBack(f, h, defs, k, ty, ks, vs, forests, NumShards(|ks|), b, cid, ChildAt(f, n, b).value, fuel);
  }

  lemma ShardForIs(f: File, h: Hash, n: ChunkNode, key: Leaf, shards: nat, p: bytes)
    requires ReadRaw(f, n).Ok? && |ReadRaw(f, n).value| == 4 && FromLE(ReadRaw(f, n).value[..4]) == shards > 0
    requires ChildAt(f, n, h(key) % shards).Ok? && ReadRaw(f, ChildAt(f, n, h(key) % shards).value) == Ok(p)
    ensures ShardFor(f, h, n, key) == Ok(if |p| < 8 then None else Some((ChildAt(f, n, h(key) % shards).value, p)))
  {
  }

  // --- The scan of a written shard ---

  /** The value next to a key. */
  function Find<T>(ks: seq<Leaf>, xs: seq<T>, key: Leaf): Option<T>
    requires |ks| == |xs|
  {
    if ks == [] then None else if ks[0] == key then Some(xs[0]) else Find(ks[1..], xs[1..], key)
  }

  lemma CandidateStored(h: Hash, ks: seq<Leaf>, vs: seq<Obj>, p: bytes, i: nat)
    requires IsShard(h, ks, vs, p) && i < |ks|
    ensures Candidate(p, |ks|, i) == Ok(EntryBytes(ks[i], vs[i]) + Blob(ks[i + 1..], vs[i + 1..]))
  {
    var at, from := 8 + |ks| * 8 + i * 4, DataStart(|ks|) + EntryPos(ks, vs, i);
    ShardEntryAt(h, ks, vs, p, i, at, from);
    CandidateAt(p, |ks|, i, at, from, EntryBytes(ks[i], vs[i]) + Blob(ks[i + 1..], vs[i + 1..]));
  }

  lemma CandidateAt(p: bytes, count: nat, i: nat, at: nat, from: nat, data: bytes)
    requires at == 8 + count * 8 + i * 4 && EntryAt(p, count, at, from, data)
    ensures Candidate(p, count, i) == Ok(data)
  {
  }

  /** Entry `j` has the key's hash if it has the key, and decodes to its key and value. */
  ghost predicate EntryRight(
    defs: Defs, k: LeafTy, v: Ty, p: bytes, ks: seq<Leaf>, vals: seq<Value>, hash: nat, key: Leaf, j: nat, fuel: nat)
    requires j < |ks| == |vals| && 8 + |ks| * 8 <= |p|
  {
    && (ks[j] == key ==> HashAt(p, j) == hash)
    && Candidate(p, |ks|, j).Ok?
    && var d := DecPair(defs, k, v, Candidate(p, |ks|, j).value, fuel);
       d.Ok? && d.value.0 == ks[j] && d.value.1 == vals[j]
  }

  /** Colliding hashes are told apart by the stored key, and the key's own entry always has
      its hash: so the scan finds exactly the key. */
  lemma {:induction false} ScanFinds(
    defs: Defs, k: LeafTy, v: Ty, p: bytes, ks: seq<Leaf>, vals: seq<Value>, hash: nat, key: Leaf, i: nat, fuel: nat)
    requires i <= |ks| == |vals| && 8 + |ks| * 8 <= |p|
    requires forall j :: 0 <= j < |ks| ==> EntryRight(defs, k, v, p, ks, vals, hash, key, j, fuel)
    ensures Scan(defs, k, v, p, |ks|, hash, key, i, fuel) == Ok(Find(ks[i..], vals[i..], key))
    decreases |ks| - i
  {
    if i < |ks| {
      ScanFinds(defs, k, v, p, ks, vals, hash, key, i + 1, fuel);
      assert EntryRight(defs, k, v, p, ks, vals, hash, key, i, fuel);
      ScanStep(defs, k, v, p, |ks|, hash, key, i, fuel, ks[i], vals[i]);
      FindStep(ks, vals, key, i);
    }
  }

  lemma ScanStep(
    defs: Defs, k: LeafTy, v: Ty, p: bytes, count: nat, hash: nat, key: Leaf,
    i: nat, fuel: nat, stored: Leaf, val: Value)
    requires i < count && 8 + count * 8 <= |p|
    requires stored == key ==> HashAt(p, i) == hash
    requires Candidate(p, count, i).Ok?
    requires var d := DecPair(defs, k, v, Candidate(p, count, i).value, fuel);
      d.Ok? && d.value.0 == stored && d.value.1 == val
    ensures Scan(defs, k, v, p, count, hash, key, i, fuel)
         == if stored == key then Ok(Some(val)) else Scan(defs, k, v, p, count, hash, key, i + 1, fuel)
  {
  }

  lemma FindStep<T>(ks: seq<Leaf>, xs: seq<T>, key: Leaf, i: nat)
    requires i < |ks| == |xs|
    ensures Find(ks[i..], xs[i..], key) == if ks[i] == key then Some(xs[i]) else Find(ks[i + 1..], xs[i + 1..], key)
  {
    DropNext(ks, i);
    DropNext(xs, i);
  }

  /** With self-contained values every entry of a written shard is as it should be. */
  lemma EntryStored(
    h: Hash, defs: Defs, k: LeafTy, ty: Ty, ks: seq<Leaf>, vs: seq<Obj>, p: bytes, key: Leaf, j: nat, fuel: nat)
    requires IsShard(h, ks, vs, p) && Entries(defs, k, ty, ks, vs, fuel) && j < |ks| && SelfContained(vs)
    requires 8 + |ks| * 8 <= |p|
    ensures EntryRight(defs, k, ty, p, ks, ValuesOf(vs), h(key), key, j, fuel)
  {
    ShardHash(h, ks, vs, p, j);
    CandidateStored(h, ks, vs, p, j);
    EntryBack(defs, k, ty, ks[j], vs[j], Blob(ks[j + 1..], vs[j + 1..]), fuel);
    ValuesAt(vs, j);
  }

  // --- Lookup is the map's own lookup ---

  lemma {:induction false} FindPair<T>(ks: seq<Leaf>, xs: seq<T>, key: Leaf, x: T)
    requires |ks| == |xs| && Distinct(ks)
    ensures Find(ks, xs, key) == Some(x) <==> PairIn(ks, xs, key, x)
    decreases |ks|
  {
    if ks != [] {
      FindPair(ks[1..], xs[1..], key, x);
      assert [ks[0]] + ks[1..] == ks && [xs[0]] + xs[1..] == xs;
      PairInAppend([ks[0]], [xs[0]], ks[1..], xs[1..], key, x);
      assert PairIn([ks[0]], [xs[0]], key, x) <==> ks[0] == key && xs[0] == x by {
        assert [ks[0]][0] == ks[0];
      }
      assert ks[0] == key ==> !PairIn(ks[1..], xs[1..], key, x);
    }
  }

  /** Looking a key up in its bucket is looking it up in the whole map. */
  lemma FindInBucket<T>(h: Hash, ks: seq<Leaf>, xs: seq<T>, key: Leaf)
    requires 0 < |ks| == |xs| && Distinct(ks)
    ensures |BucketKeys(h, ks, key)| == |BucketVals(h, ks, xs, key)|
    ensures Find(BucketKeys(h, ks, key), BucketVals(h, ks, xs, key), key) == Find(ks, xs, key)
  {
    var bk, bx := BucketKeys(h, ks, key), BucketVals(h, ks, xs, key);
    PickLength(h, NumShards(|ks|), BucketOf(h, ks, key), ks, ks, xs);
    PickDistinct(h, NumShards(|ks|), BucketOf(h, ks, key), ks);
    forall x: T
      ensures Find(bk, bx, key) == Some(x) <==> Find(ks, xs, key) == Some(x)
    {
      PickPairs(h, NumShards(|ks|), BucketOf(h, ks, key), ks, xs, key, x);
      FindPair(bk, bx, key, x);
      FindPair(ks, xs, key, x);
    }
  }

  /** What a hash map built from the pairs answers. */
  function MapGet(ks: seq<Leaf>, vs: seq<Value>, key: Leaf): Option<Value> {
    var m := InsertAll(map[], ks, vs);
    if key in m then Some(m[key]) else None
  }

  lemma FindIsGet(ks: seq<Leaf>, vs: seq<Value>, key: Leaf)
    requires |ks| == |vs| && Distinct(ks)
    ensures Find(ks, vs, key) == MapGet(ks, vs, key)
  {
    var m := InsertAll(map[], ks, vs);
    if key in m {
      InsertSource(map[], ks, vs, key);
      FindPair(ks, vs, key, m[key]);
    } else if Find(ks, vs, key).Some? {
      var x := Find(ks, vs, key).value;
      FindPair(ks, vs, key, x);
      var j :| 0 <= j < |ks| && ks[j] == key && vs[j] == x;
      InsertGet(map[], ks, vs, j);
    }
  }

  lemma BucketSelfContained(h: Hash, ks: seq<Leaf>, vs: seq<Obj>, key: Leaf)
    requires 0 < |ks| == |vs| && SelfContained(vs)
    ensures SelfContained(BucketVals(h, ks, vs, key))
  {
    var bk, bv := BucketKeys(h, ks, key), BucketVals(h, ks, vs, key);
    PickLength(h, NumShards(|ks|), BucketOf(h, ks, key), ks, ks, vs);
    forall i | 0 <= i < |bv|
      ensures |Shallow(bv[i])| == |Enc(bv[i])|
    {
      PickPairs(h, NumShards(|ks|), BucketOf(h, ks, key), ks, vs, bk[i], bv[i]);
      assert PairIn(bk, bv, bk[i], bv[i]);
    }
  }

  /** The size of a written shard tells whether it is empty. */
  lemma ShardSize(h: Hash, ks: seq<Leaf>, vs: seq<Obj>)
    requires |ks| == |vs| && MapShardBytes(h, ks, vs).Ok?
    ensures |MapShardBytes(h, ks, vs).value| < 8 <==> ks == []
    ensures ks != [] ==> IsShard(h, ks, vs, MapShardBytes(h, ks, vs).value)
  {
    if ks != [] {
      ShardHeader(h, ks, vs, MapShardBytes(h, ks, vs).value);
    }
  }

  lemma GetIsFind(
    f: File, h: Hash, defs: Defs, k: LeafTy, ty: Ty, n: ChunkNode, ks: seq<Leaf>, vs: seq<Obj>,
    forests: seq<seq<Tree>>, cid: nat, fuel: nat, key: Leaf)
    requires MapStored(f, h, defs, k, ty, n, ks, vs, forests, cid, fuel) && ks != [] && SelfContained(vs)
    ensures |BucketKeys(h, ks, key)| == |BucketVals(h, ks, vs, key)|
    ensures GetValue(f, h, defs, k, ty, n, key, fuel)
      == Ok(Find(BucketKeys(h, ks, key), ValuesOf(BucketVals(h, ks, vs, key)), key))
  {
    ShardFound(f, h, defs, k, ty, n, ks, vs, forests, cid, fuel, key);
    BucketSelfContained(h, ks, vs, key);
    GetInShard(f, h, defs, k, ty, n, BucketKeys(h, ks, key), BucketVals(h, ks, vs, key),
      ChildAt(f, n, BucketOf(h, ks, key)).value, fuel, key);
  }

  lemma GetInShard(
    f: File, h: Hash, defs: Defs, k: LeafTy, ty: Ty, n: ChunkNode, bk: seq<Leaf>,
    bv: seq<Obj>, shard: ChunkNode, fuel: nat, key: Leaf)
    requires Entries(defs, k, ty, bk, bv, fuel) && SelfContained(bv)
    requires var p := MapShardBytes(h, bk, bv);
      p.Ok? && ShardFor(f, h, n, key) == Ok(if |p.value| < 8 then None else Some((shard, p.value)))
    ensures GetValue(f, h, defs, k, ty, n, key, fuel) == Ok(Find(bk, ValuesOf(bv), key))
  {
    ShardSize(h, bk, bv);
    if bk != [] {
      ScanWhole(h, defs, k, ty, bk, bv, MapShardBytes(h, bk, bv).value, key, fuel);
      GetIsScan(f, h, defs, k, ty, n, shard, MapShardBytes(h, bk, bv).value, |bk|, key, fuel);
    }
  }

  lemma GetIsScan(
    f: File, h: Hash, defs: Defs, k: LeafTy, v: Ty, n: ChunkNode,
    shard: ChunkNode, p: bytes, count: nat, key: Leaf, fuel: nat)
    requires ShardFor(f, h, n, key) == Ok(Some((shard, p))) && FromLE(p[..4]) == count && 8 + count * 8 <= |p|
    ensures GetValue(f, h, defs, k, v, n, key, fuel) == Scan(defs, k, v, p, count, h(key), key, 0, fuel)
  {
  }

  lemma ScanWhole(h: Hash, defs: Defs, k: LeafTy, ty: Ty, ks: seq<Leaf>, vs: seq<Obj>, p: bytes, key: Leaf, fuel: nat)
    requires IsShard(h, ks, vs, p) && Entries(defs, k, ty, ks, vs, fuel) && SelfContained(vs)
    ensures FromLE(p[..4]) == |ks| && 8 + |ks| * 8 <= |p|
    ensures Scan(defs, k, ty, p, |ks|, h(key), key, 0, fuel) == Ok(Find(ks, ValuesOf(vs), key))
  {
    ShardHeader(h, ks, vs, p);
    forall j | 0 <= j < |ks|
      ensures EntryRight(defs, k, ty, p, ks, ValuesOf(vs), h(key), key, j, fuel)
    {
      EntryStored(h, defs, k, ty, ks, vs, p, key, j, fuel);
    }
    ScanFinds(defs, k, ty, p, ks, ValuesOf(vs), h(key), key, 0, fuel);
    assert ks[0..] == ks && ValuesOf(vs)[0..] == ValuesOf(vs);
  }

  /** For every hash function, iteration order and key: `get` on a stored, non-empty map
      with self-contained values answers what the map itself answers. */
  lemma GetStored(
    f: File, h: Hash, defs: Defs, k: LeafTy, ty: Ty, n: ChunkNode, ks: seq<Leaf>, vs: seq<Obj>,
    forests: seq<seq<Tree>>, cid: nat, fuel: nat, key: Leaf)
    requires MapStored(f, h, defs, k, ty, n, ks, vs, forests, cid, fuel) && ks != [] && SelfContained(vs)
    ensures GetValue(f, h, defs, k, ty, n, key, fuel) == Ok(MapGet(ks, ValuesOf(vs), key))
  {
    GetIsFind(f, h, defs, k, ty, n, ks, vs, forests, cid, fuel, key);
    ValuesPicked(h, NumShards(|ks|), BucketOf(h, ks, key), ks, vs);
    FindInBucket(h, ks, ValuesOf(vs), key);
    FindIsGet(ks, ValuesOf(vs), key);
  }

  /** On an empty map `get` divides by zero, for every key: its four zero bytes pass for a
      container of zero shards. */
  lemma GetOnEmpty(
    f: File, env: Env, o: Obj, at: Attr, defs: Defs, k: LeafTy, ty: Ty, n: ChunkNode, key: Leaf, fuel: nat)
    requires env.cpus >= 1 && o.OMap? && o.keys == [] && o.vals == [] && StoredAt(f, env.hash, n, TreeOf(env, o, at))
    ensures GetValue(f, env.hash, defs, k, ty, n, key, fuel) == Err(DivideByZero)
  {
    EmptyShardFor(f, env, o, at, n, key);
  }

  lemma EmptyShardFor(f: File, env: Env, o: Obj, at: Attr, n: ChunkNode, key: Leaf)
    requires env.cpus >= 1 && o.OMap? && o.keys == [] && o.vals == [] && StoredAt(f, env.hash, n, TreeOf(env, o, at))
    ensures ShardFor(f, env.hash, n, key) == Err(DivideByZero)
  {
    ReadBack.EmptyPayload(f, env, n, o, at);
    Widths();
    FromLERoundTrip(0, 4);
    assert LE(0, 4)[..4] == LE(0, 4);
  }

  // --- Values with remote fields ---

  /** Entry `j` does not decode to the wanted value under the key. */
  ghost predicate EntryWrong(
    defs: Defs, k: LeafTy, v: Ty, p: bytes, count: nat, key: Leaf, wanted: Value, j: nat, fuel: nat) {
    && Candidate(p, count, j).Ok?
    && var d := DecPair(defs, k, v, Candidate(p, count, j).value, fuel);
       d.Ok? && d.value.0 == key ==> d.value.1 != wanted
  }

  lemma {:induction false} ScanMisses(
    defs: Defs, k: LeafTy, v: Ty, p: bytes, count: nat, hash: nat, key: Leaf, wanted: Value, i: nat, fuel: nat)
    requires i <= count && 8 + count * 8 <= |p|
    requires forall j :: 0 <= j < count ==> EntryWrong(defs, k, v, p, count, key, wanted, j, fuel)
    ensures Scan(defs, k, v, p, count, hash, key, i, fuel) != Ok(Some(wanted))
    decreases count - i
  {
    if i < count {
      assert EntryWrong(defs, k, v, p, count, key, wanted, i, fuel);
      ScanMisses(defs, k, v, p, count, hash, key, wanted, i + 1, fuel);
    }
  }

  /** If something was left out of the last value of a shard, its key is never answered
      with the right value. */
  lemma EntryMisses(
    h: Hash, defs: Defs, k: LeafTy, ty: Ty, ks: seq<Leaf>, vs: seq<Obj>, p: bytes, j: nat, key: Leaf, o: Obj, fuel: nat)
    requires IsShard(h, ks, vs, p) && Entries(defs, k, ty, ks, vs, fuel) && j < |ks| && Distinct(ks)
    requires key == ks[|ks| - 1] && o == vs[|ks| - 1] && |Shallow(o)| != |Enc(o)|
    ensures EntryWrong(defs, k, ty, p, |ks|, key, ValueOf(o), j, fuel)
  {
    CandidateStored(h, ks, vs, p, j);
    EntryBack(defs, k, ty, ks[j], vs[j], Blob(ks[j + 1..], vs[j + 1..]), fuel);
  }

  lemma LastEntryMissed(
    h: Hash, defs: Defs, k: LeafTy, ty: Ty, ks: seq<Leaf>, vs: seq<Obj>, p: bytes, key: Leaf, o: Obj, fuel: nat)
    requires IsShard(h, ks, vs, p) && Entries(defs, k, ty, ks, vs, fuel) && Distinct(ks)
    requires key == ks[|ks| - 1] && o == vs[|ks| - 1] && |Shallow(o)| != |Enc(o)|
    ensures FromLE(p[..4]) == |ks| && 8 + |ks| * 8 <= |p|
    ensures Scan(defs, k, ty, p, |ks|, h(key), key, 0, fuel) != Ok(Some(ValueOf(o)))
  {
    ShardHeader(h, ks, vs, p);
    forall j | 0 <= j < |ks|
      ensures EntryWrong(defs, k, ty, p, |ks|, key, ValueOf(o), j, fuel)
    {
      EntryMisses(h, defs, k, ty, ks, vs, p, j, key, o, fuel);
    }
    ScanMisses(defs, k, ty, p, |ks|, h(key), key, ValueOf(o), 0, fuel);
  }

  lemma LastKeyMissed(
    f: File, h: Hash, defs: Defs, k: LeafTy, ty: Ty, n: ChunkNode, ks: seq<Leaf>, vs: seq<Obj>,
    forests: seq<seq<Tree>>, cid: nat, fuel: nat) returns (key: Leaf)
    requires MapStored(f, h, defs, k, ty, n, ks, vs, forests, cid, fuel) && ks != [] && !SelfContained(vs)
    ensures key in ks
    ensures GetValue(f, h, defs, k, ty, n, key, fuel) != Ok(MapGet(ks, ValuesOf(vs), key))
  {
    var bk, bv := BucketKeys(h, ks, ks[0]), BucketVals(h, ks, vs, ks[0]);
    PickPairs(h, NumShards(|ks|), BucketOf(h, ks, ks[0]), ks, vs, ks[0], vs[0]);
    assert PairIn(ks, vs, ks[0], vs[0]);
    key := bk[|bk| - 1];
    PickPairs(h, NumShards(|ks|), BucketOf(h, ks, ks[0]), ks, vs, key, bv[|bk| - 1]);
    assert PairIn(bk, bv, key, bv[|bk| - 1]);
    assert BucketOf(h, ks, key) == BucketOf(h, ks, ks[0]);
    NotSelfContained(defs, k, ty, ks, vs, bv[|bk| - 1], key, fuel);
    LastMissed(f, h, defs, k, ty, n, ks, vs, forests, cid, fuel, key);
  }

  lemma NotSelfContained(defs: Defs, k: LeafTy, ty: Ty, ks: seq<Leaf>, vs: seq<Obj>, o: Obj, key: Leaf, fuel: nat)
    requires Entries(defs, k, ty, ks, vs, fuel) && !SelfContained(vs) && PairIn(ks, vs, key, o)
    ensures |Shallow(o)| != |Enc(o)|
  {
    var i :| 0 <= i < |vs| && |Shallow(vs[i])| != |Enc(vs[i])|;
    SavedByType(defs, vs[i], o, ty);
  }

  lemma LastMissed(
    f: File, h: Hash, defs: Defs, k: LeafTy, ty: Ty, n: ChunkNode, ks: seq<Leaf>, vs: seq<Obj>,
    forests: seq<seq<Tree>>, cid: nat, fuel: nat, key: Leaf)
    requires MapStored(f, h, defs, k, ty, n, ks, vs, forests, cid, fuel) && ks != []
    requires |BucketKeys(h, ks, key)| == |BucketVals(h, ks, vs, key)| > 0
    requires var bk, bv := BucketKeys(h, ks, key), BucketVals(h, ks, vs, key);
      bk[|bk| - 1] == key && |Shallow(bv[|bk| - 1])| != |Enc(bv[|bk| - 1])|
    ensures GetValue(f, h, defs, k, ty, n, key, fuel) != Ok(MapGet(ks, ValuesOf(vs), key))
  {
    var bk, bv := BucketKeys(h, ks, key), BucketVals(h, ks, vs, key);
    ShardFound(f, h, defs, k, ty, n, ks, vs, forests, cid, fuel, key);
    ShardSize(h, bk, bv);
    PickDistinct(h, NumShards(|ks|), BucketOf(h, ks, key), ks);
    LastEntryMissed(h, defs, k, ty, bk, bv, MapShardBytes(h, bk, bv).value, key, bv[|bk| - 1], fuel);
    LastAnswer(h, ks, vs, key, bk, bv);
  }

  /** What the map answers for the last key of a bucket. */
  lemma LastAnswer(h: Hash, ks: seq<Leaf>, vs: seq<Obj>, key: Leaf, bk: seq<Leaf>, bv: seq<Obj>)
    requires 0 < |ks| == |vs| && Distinct(ks) && Distinct(bk)
    requires bk == BucketKeys(h, ks, key) && bv == BucketVals(h, ks, vs, key)
    requires 0 < |bk| == |bv| && bk[|bk| - 1] == key
    ensures MapGet(ks, ValuesOf(vs), key) == Some(ValueOf(bv[|bk| - 1]))
  {
    ValuesPicked(h, NumShards(|ks|), BucketOf(h, ks, key), ks, vs);
    FindInBucket(h, ks, ValuesOf(vs), key);
    FindIsGet(ks, ValuesOf(vs), key);
    ValuesAt(bv, |bk| - 1);
    assert PairIn(bk, ValuesOf(bv), key, ValueOf(bv[|bk| - 1]));
    FindPair(bk, ValuesOf(bv), key, ValueOf(bv[|bk| - 1]));
  }

  /** `get` is right for every key exactly when every value is self-contained: one remote
      field with bytes of its own is enough for some key to be answered wrongly. */
  lemma GetExact(
    f: File, h: Hash, defs: Defs, k: LeafTy, ty: Ty, n: ChunkNode, ks: seq<Leaf>, vs: seq<Obj>,
    forests: seq<seq<Tree>>, cid: nat, fuel: nat)
    requires MapStored(f, h, defs, k, ty, n, ks, vs, forests, cid, fuel) && ks != []
    ensures (forall key :: key in ks ==> GetValue(f, h, defs, k, ty, n, key, fuel) == Ok(MapGet(ks, ValuesOf(vs), key)))
       <==> SelfContained(vs)
  {
    if SelfContained(vs) {
      forall key | key in ks
        ensures GetValue(f, h, defs, k, ty, n, key, fuel) == Ok(MapGet(ks, ValuesOf(vs), key))
      {
        GetStored(f, h, defs, k, ty, n, ks, vs, forests, cid, fuel, key);
      }
    } else {
      var key := LastKeyMissed(f, h, defs, k, ty, n, ks, vs, forests, cid, fuel);
    }
  }
}
