/** What `get` answers in a stored map, whatever its values: only entries whose hash is the
    key's are looked at, in order, and the first one that settles the lookup decides. */
module MapAnswers {
  import opened Wrappers
  import opened Bytes
  import opened Format
  import opened Values
  import opened Bincode
  import opened Jobs
  import opened Trees
  import opened MapFormat
  import opened EncodingBounds
  import opened Buckets
  import opened MapBack
  import opened MapLookup
  import MapLazy

  // --- The scan, on arbitrary bytes ---

  /** What entry `j` decodes to. */
  function Decoded(
    defs: Defs, k: LeafTy, v: Ty, p: bytes, count: nat, j: nat, fuel: nat): Result<(Leaf, Value, bytes)>
  {
    var data :- Candidate(p, count, j);
    DecPair(defs, k, v, data, fuel)
  }

  /** Entry `j` has the hash sought, and either the key sought or bytes that do not decode. */
  ghost predicate Settles(
    defs: Defs, k: LeafTy, v: Ty, p: bytes, count: nat, hash: nat, key: Leaf, j: nat, fuel: nat)
    requires j < count && 8 + count * 8 <= |p|
  {
    && FromLE(p[8 + j * 8..8 + j * 8 + 8]) == hash
    && var d := Decoded(defs, k, v, p, count, j, fuel); d.Err? || d.value.0 == key
  }

  /** The answer that an entry gives once it settles the lookup. */
  function Settled(d: Result<(Leaf, Value, bytes)>): Result<Option<Value>> {
    match d
    case Ok((_, val, _)) => Ok(Some(val))
    case Err(e) => Err(e)
  }

  ghost predicate NoneSettles(
    defs: Defs, k: LeafTy, v: Ty, p: bytes, count: nat, hash: nat, key: Leaf, lo: nat, hi: nat, fuel: nat)
    requires hi <= count && 8 + count * 8 <= |p|
  {
    forall j :: lo <= j < hi ==> !Settles(defs, k, v, p, count, hash, key, j, fuel)
  }

  /** The scan answers what the first settling entry says, and nothing if there is none. An
      entry with another hash is not even decoded. */
  lemma {:induction false} ScanExact(
    defs: Defs, k: LeafTy, v: Ty, p: bytes, count: nat, hash: nat, key: Leaf, i: nat, j: nat, fuel: nat)
    requires i <= j <= count && 8 + count * 8 <= |p|
    requires NoneSettles(defs, k, v, p, count, hash, key, i, j, fuel)
    ensures j == count ==> Scan(defs, k, v, p, count, hash, key, i, fuel) == Ok(None)
    ensures j < count && Settles(defs, k, v, p, count, hash, key, j, fuel) ==>
              Scan(defs, k, v, p, count, hash, key, i, fuel) == Settled(Decoded(defs, k, v, p, count, j, fuel))
    decreases count - i
  {
    if i < j {
      assert !Settles(defs, k, v, p, count, hash, key, i, fuel);
      ScanExact(defs, k, v, p, count, hash, key, i + 1, j, fuel);
    }
  }

  /** Entry `j` has the hash sought, and either the key sought or a key that does not decode. */
  ghost predicate SettlesKey(k: LeafTy, p: bytes, count: nat, hash: nat, key: Leaf, j: nat)
    requires j < count && 8 + count * 8 <= |p|
  {
    && FromLE(p[8 + j * 8..8 + j * 8 + 8]) == hash
    && var d := DecodedKey(k, p, count, j); d.Err? || d.value == key
  }

  function DecodedKey(k: LeafTy, p: bytes, count: nat, j: nat): Result<Leaf> {
    var data :- Candidate(p, count, j);
    var (stored, _) :- DecLeaf(k, data);
    Ok(stored)
  }

  ghost predicate NoKeySettles(k: LeafTy, p: bytes, count: nat, hash: nat, key: Leaf, lo: nat, hi: nat)
    requires hi <= count && 8 + count * 8 <= |p|
  {
    forall j :: lo <= j < hi ==> !SettlesKey(k, p, count, hash, key, j)
  }

  /** The first pass of `get_lazy` looks at keys alone, and likewise only at those with the
      hash sought. */
  lemma {:induction false} KeyScanExact(k: LeafTy, p: bytes, count: nat, hash: nat, key: Leaf, i: nat, j: nat)
    requires i <= j <= count && 8 + count * 8 <= |p| && NoKeySettles(k, p, count, hash, key, i, j)
    ensures j == count ==> MapLazy.ScanKey(k, p, count, hash, key, i) == Ok(None)
    ensures j < count && SettlesKey(k, p, count, hash, key, j) ==>
              var d := DecodedKey(k, p, count, j);
              MapLazy.ScanKey(k, p, count, hash, key, i) == if d.Ok? then Ok(Some(j)) else Err(d.error)
    decreases count - i
  {
    if i < j {
      assert !SettlesKey(k, p, count, hash, key, i);
      KeyScanExact(k, p, count, hash, key, i + 1, j);
    }
  }

  // --- The scan of a written shard ---

  /** What the bytes of entry `j`, and those behind them, decode to. */
  function OwnReading(
    defs: Defs, k: LeafTy, ty: Ty, ks: seq<Leaf>, vs: seq<Obj>, j: nat, fuel: nat): Result<(Leaf, Value, bytes)>
    requires j < |ks| == |vs|
  {
    DecPair(defs, k, ty, EntryBytes(ks[j], vs[j]) + Blob(ks[j + 1..], vs[j + 1..]), fuel)
  }

  /** Entry `j` has a key with this hash, and is the key or cannot be decoded. */
  ghost predicate Decisive(
    h: Hash, defs: Defs, k: LeafTy, ty: Ty, ks: seq<Leaf>, vs: seq<Obj>, key: Leaf, j: nat, fuel: nat)
    requires j < |ks| == |vs|
  {
    h(ks[j]) == h(key) && (ks[j] == key || OwnReading(defs, k, ty, ks, vs, j, fuel).Err?)
  }

  lemma EntrySettles(
    h: Hash, defs: Defs, k: LeafTy, ty: Ty, ks: seq<Leaf>, vs: seq<Obj>, p: bytes, key: Leaf, j: nat, fuel: nat)
    requires IsShard(h, ks, vs, p) && Entries(defs, k, ty, ks, vs, fuel) && j < |ks| && 8 + |ks| * 8 <= |p|
    ensures Decoded(defs, k, ty, p, |ks|, j, fuel) == OwnReading(defs, k, ty, ks, vs, j, fuel)
    ensures Settles(defs, k, ty, p, |ks|, h(key), key, j, fuel) <==> Decisive(h, defs, k, ty, ks, vs, key, j, fuel)
  {
    ShardHash(h, ks, vs, p, j);
    CandidateStored(h, ks, vs, p, j);
    EntryBack(defs, k, ty, ks[j], vs[j], Blob(ks[j + 1..], vs[j + 1..]), fuel);
  }

  ghost predicate NoneDecisive(
    h: Hash, defs: Defs, k: LeafTy, ty: Ty, ks: seq<Leaf>, vs: seq<Obj>, key: Leaf, end: nat, fuel: nat)
    requires end <= |ks| == |vs|
  {
    forall i :: 0 <= i < end ==> !Decisive(h, defs, k, ty, ks, vs, key, i, fuel)
  }

  lemma NoneBefore(
    h: Hash, defs: Defs, k: LeafTy, ty: Ty, ks: seq<Leaf>, vs: seq<Obj>, p: bytes, key: Leaf, end: nat, fuel: nat)
    requires IsShard(h, ks, vs, p) && Entries(defs, k, ty, ks, vs, fuel) && end <= |ks| && 8 + |ks| * 8 <= |p|
    requires NoneDecisive(h, defs, k, ty, ks, vs, key, end, fuel)
    ensures NoneSettles(defs, k, ty, p, |ks|, h(key), key, 0, end, fuel)
  {
    forall i | 0 <= i < end
      ensures !Settles(defs, k, ty, p, |ks|, h(key), key, i, fuel)
    {
      EntrySettles(h, defs, k, ty, ks, vs, p, key, i, fuel);
    }
  }

  // --- Lookup in a stored map ---

  /** `get` on any stored, non-empty map: the first decisive entry of the key's bucket decides,
      by the decoding of its own bytes; without one the key is absent. */
  lemma GetDecided(
    f: File, h: Hash, defs: Defs, k: LeafTy, ty: Ty, n: ChunkNode, ks: seq<Leaf>, vs: seq<Obj>,
    forests: seq<seq<Tree>>, cid: nat, fuel: nat, key: Leaf, j: nat)
    requires MapStored(f, h, defs, k, ty, n, ks, vs, forests, cid, fuel) && ks != []
    requires |BucketKeys(h, ks, key)| == |BucketVals(h, ks, vs, key)| && j <= |BucketKeys(h, ks, key)|
    requires NoneDecisive(h, defs, k, ty, BucketKeys(h, ks, key), BucketVals(h, ks, vs, key), key, j, fuel)
    ensures j == |BucketKeys(h, ks, key)| ==> GetValue(f, h, defs, k, ty, n, key, fuel) == Ok(None)
    ensures j < |BucketKeys(h, ks, key)| &&
            Decisive(h, defs, k, ty, BucketKeys(h, ks, key), BucketVals(h, ks, vs, key), key, j, fuel) ==>
              GetValue(f, h, defs, k, ty, n, key, fuel)
              == Settled(OwnReading(defs, k, ty, BucketKeys(h, ks, key), BucketVals(h, ks, vs, key), j, fuel))
  {
    ShardFound(f, h, defs, k, ty, n, ks, vs, forests, cid, fuel, key);
    InBucket(f, h, defs, k, ty, n, BucketKeys(h, ks, key), BucketVals(h, ks, vs, key),
             ChildAt(f, n, BucketOf(h, ks, key)).value, fuel, key, j);
  }

  lemma InBucket(
    f: File, h: Hash, defs: Defs, k: LeafTy, ty: Ty, n: ChunkNode, bk: seq<Leaf>,
    bv: seq<Obj>, shard: ChunkNode, fuel: nat, key: Leaf, j: nat)
    requires Entries(defs, k, ty, bk, bv, fuel) && j <= |bk| && NoneDecisive(h, defs, k, ty, bk, bv, key, j, fuel)
    requires var p := MapShardBytes(h, bk, bv);
      p.Ok? && ShardFor(f, h, n, key) == Ok(if |p.value| < 8 then None else Some((shard, p.value)))
    ensures j == |bk| ==> GetValue(f, h, defs, k, ty, n, key, fuel) == Ok(None)
    ensures j < |bk| && Decisive(h, defs, k, ty, bk, bv, key, j, fuel) ==>
              GetValue(f, h, defs, k, ty, n, key, fuel) == Settled(OwnReading(defs, k, ty, bk, bv, j, fuel))
  {
    ShardSize(h, bk, bv);
    if bk != [] {
      var p := MapShardBytes(h, bk, bv).value;
      ShardHeader(h, bk, bv, p);
      NoneBefore(h, defs, k, ty, bk, bv, p, key, j, fuel);
      ScanExact(defs, k, ty, p, |bk|, h(key), key, 0, j, fuel);
      GetIsScan(f, h, defs, k, ty, n, shard, p, |bk|, key, fuel);
      if j < |bk| {
        EntrySettles(h, defs, k, ty, bk, bv, p, key, j, fuel);
      }
    }
  }

  /** If no key of the map has the hash sought, the answer is that the key is absent, however
      many values cannot be decoded. */
  lemma GetOtherHashes(
    f: File, h: Hash, defs: Defs, k: LeafTy, ty: Ty, n: ChunkNode, ks: seq<Leaf>, vs: seq<Obj>,
    forests: seq<seq<Tree>>, cid: nat, fuel: nat, key: Leaf)
    requires MapStored(f, h, defs, k, ty, n, ks, vs, forests, cid, fuel) && ks != []
    requires forall i :: 0 <= i < |ks| ==> h(ks[i]) != h(key)
    ensures GetValue(f, h, defs, k, ty, n, key, fuel) == Ok(None)
  {
    var bk, bv := BucketKeys(h, ks, key), BucketVals(h, ks, vs, key);
    PickLength(h, NumShards(|ks|), BucketOf(h, ks, key), ks, ks, vs);
    forall i | 0 <= i < |bk|
      ensures !Decisive(h, defs, k, ty, bk, bv, key, i, fuel)
    {
      PickPairs(h, NumShards(|ks|), BucketOf(h, ks, key), ks, vs, bk[i], bv[i]);
      assert PairIn(bk, bv, bk[i], bv[i]);
    }
    GetDecided(f, h, defs, k, ty, n, ks, vs, forests, cid, fuel, key, |bk|);
  }

  /** A present key that shares its hash with no other key of its bucket is answered by the
      decoding of its own entry: with the value it decodes to, right or wrong, or with the
      error. */
  lemma GetOwnEntry(
    f: File, h: Hash, defs: Defs, k: LeafTy, ty: Ty, n: ChunkNode, ks: seq<Leaf>, vs: seq<Obj>,
    forests: seq<seq<Tree>>, cid: nat, fuel: nat, key: Leaf, j: nat)
    requires MapStored(f, h, defs, k, ty, n, ks, vs, forests, cid, fuel) && ks != []
    requires |BucketKeys(h, ks, key)| == |BucketVals(h, ks, vs, key)| && j < |BucketKeys(h, ks, key)|
    requires BucketKeys(h, ks, key)[j] == key
    requires forall i :: 0 <= i < j ==> h(BucketKeys(h, ks, key)[i]) != h(key)
    ensures var bk, bv := BucketKeys(h, ks, key), BucketVals(h, ks, vs, key);
      GetValue(f, h, defs, k, ty, n, key, fuel)
      == match DecPair(defs, k, ty, EntryBytes(key, bv[j]) + Blob(bk[j + 1..], bv[j + 1..]), fuel)
         case Ok((_, val, _)) => Ok(Some(val))
         case Err(e) => Err(e)
  {
    GetDecided(f, h, defs, k, ty, n, ks, vs, forests, cid, fuel, key, j);
  }

  /** Every pair of the map has its place in the bucket of its key. */
  lemma OwnPlace(h: Hash, ks: seq<Leaf>, vs: seq<Obj>, i: nat) returns (j: nat)
    requires i < |ks| == |vs|
    ensures |BucketKeys(h, ks, ks[i])| == |BucketVals(h, ks, vs, ks[i])| && j < |BucketKeys(h, ks, ks[i])|
    ensures BucketKeys(h, ks, ks[i])[j] == ks[i] && BucketVals(h, ks, vs, ks[i])[j] == vs[i]
  {
    PickPairs(h, NumShards(|ks|), BucketOf(h, ks, ks[i]), ks, vs, ks[i], vs[i]);
    assert PairIn(ks, vs, ks[i], vs[i]);
    j :| 0 <= j < |BucketKeys(h, ks, ks[i])|
         && BucketKeys(h, ks, ks[i])[j] == ks[i] && BucketVals(h, ks, vs, ks[i])[j] == vs[i];
  }
}
