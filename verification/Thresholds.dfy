/** Where each reader draws the line on arbitrary payloads: too short for a container, for a
    map, for a shard. */
module Thresholds {
  import opened Wrappers
  import opened Bytes
  import opened Format
  import opened Values
  import opened Bincode
  import opened Jobs
  import opened Reader
  import opened Layout
  import Iteration
  import LazyVectors
  import Lazy
  import MapLookup
  import MapLazy
  import MapAnswers

  // --- Vectors ---

  /** Less than eight bytes are no container: it has length 0 and no item at any index. Loading
      gives the empty vector if there are no bytes at all. */
  lemma ShortContainer(f: File, defs: Defs, e: Ty, n: ChunkNode, index: nat, fuel: nat)
    requires ReadRaw(f, n).Ok? && |ReadRaw(f, n).value| < 8
    ensures Iteration.Len(f, n) == 0
    ensures Iteration.GetItem(f, defs, e, n, index, fuel) == Err(BadFormat)
    ensures LazyVectors.GetLazyItem(f, defs, e, n, index, fuel) == Err(BadFormat)
    ensures ReadRaw(f, n).value == [] ==> DecodeCollection(f, defs, e, n, fuel) == Ok([])
  {
  }

  /** From eight bytes on, the first eight are the number of items, and loading gives that many
      or nothing. */
  lemma Container(f: File, defs: Defs, e: Ty, n: ChunkNode, fuel: nat)
    requires ReadRaw(f, n).Ok? && |ReadRaw(f, n).value| >= 8
    ensures Iteration.Len(f, n) == EightAt(ReadRaw(f, n).value, 0)
    ensures DecodeCollection(f, defs, e, n, fuel).Ok? ==>
              |DecodeCollection(f, defs, e, n, fuel).value| == EightAt(ReadRaw(f, n).value, 0)
  {
    assert ReadRaw(f, n).value[0..8] == ReadRaw(f, n).value[..8];
    ReadEight(ReadRaw(f, n).value, 0);
  }

  /** The counts of a run table are 32-bit numbers; an eight-byte form is refused. */
  lemma RunLimits(bs: bytes)
    ensures DecRun(bs).Ok? ==> DecRun(bs).value.0.itemCount < 4294967296 && DecRun(bs).value.0.repeat < 4294967296
    ensures bs != [] && bs[0] == 253 ==> DecRun(bs) == Err(BadEncoding)
  {
    DecUintExact(bs, false);
    if DecUint(bs, false).Ok? {
      DecUintExact(DecUint(bs, false).value.1, false);
    }
  }

  /** A shard must promise exactly the number of items that the container's table gives it. */
  lemma ShardCount(f: File, defs: Defs, e: Ty, shard: ChunkNode, expected: nat, fuel: nat)
    requires Open(f, shard).Ok? && DecUint(Open(f, shard).value.bs, true).Ok?
    ensures DecUint(Open(f, shard).value.bs, true).value.0 != expected ==>
              ReadExactly(f, defs, e, shard, expected, fuel) == Err(BadFormat)
    ensures DecUint(Open(f, shard).value.bs, true).value.0 == expected ==>
              ReadExactly(f, defs, e, shard, expected, fuel) == ReadShard(f, defs, e, shard, fuel)
  {
  }

  /** An index that the table places past the items a shard really has is refused. */
  lemma ShardTooShort(f: File, defs: Defs, e: Ty, n: ChunkNode, index: nat, fuel: nat)
    requires Iteration.ShardOf(f, n, index).Ok?
    ensures var (k, local) := Iteration.ShardOf(f, n, index).value;
      ChildAt(f, n, k).Ok? && ReadShard(f, defs, e, ChildAt(f, n, k).value, fuel).Ok? ==>
        var items := ReadShard(f, defs, e, ChildAt(f, n, k).value, fuel).value;
        Iteration.GetItem(f, defs, e, n, index, fuel) == if local < |items| then Ok(items[local]) else Err(BadFormat)
  {
  }

  // --- Maps ---

  /** Less than four bytes read as an empty map, in every way. */
  lemma ShortMap(f: File, h: Hash, defs: Defs, k: LeafTy, v: Ty, n: ChunkNode, key: Leaf, fuel: nat)
    requires fuel > 0 && ReadRaw(f, n).Ok? && |ReadRaw(f, n).value| < 4
    ensures MapFromNode(f, defs, k, v, n, fuel) == Ok(VMap(map[]))
    ensures Lazy.PromisedMap(f, defs, k, v, n, fuel) == Ok(VMap(map[]))
    ensures MapLookup.GetValue(f, h, defs, k, v, n, key, fuel) == Ok(None)
    ensures MapLazy.GetLazyValue(f, h, defs, k, v, n, key, fuel) == Ok(None)
  {
  }

  /** From four bytes on, the first four are the number of shards: if it is zero, a promise
      loads as empty and a lookup divides by it; if not, the key's shard is the child that its
      hash chooses. */
  lemma MapShardChosen(f: File, h: Hash, defs: Defs, k: LeafTy, v: Ty, n: ChunkNode, key: Leaf, fuel: nat)
    requires fuel > 0 && ReadRaw(f, n).Ok? && |ReadRaw(f, n).value| >= 4
    ensures var shards := FourAt(ReadRaw(f, n).value, 0);
      if shards == 0 then
        && Lazy.PromisedMap(f, defs, k, v, n, fuel) == Ok(VMap(map[]))
        && MapLookup.GetValue(f, h, defs, k, v, n, key, fuel) == Err(DivideByZero)
        && MapLazy.GetLazyValue(f, h, defs, k, v, n, key, fuel) == Err(DivideByZero)
      else
        var shard := ChildAt(f, n, h(key) % shards);
        && (shard.Err? ==> MapLookup.ShardFor(f, h, n, key) == Err(shard.error))
        && (shard.Ok? && ReadRaw(f, shard.value).Ok? ==>
              MapLookup.ShardFor(f, h, n, key)
              == Ok(if |ReadRaw(f, shard.value).value| < 8 then None
                    else Some((shard.value, ReadRaw(f, shard.value).value))))
  {
    assert ReadRaw(f, n).value[0..4] == ReadRaw(f, n).value[..4];
    ReadFour(ReadRaw(f, n).value, 0);
  }

  /** A shard of less than eight bytes is empty; from eight on, the first four are the number of
      its entries, and twelve bytes of tables for each must follow. */
  lemma MapShardSize(defs: Defs, k: LeafTy, v: Ty, p: bytes, fuel: nat)
    ensures |p| < 8 ==> ReadMapShard(defs, k, v, p, fuel) == Ok(([], []))
    ensures |p| >= 8 && |p| < 8 + 12 * FourAt(p, 0) ==> ReadMapShard(defs, k, v, p, fuel) == Err(BadFormat)
    ensures |p| >= 8 && ReadMapShard(defs, k, v, p, fuel).Ok? ==>
              |ReadMapShard(defs, k, v, p, fuel).value.0| == FourAt(p, 0)
  {
    if |p| >= 8 {
      assert p[0..4] == p[..4];
      ReadFour(p, 0);
    }
  }

  /** A lookup needs the hash table alone: if that does not fit the shard it fails, and if no
      hash in it is the key's, the key is absent whatever follows the table. */
  lemma LookupTable(
    f: File, h: Hash, defs: Defs, k: LeafTy, v: Ty, n: ChunkNode, shard: ChunkNode, p: bytes, key: Leaf, fuel: nat)
    requires MapLookup.ShardFor(f, h, n, key) == Ok(Some((shard, p))) && |p| >= 8
    ensures |p| < 8 + 8 * FourAt(p, 0) ==>
              && MapLookup.GetValue(f, h, defs, k, v, n, key, fuel) == Err(BadFormat)
              && MapLazy.GetLazyValue(f, h, defs, k, v, n, key, fuel) == Err(BadFormat)
    ensures |p| >= 8 + 8 * FourAt(p, 0) && (forall j :: 0 <= j < FourAt(p, 0) ==> EightAt(p, 8 + 8 * j) != h(key)) ==>
              && MapLookup.GetValue(f, h, defs, k, v, n, key, fuel) == Ok(None)
              && MapLazy.GetLazyValue(f, h, defs, k, v, n, key, fuel) == Ok(None)
  {
    var count := FourAt(p, 0);
    assert p[0..4] == p[..4];
    ReadFour(p, 0);
    if |p| >= 8 + 8 * count && forall j :: 0 <= j < count ==> EightAt(p, 8 + 8 * j) != h(key) {
      NoHash(defs, k, v, p, count, h(key), key, fuel);
    }
  }

  lemma NoHash(defs: Defs, k: LeafTy, v: Ty, p: bytes, count: nat, hash: nat, key: Leaf, fuel: nat)
    requires |p| >= 8 + 8 * count && forall j :: 0 <= j < count ==> EightAt(p, 8 + 8 * j) != hash
    ensures MapLookup.Scan(defs, k, v, p, count, hash, key, 0, fuel) == Ok(None)
    ensures MapLazy.ScanKey(k, p, count, hash, key, 0) == Ok(None)
  {
    forall j | 0 <= j < count
      ensures FromLE(p[8 + j * 8..8 + j * 8 + 8]) != hash
    {
      assert EightAt(p, 8 + 8 * j) != hash;
      ReadEight(p, 8 + 8 * j);
    }
    MapAnswers.ScanExact(defs, k, v, p, count, hash, key, 0, count, fuel);
    MapAnswers.KeyScanExact(k, p, count, hash, key, 0, count);
  }
}
