/** Loading a whole map: the loops over shards and entries that insert into a hash map. */
module MapLoading {
  import opened Wrappers
  import opened Bytes
  import opened Format
  import opened Values
  import opened Bincode
  import opened Reader
  import opened Lazy

  /** Inserting what a reader found into `m`. */
  function InsertRead(m: map<Leaf, Value>, r: Result<Pairs>): Result<map<Leaf, Value>> {
    match r
    case Ok((ks, vs)) => Ok(InsertAll(m, ks, vs))
    case Err(e) => Err(e)
  }

  lemma {:induction false} InsertConcat(
    m: map<Leaf, Value>, ka: seq<Leaf>, va: seq<Value>, kb: seq<Leaf>, vb: seq<Value>)
    requires |ka| == |va| && |kb| == |vb|
    ensures InsertAll(m, ka + kb, va + vb) == InsertAll(InsertAll(m, ka, va), kb, vb)
    decreases |ka|
  {
    if ka == [] {
      assert ka + kb == kb && va + vb == vb;
    } else {
      assert (ka + kb)[1..] == ka[1..] + kb && (va + vb)[1..] == va[1..] + vb;
      InsertConcat(m[ka[0] := va[0]], ka[1..], va[1..], kb, vb);
    }
  }

  lemma InsertNext(
    defs: Defs, k: LeafTy, v: Ty, p: bytes, count: nat, i: nat, fuel: nat,
    m: map<Leaf, Value>, key: Leaf, val: Value)
    requires i < count && DataStart(count) <= |p| && EntryData(p, count, i).Ok?
    requires DecPair(defs, k, v, EntryData(p, count, i).value, fuel).Ok?
    requires key == DecPair(defs, k, v, EntryData(p, count, i).value, fuel).value.0
    requires val == DecPair(defs, k, v, EntryData(p, count, i).value, fuel).value.1
    ensures InsertRead(m, ReadEntries(defs, k, v, p, count, i, fuel))
         == InsertRead(m[key := val], ReadEntries(defs, k, v, p, count, i + 1, fuel))
  {
    var tail := ReadEntries(defs, k, v, p, count, i + 1, fuel);
    if tail.Ok? {
      assert ([key] + tail.value.0)[1..] == tail.value.0 && ([val] + tail.value.1)[1..] == tail.value.1;
    }
  }

  /** The entries of one shard. */
  method InsertShard(
    defs: Defs, k: LeafTy, v: Ty, p: bytes, start: map<Leaf, Value>, fuel: nat) returns (r: Result<map<Leaf, Value>>)
    ensures r == InsertRead(start, ReadMapShard(defs, k, v, p, fuel))
  {
    if |p| < 8 {
      return Ok(start);
    }
    var count := FromLE(p[..4]);
    if DataStart(count) > |p| {
      return Err(BadFormat);
    }
    var m := start;
    for i := 0 to count
      invariant InsertRead(start, ReadEntries(defs, k, v, p, count, 0, fuel))
        == InsertRead(m, ReadEntries(defs, k, v, p, count, i, fuel))
    {
      var data := EntryData(p, count, i);
      if data.Err? {
        return Err(data.error);
      }
      var pair := DecPair(defs, k, v, data.value, fuel);
      if pair.Err? {
        return Err(pair.error);
      }
      InsertNext(defs, k, v, p, count, i, fuel, m, pair.value.0, pair.value.1);
      m := m[pair.value.0 := pair.value.1];
    }
    return Ok(m);
  }

  lemma ShardsNext(f: File, defs: Defs, k: LeafTy, v: Ty, shards: seq<ChunkNode>, fuel: nat, m: map<Leaf, Value>)
    requires shards != [] && ReadRaw(f, shards[0]).Ok?
    ensures var here := InsertRead(m, ReadMapShard(defs, k, v, ReadRaw(f, shards[0]).value, fuel));
      InsertRead(m, ReadMapShards(f, defs, k, v, shards, fuel))
      == if here.Err? then here else InsertRead(here.value, ReadMapShards(f, defs, k, v, shards[1..], fuel))
  {
    var a := ReadMapShard(defs, k, v, ReadRaw(f, shards[0]).value, fuel);
    var b := ReadMapShards(f, defs, k, v, shards[1..], fuel);
    if a.Ok? && b.Ok? {
      InsertConcat(m, a.value.0, a.value.1, b.value.0, b.value.1);
    }
  }

  method InsertShards(
    f: File, defs: Defs, k: LeafTy, v: Ty, shards: seq<ChunkNode>, fuel: nat) returns (r: Result<map<Leaf, Value>>)
    ensures r == InsertRead(map[], ReadMapShards(f, defs, k, v, shards, fuel))
  {
    var m: map<Leaf, Value> := map[];
    var rest := shards;
    while rest != []
      invariant InsertRead(map[], ReadMapShards(f, defs, k, v, shards, fuel))
        == InsertRead(m, ReadMapShards(f, defs, k, v, rest, fuel))
    {
      var payload := ReadRaw(f, rest[0]);
      if payload.Err? {
        return Err(payload.error);
      }
      ShardsNext(f, defs, k, v, rest, fuel, m);
      var next := InsertShard(defs, k, v, payload.value, m, fuel);
      if next.Err? {
        return next;
      }
      m := next.value;
      rest := rest[1..];
    }
    return Ok(m);
  }

  /** `HashMap::from_node`. */
  method LoadMap(f: File, defs: Defs, k: LeafTy, v: Ty, n: ChunkNode, fuel: nat) returns (r: Result<Value>)
    requires fuel > 0
    ensures r == MapFromNode(f, defs, k, v, n, fuel)
  {
    var payload := ReadRaw(f, n);
    if payload.Err? {
      return Err(payload.error);
    }
    if |payload.value| < 4 {
      return Ok(VMap(map[]));
    }
    if n.childCount == 0 {
      var whole := Dec(defs, TMap(k, v), payload.value, fuel);
      if whole.Err? {
        return Err(whole.error);
      }
      return Ok(whole.value.0);
    }
    var shards := Children(f, n);
    if shards.Err? {
      return Err(shards.error);
    }
    var less := fuel - 1;
    var m := InsertShards(f, defs, k, v, shards.value, less);
    LoadedMap(f, defs, k, v, n, fuel, less, m);
    return AsMap(m);
  }

  lemma LoadedMap(
    f: File, defs: Defs, k: LeafTy, v: Ty, n: ChunkNode, fuel: nat, less: nat, m: Result<map<Leaf, Value>>)
    requires fuel == less + 1 && Children(f, n).Ok? && n.childCount > 0
    requires ReadRaw(f, n).Ok? && |ReadRaw(f, n).value| >= 4
    requires m == InsertRead(map[], ReadMapShards(f, defs, k, v, Children(f, n).value, less))
    ensures MapFromNode(f, defs, k, v, n, fuel) == AsMap(m)
  {
  }

  function AsMap(m: Result<map<Leaf, Value>>): Result<Value> {
    if m.Err? then Err(m.error) else Ok(VMap(m.value))
  }

  /** `ParcodeMapPromise::load`. */
  method LoadPromised(f: File, defs: Defs, k: LeafTy, v: Ty, n: ChunkNode, fuel: nat) returns (r: Result<Value>)
    requires fuel > 0
    ensures r == PromisedMap(f, defs, k, v, n, fuel)
  {
    var payload := ReadRaw(f, n);
    if payload.Err? {
      return Err(payload.error);
    }
    var numShards := if |payload.value| >= 4 then FromLE(payload.value[..4]) else 0;
    if numShards == 0 {
      return Ok(VMap(map[]));
    }
    var shards := Children(f, n);
    if shards.Err? {
      return Err(shards.error);
    }
    var less := fuel - 1;
    var m := InsertShards(f, defs, k, v, shards.value, less);
    LoadedPromise(f, defs, k, v, n, fuel, less, m);
    return AsMap(m);
  }

  lemma LoadedPromise(
    f: File, defs: Defs, k: LeafTy, v: Ty, n: ChunkNode, fuel: nat, less: nat, m: Result<map<Leaf, Value>>)
    requires fuel == less + 1 && Children(f, n).Ok?
    requires ReadRaw(f, n).Ok? && |ReadRaw(f, n).value| >= 4 && FromLE(ReadRaw(f, n).value[..4]) > 0
    requires m == InsertRead(map[], ReadMapShards(f, defs, k, v, Children(f, n).value, less))
    ensures PromisedMap(f, defs, k, v, n, fuel) == AsMap(m)
  {
  }
}
