/** Eager reading of a map gives the map back exactly when its values are self-contained. */
module MapBack {
  import opened Wrappers
  import opened Bytes
  import opened Format
  import opened Values
  import opened Bincode
  import opened Jobs
  import opened Trees
  import opened Stored
  import opened Reader
  import opened Loadable
  import opened MapFormat
  import opened EncodingBounds
  import opened Buckets

  /** Keys and values of a list of entries that have the right types and fit the stack. */
  ghost predicate Entries(defs: Defs, k: LeafTy, ty: Ty, ks: seq<Leaf>, vs: seq<Obj>, fuel: nat) {
    && |ks| == |vs|
    && forall i :: 0 <= i < |ks| ==> LeafHas(ks[i], k) && HasType(defs, vs[i], ty) && Depth(vs[i]) <= fuel
  }

  // --- One entry ---

  /** The pair is decoded whole although only part of the value was written. The key is
      always right. The value is right if nothing was left out of it and, with nothing
      behind it, only then. */
  lemma EntryBack(defs: Defs, k: LeafTy, ty: Ty, key: Leaf, o: Obj, rest: bytes, fuel: nat)
    requires LeafHas(key, k) && HasType(defs, o, ty) && Depth(o) <= fuel
    ensures var r := DecPair(defs, k, ty, EntryBytes(key, o) + rest, fuel);
      && (r.Ok? ==> r.value.0 == key)
      && (|Shallow(o)| == |Enc(o)| ==> r == Ok((key, ValueOf(o), rest)))
      && (rest == [] && r.Ok? && r.value.1 == ValueOf(o) ==> |Shallow(o)| == |Enc(o)|)
  {
    Assoc(EncLeaf(key), Shallow(o), rest);
    DecLeafRoundTrip(key, k, Shallow(o) + rest);
    ShallowWithin(defs, o, ty);
    if |Shallow(o)| == |Enc(o)| {
      DecRoundTrip(defs, o, ty, rest, fuel);
    }
    var r := Dec(defs, ty, Shallow(o) + rest, fuel);
    if rest == [] && r.Ok? && r.value.0 == ValueOf(o) {
      DecLower(defs, o, ty, Shallow(o) + rest, fuel);
    }
  }

  // --- One shard ---

  /** What reading the entries `ks` and `vs` gives: the keys are right, all is right if the
      values are self-contained, and only then if at least the last value is. */
  ghost predicate EntriesOk(ks: seq<Leaf>, vs: seq<Obj>, whole: bool, r: Result<Pairs>) {
    && (r.Ok? ==> r.value.0 == ks)
    && (whole ==> r == Ok((ks, ValuesOf(vs))))
    && (r.Ok? && r.value.1 == ValuesOf(vs) && vs != [] ==> |Shallow(vs[|vs| - 1])| == |Enc(vs[|vs| - 1])|)
  }

  function Prepend(d: Result<(Leaf, Value, bytes)>, tail: Result<Pairs>): Result<Pairs> {
    var (key, val, _) :- d;
    var (ks, vs) :- tail;
    Ok(([key] + ks, [val] + vs))
  }

  lemma EntriesStep(ks: seq<Leaf>, vs: seq<Obj>, whole: bool, d: Result<(Leaf, Value, bytes)>, tail: Result<Pairs>)
    requires 0 < |ks| == |vs| && EntriesOk(ks[1..], vs[1..], whole, tail)
    requires d.Ok? ==> d.value.0 == ks[0]
    requires whole ==> d.Ok? && d.value.1 == ValueOf(vs[0])
    requires |vs| == 1 && d.Ok? && d.value.1 == ValueOf(vs[0]) ==> |Shallow(vs[0])| == |Enc(vs[0])|
    ensures EntriesOk(ks, vs, whole, Prepend(d, tail))
  {
    assert [ks[0]] + ks[1..] == ks;
    if d.Ok? && tail.Ok? {
      SameTail(d.value.1, tail.value.1, ValueOf(vs[0]), ValuesOf(vs[1..]));
    }
  }

  lemma ReadEntriesStep(defs: Defs, k: LeafTy, v: Ty, p: bytes, count: nat, i: nat, fuel: nat, data: bytes)
    requires i < count && DataStart(count) <= |p| && EntryData(p, count, i) == Ok(data)
    ensures ReadEntries(defs, k, v, p, count, i, fuel)
         == Prepend(DecPair(defs, k, v, data, fuel), ReadEntries(defs, k, v, p, count, i + 1, fuel))
  {
  }

  lemma {:induction false} EntriesBack(
    h: Hash, defs: Defs, k: LeafTy, ty: Ty, ks: seq<Leaf>, vs: seq<Obj>, p: bytes, i: nat, fuel: nat)
    requires IsShard(h, ks, vs, p) && Entries(defs, k, ty, ks, vs, fuel) && i <= |ks|
    requires DataStart(|ks|) <= |p|
    ensures EntriesOk(ks[i..], vs[i..], SelfContained(vs), ReadEntries(defs, k, ty, p, |ks|, i, fuel))
    decreases |ks| - i
  {
    if i < |ks| {
      EntriesBack(h, defs, k, ty, ks, vs, p, i + 1, fuel);
      EntriesAt(h, defs, k, ty, ks, vs, p, i, fuel, ReadEntries(defs, k, ty, p, |ks|, i + 1, fuel));
    } else {
      NoEntries(ks[i..], vs[i..], SelfContained(vs));
    }
  }

  lemma NoEntries(ks: seq<Leaf>, vs: seq<Obj>, whole: bool)
    requires ks == [] && vs == []
    ensures EntriesOk(ks, vs, whole, Ok(([], [])))
  {
  }

  lemma EntriesAt(
    h: Hash, defs: Defs, k: LeafTy, ty: Ty, ks: seq<Leaf>, vs: seq<Obj>,
    p: bytes, i: nat, fuel: nat, tail: Result<Pairs>)
    requires IsShard(h, ks, vs, p) && Entries(defs, k, ty, ks, vs, fuel) && i < |ks|
    requires DataStart(|ks|) <= |p| && tail == ReadEntries(defs, k, ty, p, |ks|, i + 1, fuel)
    requires EntriesOk(ks[i + 1..], vs[i + 1..], SelfContained(vs), tail)
    ensures EntriesOk(ks[i..], vs[i..], SelfContained(vs), ReadEntries(defs, k, ty, p, |ks|, i, fuel))
  {
    var rest := Blob(ks[i + 1..], vs[i + 1..]);
    ShardEntry(h, ks, vs, p, i);
    ReadEntriesStep(defs, k, ty, p, |ks|, i, fuel, EntryBytes(ks[i], vs[i]) + rest);
    EntryBack(defs, k, ty, ks[i], vs[i], rest, fuel);
    assert ks[i..][1..] == ks[i + 1..] && vs[i..][1..] == vs[i + 1..];
    EntriesStep(ks[i..], vs[i..], SelfContained(vs), DecPair(defs, k, ty, EntryBytes(ks[i], vs[i]) + rest, fuel), tail);
  }

  lemma OneForAll(defs: Defs, ty: Ty, vs: seq<Obj>)
    requires vs != [] && forall i :: 0 <= i < |vs| ==> HasType(defs, vs[i], ty)
    ensures SelfContained(vs) <==> |Shallow(vs[|vs| - 1])| == |Enc(vs[|vs| - 1])|
  {
    forall i | 0 <= i < |vs|
      ensures |Shallow(vs[i])| == |Enc(vs[i])| <==> |Shallow(vs[|vs| - 1])| == |Enc(vs[|vs| - 1])|
    {
      SavedByType(defs, vs[i], vs[|vs| - 1], ty);
    }
  }

  lemma ShardBack(h: Hash, defs: Defs, k: LeafTy, ty: Ty, ks: seq<Leaf>, vs: seq<Obj>, p: bytes, fuel: nat)
    requires Entries(defs, k, ty, ks, vs, fuel) && MapShardBytes(h, ks, vs) == Ok(p)
    ensures var r := ReadMapShard(defs, k, ty, p, fuel);
      && (r.Ok? ==> r.value.0 == ks)
      && (r == Ok((ks, ValuesOf(vs))) <==> SelfContained(vs))
  {
    if ks != [] {
      ShardHeader(h, ks, vs, p);
      EntriesBack(h, defs, k, ty, ks, vs, p, 0, fuel);
      OneForAll(defs, ty, vs);
      assert ks[0..] == ks && vs[0..] == vs;
    }
  }

  // --- All shards ---

  lemma EntriesPicked(defs: Defs, k: LeafTy, ty: Ty, h: Hash, n: nat, b: nat, ks: seq<Leaf>, vs: seq<Obj>, fuel: nat)
    requires n > 0 && Entries(defs, k, ty, ks, vs, fuel)
    ensures Entries(defs, k, ty, Pick(h, n, b, ks, ks), Pick(h, n, b, ks, vs), fuel)
  {
    var pk, pv := Pick(h, n, b, ks, ks), Pick(h, n, b, ks, vs);
    PickLength(h, n, b, ks, ks, vs);
    forall i | 0 <= i < |pk|
      ensures LeafHas(pk[i], k) && HasType(defs, pv[i], ty) && Depth(pv[i]) <= fuel
    {
      PickPairs(h, n, b, ks, vs, pk[i], pv[i]);
      assert PairIn(pk, pv, pk[i], pv[i]);
    }
  }

  lemma SelfContainedAppend(a: seq<Obj>, b: seq<Obj>)
    ensures SelfContained(a + b) <==> SelfContained(a) && SelfContained(b)
  {
    if SelfContained(a + b) {
      forall i | 0 <= i < |a|
        ensures |Shallow(a[i])| == |Enc(a[i])|
      {
        assert (a + b)[i] == a[i];
      }
      forall i | 0 <= i < |b|
        ensures |Shallow(b[i])| == |Enc(b[i])|
      {
        assert (a + b)[|a| + i] == b[i];
      }
    }
  }

  function BothRead(a: Result<Pairs>, b: Result<Pairs>): Result<Pairs> {
    var (ks, vs) :- a;
    var (ks', vs') :- b;
    Ok((ks + ks', vs + vs'))
  }

  /** The keys are right, and all is right exactly when the values are self-contained. */
  ghost predicate Rebuilt(ks: seq<Leaf>, vs: seq<Obj>, r: Result<Pairs>) {
    && (r.Ok? ==> r.value.0 == ks)
    && (r == Ok((ks, ValuesOf(vs))) <==> SelfContained(vs))
  }

  lemma RebuiltAppend(ka: seq<Leaf>, va: seq<Obj>, a: Result<Pairs>, kb: seq<Leaf>, vb: seq<Obj>, b: Result<Pairs>)
    requires Rebuilt(ka, va, a) && Rebuilt(kb, vb, b) && |ka| == |va|
    requires a.Ok? ==> |a.value.0| == |a.value.1|
    ensures Rebuilt(ka + kb, va + vb, BothRead(a, b))
  {
    SelfContainedAppend(va, vb);
    ValuesAppend(va, vb);
    if a.Ok? && b.Ok? {
      SameParts(a.value.1, b.value.1, ValuesOf(va), ValuesOf(vb));
    }
  }

  lemma {:induction false} ShardsBack(
    f: File, h: Hash, defs: Defs, k: LeafTy, ty: Ty, ks: seq<Leaf>, vs: seq<Obj>,
    forests: seq<seq<Tree>>, n: nat, b: nat, cid: nat, kids: seq<ChunkNode>, fuel: nat)
    requires Entries(defs, k, ty, ks, vs, fuel) && |forests| == |ks| && b <= n
    requires KidsHold(f, h, kids, MapShards(h, ks, vs, forests, n, b, cid))
    ensures Rebuilt(PickAll(h, n, b, ks, ks), PickAll(h, n, b, ks, vs), ReadMapShards(f, defs, k, ty, kids, fuel))
    decreases n - b
  {
    if b < n {
      KidsTail(f, h, kids, MapShard(h, ks, vs, forests, n, b, cid), MapShards(h, ks, vs, forests, n, b + 1, cid));
      ShardsBack(f, h, defs, k, ty, ks, vs, forests, n, b + 1, cid, kids[1..], fuel);
      ShardsStep(f, h, defs, k, ty, ks, vs, forests, n, b, cid, kids, fuel);
    }
  }

  lemma ShardsStep(
    f: File, h: Hash, defs: Defs, k: LeafTy, ty: Ty, ks: seq<Leaf>, vs: seq<Obj>,
    forests: seq<seq<Tree>>, n: nat, b: nat, cid: nat, kids: seq<ChunkNode>, fuel: nat)
    requires Entries(defs, k, ty, ks, vs, fuel) && |forests| == |ks| && b < n
    requires kids != [] && StoredAt(f, h, kids[0], MapShard(h, ks, vs, forests, n, b, cid))
    requires Rebuilt(PickAll(h, n, b + 1, ks, ks), PickAll(h, n, b + 1, ks, vs),
      ReadMapShards(f, defs, k, ty, kids[1..], fuel))
    ensures Rebuilt(PickAll(h, n, b, ks, ks), PickAll(h, n, b, ks, vs), ReadMapShards(f, defs, k, ty, kids, fuel))
  {
    BucketBack(f, h, defs, k, ty, ks, vs, forests, n, b, cid, kids[0], fuel);
    ReadMapShardsStep(f, defs, k, ty, kids, fuel);
    RebuiltAppend(Pick(h, n, b, ks, ks), Pick(h, n, b, ks, vs),
      ReadMapShard(defs, k, ty, ReadRaw(f, kids[0]).value, fuel),
      PickAll(h, n, b + 1, ks, ks), PickAll(h, n, b + 1, ks, vs),
      ReadMapShards(f, defs, k, ty, kids[1..], fuel));
  }

  lemma ReadMapShardsStep(f: File, defs: Defs, k: LeafTy, v: Ty, kids: seq<ChunkNode>, fuel: nat)
    requires kids != [] && ReadRaw(f, kids[0]).Ok?
    ensures ReadMapShards(f, defs, k, v, kids, fuel)
         == BothRead(
              ReadMapShard(defs, k, v, ReadRaw(f, kids[0]).value, fuel),
              ReadMapShards(f, defs, k, v, kids[1..], fuel))
  {
  }

  lemma KidsTail(f: File, h: Hash, kids: seq<ChunkNode>, t: Tree, ts: seq<Tree>)
    requires KidsHold(f, h, kids, [t] + ts)
    ensures kids != [] && StoredAt(f, h, kids[0], t) && KidsHold(f, h, kids[1..], ts)
  {
    KidsSplit(f, h, kids, [t], ts);
    assert ([t] + ts)[0] == t;
  }

  lemma BucketBack(
    f: File, h: Hash, defs: Defs, k: LeafTy, ty: Ty, ks: seq<Leaf>, vs: seq<Obj>,
    forests: seq<seq<Tree>>, n: nat, b: nat, cid: nat, kid: ChunkNode, fuel: nat)
    requires Entries(defs, k, ty, ks, vs, fuel) && |forests| == |ks| && b < n
    requires StoredAt(f, h, kid, MapShard(h, ks, vs, forests, n, b, cid))
    ensures |Pick(h, n, b, ks, ks)| == |Pick(h, n, b, ks, vs)|
    ensures var r := MapShardBytes(h, Pick(h, n, b, ks, ks), Pick(h, n, b, ks, vs));
      && r.Ok? && ReadRaw(f, kid) == r
      && Rebuilt(Pick(h, n, b, ks, ks), Pick(h, n, b, ks, vs), ReadMapShard(defs, k, ty, r.value, fuel))
  {
    PickLength(h, n, b, ks, ks, vs);
    EntriesPicked(defs, k, ty, h, n, b, ks, vs, fuel);
    ShardBack(h, defs, k, ty, Pick(h, n, b, ks, ks), Pick(h, n, b, ks, vs), ReadRaw(f, kid).value, fuel);
  }

  // --- The whole map ---

  lemma SelfContainedPicked(h: Hash, n: nat, ks: seq<Leaf>, vs: seq<Obj>)
    requires n > 0 && |ks| == |vs|
    ensures SelfContained(PickAll(h, n, 0, ks, vs)) <==> SelfContained(vs)
  {
    var pk, pv := PickAll(h, n, 0, ks, ks), PickAll(h, n, 0, ks, vs);
    PickAllLength(h, n, 0, ks, ks, vs);
    if SelfContained(vs) {
      forall i | 0 <= i < |pv|
        ensures |Shallow(pv[i])| == |Enc(pv[i])|
      {
        PickAllPairs(h, n, 0, ks, vs, pk[i], pv[i]);
        assert PairIn(pk, pv, pk[i], pv[i]);
      }
    } else {
      var i :| 0 <= i < |vs| && |Shallow(vs[i])| != |Enc(vs[i])|;
      PickAllPairs(h, n, 0, ks, vs, ks[i], vs[i]);
      assert PairIn(ks, vs, ks[i], vs[i]);
      assert PairIn(pk, pv, ks[i], vs[i]);
    }
  }

  lemma {:induction false} ValuesAllPicked(h: Hash, n: nat, b: nat, ks: seq<Leaf>, vs: seq<Obj>)
    requires n > 0 && |ks| == |vs| && b <= n
    ensures ValuesOf(PickAll(h, n, b, ks, vs)) == PickAll(h, n, b, ks, ValuesOf(vs))
    decreases n - b
  {
    if b < n {
      ValuesPicked(h, n, b, ks, vs);
      ValuesAllPicked(h, n, b + 1, ks, vs);
      ValuesAppend(Pick(h, n, b, ks, vs), PickAll(h, n, b + 1, ks, vs));
    }
  }

  lemma MapRebuilt(h: Hash, n: nat, ks: seq<Leaf>, vs: seq<Obj>, r: Result<Pairs>)
    requires n > 0 && |ks| == |vs| && Distinct(ks)
    requires Rebuilt(PickAll(h, n, 0, ks, ks), PickAll(h, n, 0, ks, vs), r)
    requires r.Ok? ==> |r.value.0| == |r.value.1|
    ensures r.Ok? && InsertAll(map[], r.value.0, r.value.1) == InsertAll(map[], ks, ValuesOf(vs)) <==> SelfContained(vs)
  {
    SelfContainedPicked(h, n, ks, vs);
    ValuesAllPicked(h, n, 0, ks, vs);
    BucketsRebuild(h, n, ks, ValuesOf(vs));
    PickAllDistinct(h, n, 0, ks);
    if r.Ok? {
      InsertsDiffer(r.value.0, r.value.1, ValuesOf(PickAll(h, n, 0, ks, vs)));
    }
  }

  /** A non-empty sharded map comes back exactly when every value is self-contained,
      for every hash function and every iteration order. */
  lemma MapTreeBack(
    f: File, h: Hash, defs: Defs, k: LeafTy, ty: Ty, n: ChunkNode, ks: seq<Leaf>, vs: seq<Obj>,
    forests: seq<seq<Tree>>, cid: nat, fuel: nat)
    requires fuel > 0 && Entries(defs, k, ty, ks, vs, fuel - 1) && |forests| == |ks| && ks != [] && Distinct(ks)
    requires StoredAt(f, h, n, MapTree(h, ks, vs, forests, cid))
    ensures MapFromNode(f, defs, k, ty, n, fuel) == Ok(VMap(InsertAll(map[], ks, ValuesOf(vs)))) <==> SelfContained(vs)
  {
    var less := fuel - 1;
    MapTreeOpen(f, h, n, ks, vs, forests, cid);
    var r := ReadMapShards(f, defs, k, ty, Children(f, n).value, less);
    ShardsBack(f, h, defs, k, ty, ks, vs, forests, NumShards(|ks|), 0, cid, Children(f, n).value, less);
    MapRebuilt(h, NumShards(|ks|), ks, vs, r);
    MapFromShards(f, defs, k, ty, n, fuel, less, r);
  }

  lemma MapTreeOpen(f: File, h: Hash, n: ChunkNode, ks: seq<Leaf>, vs: seq<Obj>, forests: seq<seq<Tree>>, cid: nat)
    requires 0 < |ks| == |vs| == |forests| && StoredAt(f, h, n, MapTree(h, ks, vs, forests, cid))
    ensures ReadRaw(f, n) == Ok(LE(NumShards(|ks|), 4)) && n.childCount == NumShards(|ks|)
    ensures Children(f, n).Ok?
    ensures KidsHold(f, h, Children(f, n).value, MapShards(h, ks, vs, forests, NumShards(|ks|), 0, cid))
  {
    assert MapTree(h, ks, vs, forests, cid).job == MapContainerJob(NumShards(|ks|));
    ContainerPayload(f, h, n, MapTree(h, ks, vs, forests, cid), NumShards(|ks|));
    OpenRead(f, h, n, MapTree(h, ks, vs, forests, cid));
  }

  lemma ContainerPayload(f: File, h: Hash, n: ChunkNode, t: Tree, shards: nat)
    requires StoredAt(f, h, n, t) && t.job == MapContainerJob(shards)
    ensures ReadRaw(f, n) == Ok(LE(shards, 4))
  {
  }

  lemma MapFromShards(
    f: File, defs: Defs, k: LeafTy, ty: Ty, n: ChunkNode, fuel: nat, less: nat, r: Result<Pairs>)
    requires fuel == less + 1 && ReadRaw(f, n).Ok? && |ReadRaw(f, n).value| >= 4
    requires n.childCount > 0 && Children(f, n).Ok? && r == ReadMapShards(f, defs, k, ty, Children(f, n).value, less)
    ensures
      MapFromNode(f, defs, k, ty, n, fuel)
        == if r.Ok? then Ok(VMap(InsertAll(map[], r.value.0, r.value.1))) else Err(r.error)
  {
  }
}
