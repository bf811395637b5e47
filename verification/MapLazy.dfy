/** Looking one key up lazily: the children of the preceding values are skipped by replaying
    them. */
module MapLazy {
  import opened Wrappers
  import opened Bytes
  import opened Format
  import opened Values
  import opened Bincode
  import opened Jobs
  import opened Trees
  import opened Stored
  import opened Reader
  import opened Loadable
  import opened MapFormat
  import opened EncodingBounds
  import opened Buckets
  import opened MapBack
  import opened MapLookup
  import opened ReadBack
  import opened Lazy
  import opened LazyVectors
  import Visitor

  // --- The two passes over a shard ---

  /** Entries from `i` on: the index of the first one with this hash and this key. */
  function ScanKey(k: LeafTy, p: bytes, count: nat, hash: nat, key: Leaf, i: nat): (r: Result<Option<nat>>)
    requires i <= count && 8 + count * 8 <= |p|
    ensures r.Ok? && r.value.Some? ==> i <= r.value.value < count
    decreases count - i
  {
    if i == count then Ok(None)
    else if HashAt(p, i) != hash then ScanKey(k, p, count, hash, key, i + 1)
    else
      var data :- Candidate(p, count, i);
      var (stored, _) :- DecLeaf(k, data);
      if stored == key then Ok(Some(i)) else ScanKey(k, p, count, hash, key, i + 1)
  }

  /** The cursor behind the key of entry `i`. */
  function ValueAt(k: LeafTy, p: bytes, count: nat, i: nat, kids: seq<ChunkNode>): Result<Cursor> {
    var data :- Candidate(p, count, i);
    var (_, rest) :- DecLeaf(k, data);
    Ok(Cursor(rest, kids))
  }

  /** The children left after reading the values of entries `i` up to `end`. */
  function Replay(
    f: File, defs: Defs, k: LeafTy, v: Ty, p: bytes, count: nat, i: nat,
    end: nat, kids: seq<ChunkNode>, fuel: nat)
    : Result<seq<ChunkNode>>
    requires i <= end
    decreases end - i
  {
    if i == end then Ok(kids)
    else
      var cur :- ValueAt(k, p, count, i, kids);
      var (_, next) :- ReadLazy(f, defs, v, cur, fuel);
      Replay(f, defs, k, v, p, count, i + 1, end, next.kids, fuel)
  }

  function MirrorAt(
    f: File, defs: Defs, k: LeafTy, v: Ty, p: bytes, count: nat, i: nat, kids: seq<ChunkNode>, fuel: nat)
    : Result<Mirror>
  {
    var left :- Replay(f, defs, k, v, p, count, 0, i, kids, fuel);
    var cur :- ValueAt(k, p, count, i, left);
    var (m, _) :- ReadLazy(f, defs, v, cur, fuel);
    Ok(m)
  }

  function GetLazyValue(
    f: File, h: Hash, defs: Defs, k: LeafTy, v: Ty, n: ChunkNode, key: Leaf, fuel: nat)
    : Result<Option<Mirror>>
  {
    var found :- ShardFor(f, h, n, key);
    if found.None? then Ok(None)
    else
      var (shard, p) := found.value;
      var count := FromLE(p[..4]);
      if 8 + count * 8 > |p| then Err(BadFormat)
      else
        var target :- ScanKey(k, p, count, h(key), key, 0);
        if target.None? then Ok(None)
        else
          var kids :- Children(f, shard);
          var m :- MirrorAt(f, defs, k, v, p, count, target.value, kids, fuel);
          Ok(Some(m))
  }

  method FindKey(k: LeafTy, p: bytes, count: nat, hash: nat, key: Leaf) returns (r: Result<Option<nat>>)
    requires 8 + count * 8 <= |p|
    ensures r == ScanKey(k, p, count, hash, key, 0)
  {
    for i := 0 to count
      invariant ScanKey(k, p, count, hash, key, 0) == ScanKey(k, p, count, hash, key, i)
    {
      if HashAt(p, i) == hash {
        var data := Candidate(p, count, i);
        if data.Err? {
          return Err(data.error);
        }
        var stored := DecLeaf(k, data.value);
        if stored.Err? {
          return Err(stored.error);
        }
        if stored.value.0 == key {
          return Ok(Some(i));
        }
      }
    }
    return Ok(None);
  }

  method ReadMirror(
    f: File, defs: Defs, k: LeafTy, v: Ty, p: bytes, count: nat, target: nat, kids: seq<ChunkNode>, fuel: nat)
    returns (r: Result<Mirror>)
    ensures r == MirrorAt(f, defs, k, v, p, count, target, kids, fuel)
  {
    var left := kids;
    for i := 0 to target
      invariant Replay(f, defs, k, v, p, count, 0, target, kids, fuel)
        == Replay(f, defs, k, v, p, count, i, target, left, fuel)
    {
      var cur := ValueAt(k, p, count, i, left);
      if cur.Err? {
        return Err(cur.error);
      }
      var skipped := ReadLazy(f, defs, v, cur.value, fuel);
      if skipped.Err? {
        return Err(skipped.error);
      }
      left := skipped.value.1.kids;
    }
    var cur := ValueAt(k, p, count, target, left);
    if cur.Err? {
      return Err(cur.error);
    }
    var item := ReadLazy(f, defs, v, cur.value, fuel);
    return match item case Ok((m, _)) => Ok(m) case Err(e) => Err(e);
  }

  /** `ParcodeMapPromise::get_lazy`. */
  method GetLazy(
    f: File, h: Hash, defs: Defs, k: LeafTy, v: Ty, n: ChunkNode, key: Leaf, fuel: nat)
    returns (r: Result<Option<Mirror>>)
    ensures r == GetLazyValue(f, h, defs, k, v, n, key, fuel)
  {
    var found := ShardFor(f, h, n, key);
    if found.Err? {
      return Err(found.error);
    }
    if found.value.None? {
      return Ok(None);
    }
    var (shard, p) := found.value.value;
    var count := FromLE(p[..4]);
    if 8 + count * 8 > |p| {
      return Err(BadFormat);
    }
    var target := FindKey(k, p, count, h(key), key);
    if target.Err? {
      return Err(target.error);
    }
    if target.value.None? {
      return Ok(None);
    }
    var kids := Children(f, shard);
    if kids.Err? {
      return Err(kids.error);
    }
    var m := ReadMirror(f, defs, k, v, p, count, target.value.value, kids.value, fuel);
    return match m case Ok(found) => Ok(Some(found)) case Err(e) => Err(e);
  }

  // --- On a written shard ---

  /** The position of a key, from `i` on. */
  function PositionOf(ks: seq<Leaf>, key: Leaf, i: nat): (r: Option<nat>)
    requires i <= |ks|
    ensures r.Some? ==> i <= r.value < |ks| && ks[r.value] == key
    ensures r.None? ==> forall j :: i <= j < |ks| ==> ks[j] != key
    decreases |ks| - i
  {
    if i == |ks| then None else if ks[i] == key then Some(i) else PositionOf(ks, key, i + 1)
  }

  lemma {:induction false} FindAtPosition<T>(ks: seq<Leaf>, xs: seq<T>, key: Leaf)
    requires |ks| == |xs| && Distinct(ks)
    ensures var at := PositionOf(ks, key, 0); Find(ks, xs, key) == if at.Some? then Some(xs[at.value]) else None
  {
    var at := PositionOf(ks, key, 0);
    if at.Some? {
      assert PairIn(ks, xs, key, xs[at.value]);
      FindPair(ks, xs, key, xs[at.value]);
    } else if Find(ks, xs, key).Some? {
      FindPair(ks, xs, key, Find(ks, xs, key).value);
    }
  }

  /** Behind the key of entry `i` stand the bytes of its value, however much was left out. */
  lemma ValueStored(h: Hash, k: LeafTy, ks: seq<Leaf>, vs: seq<Obj>, p: bytes, i: nat, kids: seq<ChunkNode>)
    requires IsShard(h, ks, vs, p) && i < |ks| && LeafHas(ks[i], k)
    ensures Candidate(p, |ks|, i).Ok? && DecLeaf(k, Candidate(p, |ks|, i).value).Ok?
    ensures DecLeaf(k, Candidate(p, |ks|, i).value).value.0 == ks[i]
    ensures ValueAt(k, p, |ks|, i, kids) == Ok(Cursor(Shallow(vs[i]) + Blob(ks[i + 1..], vs[i + 1..]), kids))
  {
    var rest := Blob(ks[i + 1..], vs[i + 1..]);
    CandidateStored(h, ks, vs, p, i);
    Assoc(EncLeaf(ks[i]), Shallow(vs[i]), rest);
    DecLeafRoundTrip(ks[i], k, Shallow(vs[i]) + rest);
  }

  /** Entry `j` has the key's hash if it has the key, and starts with its key. */
  ghost predicate KeyRight(k: LeafTy, p: bytes, ks: seq<Leaf>, hash: nat, key: Leaf, j: nat)
    requires j < |ks| && 8 + |ks| * 8 <= |p|
  {
    && (ks[j] == key ==> HashAt(p, j) == hash)
    && Candidate(p, |ks|, j).Ok?
    && var d := DecLeaf(k, Candidate(p, |ks|, j).value); d.Ok? && d.value.0 == ks[j]
  }

  lemma {:induction false} ScanKeyFinds(k: LeafTy, p: bytes, ks: seq<Leaf>, hash: nat, key: Leaf, i: nat)
    requires i <= |ks| && 8 + |ks| * 8 <= |p|
    requires forall j :: 0 <= j < |ks| ==> KeyRight(k, p, ks, hash, key, j)
    ensures ScanKey(k, p, |ks|, hash, key, i) == Ok(PositionOf(ks, key, i))
    decreases |ks| - i
  {
    if i < |ks| {
      ScanKeyFinds(k, p, ks, hash, key, i + 1);
      assert KeyRight(k, p, ks, hash, key, i);
    }
  }

  lemma ScanKeyStored(
    h: Hash, defs: Defs, k: LeafTy, ty: Ty, ks: seq<Leaf>, vs: seq<Obj>, p: bytes, key: Leaf, fuel: nat)
    requires IsShard(h, ks, vs, p) && Entries(defs, k, ty, ks, vs, fuel)
    ensures FromLE(p[..4]) == |ks| && 8 + |ks| * 8 <= |p|
    ensures ScanKey(k, p, |ks|, h(key), key, 0) == Ok(PositionOf(ks, key, 0))
  {
    ShardHeader(h, ks, vs, p);
    forall j | 0 <= j < |ks|
      ensures KeyRight(k, p, ks, h(key), key, j)
    {
      ShardHash(h, ks, vs, p, j);
      ValueStored(h, k, ks, vs, p, j, []);
    }
    ScanKeyFinds(k, p, ks, h(key), key, 0);
  }

  /** Replaying entries consumes exactly the children of their values. Scalars have none, so
      the first one to be replayed is missing its child. */
  lemma {:induction false} ReplayStored(
    f: File, env: Env, defs: Defs, k: LeafTy, ty: Ty, ks: seq<Leaf>, vs: seq<Obj>, p: bytes, i: nat, end: nat,
    kids: seq<ChunkNode>, fuel: nat)
    requires env.cpus >= 1 && DefsOk(defs) && ItemTy(ty) && IsShard(env.hash, ks, vs, p) && fuel > 0
    requires Entries(defs, k, ty, ks, vs, fuel)
    requires i <= end <= |ks| && KidsHold(f, env.hash, kids, Flat(Inlined(env, vs[i..])))
    ensures var r := Replay(f, defs, k, ty, p, |ks|, i, end, kids, fuel);
      && (ty.TStruct? || i == end ==> r.Ok? && KidsHold(f, env.hash, r.value, Flat(Inlined(env, vs[end..]))))
      && (!ty.TStruct? && i < end ==> r == Err(MissingChild))
    decreases end - i
  {
    if i < end && ty.TStruct? {
      EntryReflects(f, env, defs, k, ty, ks, vs, p, i, kids, fuel);
      var cur := ValueAt(k, p, |ks|, i, kids).value;
      ReplayStored(f, env, defs, k, ty, ks, vs, p, i + 1, end, ReadLazy(f, defs, ty, cur, fuel).value.1.kids, fuel);
    } else if i < end {
      EntryChildless(f, env, defs, k, ty, ks, vs, p, i, kids, fuel);
    }
  }

  /** A scalar value has no child, and reading it lazily asks for one. */
  lemma EntryChildless(
    f: File, env: Env, defs: Defs, k: LeafTy, ty: Ty, ks: seq<Leaf>, vs: seq<Obj>, p: bytes, i: nat,
    kids: seq<ChunkNode>, fuel: nat)
    requires env.cpus >= 1 && ty.TLeaf? && IsShard(env.hash, ks, vs, p) && Entries(defs, k, ty, ks, vs, fuel)
    requires fuel > 0 && i < |ks| && KidsHold(f, env.hash, kids, Flat(Inlined(env, vs[i..])))
    ensures ValueAt(k, p, |ks|, i, kids).Ok?
    ensures ReadLazy(f, defs, ty, ValueAt(k, p, |ks|, i, kids).value, fuel) == Err(MissingChild)
  {
    ValueStored(env.hash, k, ks, vs, p, i, kids);
    NoChildren(env, defs, vs[i..], vs, ty, fuel);
  }

  lemma EntryReflects(
    f: File, env: Env, defs: Defs, k: LeafTy, ty: Ty, ks: seq<Leaf>, vs: seq<Obj>,
    p: bytes, i: nat, kids: seq<ChunkNode>, fuel: nat)
    requires env.cpus >= 1 && DefsOk(defs) && ty.TStruct?
    requires IsShard(env.hash, ks, vs, p) && Entries(defs, k, ty, ks, vs, fuel)
    requires i < |ks| && KidsHold(f, env.hash, kids, Flat(Inlined(env, vs[i..])))
    ensures ValueAt(k, p, |ks|, i, kids).Ok?
    ensures var r := ReadLazy(f, defs, ty, ValueAt(k, p, |ks|, i, kids).value, fuel);
      && r.Ok?
      && Reflects(f, env, defs, r.value.0, vs[i], ty, NO_CONFIG)
      && KidsHold(f, env.hash, r.value.1.kids, Flat(Inlined(env, vs[i + 1..])))
  {
    ValueStored(env.hash, k, ks, vs, p, i, kids);
    assert vs[i..][1..] == vs[i + 1..];
    ReadReflects(f, env, defs, vs[i], ty, NO_CONFIG, Blob(ks[i + 1..], vs[i + 1..]),
      kids, Flat(Inlined(env, vs[i + 1..])), fuel);
    KidsSplit(f, env.hash, kids, InlinedTrees(env, vs[i]), Flat(Inlined(env, vs[i + 1..])));
  }

  lemma MirrorStored(
    f: File, env: Env, defs: Defs, k: LeafTy, ty: Ty, ks: seq<Leaf>, vs: seq<Obj>, p: bytes, i: nat,
    kids: seq<ChunkNode>, fuel: nat)
    requires env.cpus >= 1 && DefsOk(defs) && ItemTy(ty) && IsShard(env.hash, ks, vs, p) && fuel > 0
    requires Entries(defs, k, ty, ks, vs, fuel)
    requires i < |ks| && KidsHold(f, env.hash, kids, Flat(Inlined(env, vs)))
    ensures var r := MirrorAt(f, defs, k, ty, p, |ks|, i, kids, fuel);
      if ty.TStruct? then r.Ok? && Reflects(f, env, defs, r.value, vs[i], ty, NO_CONFIG) else r == Err(MissingChild)
  {
    assert vs[0..] == vs;
    ReplayStored(f, env, defs, k, ty, ks, vs, p, 0, i, kids, fuel);
    var left := Replay(f, defs, k, ty, p, |ks|, 0, i, kids, fuel);
    if ty.TStruct? {
      EntryReflects(f, env, defs, k, ty, ks, vs, p, i, left.value, fuel);
    } else if left.Ok? {
      EntryChildless(f, env, defs, k, ty, ks, vs, p, i, left.value, fuel);
    }
  }

  // --- On a stored map ---

  /** Of a map of structs, a present key gives a mirror of that key's own value, however many
      values stand before it in its shard and whatever remote fields they have. Of a map of
      scalars it gives an error for every present key. An absent key is absent in both. */
  lemma GetLazyStored(
    f: File, env: Env, defs: Defs, k: LeafTy, ty: Ty, n: ChunkNode, ks: seq<Leaf>,
    vs: seq<Obj>, cid: nat, fuel: nat, key: Leaf)
    requires env.cpus >= 1 && DefsOk(defs) && ItemTy(ty) && ks != [] && |ks| == |vs|
    requires MapStored(f, env.hash, defs, k, ty, n, ks, vs, Inlined(env, vs), cid, fuel)
    ensures RightAnswer(f, env, defs, ty, GetLazyValue(f, env.hash, defs, k, ty, n, key, fuel), Find(ks, vs, key))
  {
    assert Depth(vs[0]) <= fuel;
    FindInBucket(env.hash, ks, vs, key);
    PickDistinct(env.hash, NumShards(|ks|), BucketOf(env.hash, ks, key), ks);
    ShardFound(f, env.hash, defs, k, ty, n, ks, vs, Inlined(env, vs), cid, fuel, key);
    ShardKids(f, env, ks, vs, cid, ChildAt(f, n, BucketOf(env.hash, ks, key)).value, key);
    InBucket(f, env, defs, k, ty, n, BucketKeys(env.hash, ks, key), BucketVals(env.hash, ks, vs, key),
             ChildAt(f, n, BucketOf(env.hash, ks, key)).value, fuel, key);
  }

  /** The right answer to a lazy lookup for what is wanted; there is no mirror of a scalar. */
  ghost predicate RightAnswer(f: File, env: Env, defs: Defs, ty: Ty, r: Result<Option<Mirror>>, want: Option<Obj>)
    requires env.cpus >= 1
  {
    && (want.None? ==> r == Ok(None))
    && (want.Some? ==>
          if ty.TStruct? then r.Ok? && r.value.Some? && Reflects(f, env, defs, r.value.value, want.value, ty, NO_CONFIG)
          else r == Err(MissingChild))
  }

  lemma ShardKids(f: File, env: Env, ks: seq<Leaf>, vs: seq<Obj>, cid: nat, shard: ChunkNode, key: Leaf)
    requires env.cpus >= 1 && 0 < |ks| == |vs|
    requires StoredAt(f, env.hash, shard,
      MapShard(env.hash, ks, vs, Inlined(env, vs), NumShards(|ks|), BucketOf(env.hash, ks, key), cid))
    ensures Children(f, shard).Ok?
    ensures KidsHold(f, env.hash, Children(f, shard).value, Flat(Inlined(env, BucketVals(env.hash, ks, vs, key))))
  {
    Visitor.PickInlined(env, NumShards(|ks|), BucketOf(env.hash, ks, key), ks, vs);
    OpenRead(f, env.hash, shard,
      MapShard(env.hash, ks, vs, Inlined(env, vs), NumShards(|ks|), BucketOf(env.hash, ks, key), cid));
  }

  lemma InBucket(
    f: File, env: Env, defs: Defs, k: LeafTy, ty: Ty, n: ChunkNode, bk: seq<Leaf>,
    bv: seq<Obj>, shard: ChunkNode, fuel: nat, key: Leaf)
    requires env.cpus >= 1 && DefsOk(defs) && ItemTy(ty) && fuel > 0
    requires Entries(defs, k, ty, bk, bv, fuel) && Distinct(bk)
    requires var p := MapShardBytes(env.hash, bk, bv);
      p.Ok? && ShardFor(f, env.hash, n, key) == Ok(if |p.value| < 8 then None else Some((shard, p.value)))
    requires Children(f, shard).Ok? && KidsHold(f, env.hash, Children(f, shard).value, Flat(Inlined(env, bv)))
    ensures RightAnswer(f, env, defs, ty, GetLazyValue(f, env.hash, defs, k, ty, n, key, fuel), Find(bk, bv, key))
  {
    ShardSize(env.hash, bk, bv);
    if bk != [] {
      InShard(f, env, defs, k, ty, n, bk, bv, shard, MapShardBytes(env.hash, bk, bv).value, fuel, key);
    }
  }

  lemma InShard(
    f: File, env: Env, defs: Defs, k: LeafTy, ty: Ty, n: ChunkNode, bk: seq<Leaf>,
    bv: seq<Obj>, shard: ChunkNode, p: bytes, fuel: nat, key: Leaf)
    requires env.cpus >= 1 && DefsOk(defs) && ItemTy(ty) && fuel > 0 && IsShard(env.hash, bk, bv, p)
    requires Entries(defs, k, ty, bk, bv, fuel) && Distinct(bk)
    requires ShardFor(f, env.hash, n, key) == Ok(Some((shard, p)))
    requires Children(f, shard).Ok? && KidsHold(f, env.hash, Children(f, shard).value, Flat(Inlined(env, bv)))
    ensures RightAnswer(f, env, defs, ty, GetLazyValue(f, env.hash, defs, k, ty, n, key, fuel), Find(bk, bv, key))
  {
    ScanKeyStored(env.hash, defs, k, ty, bk, bv, p, key, fuel);
    FindAtPosition(bk, bv, key);
    var at := PositionOf(bk, key, 0);
    if at.Some? {
      MirrorStored(f, env, defs, k, ty, bk, bv, p, at.value, Children(f, shard).value, fuel);
    }
  }

  lemma FindsIt<T>(ks: seq<Leaf>, xs: seq<T>, i: nat)
    requires |ks| == |xs| && Distinct(ks) && i < |ks|
    ensures Find(ks, xs, ks[i]) == Some(xs[i])
  {
    assert PairIn(ks, xs, ks[i], xs[i]);
    FindPair(ks, xs, ks[i], xs[i]);
  }

  /** `get_lazy` of a present key works exactly on maps of structs. */
  lemma GetLazyExact(
    f: File, env: Env, defs: Defs, k: LeafTy, ty: Ty, n: ChunkNode, ks: seq<Leaf>,
    vs: seq<Obj>, cid: nat, fuel: nat, key: Leaf)
    requires env.cpus >= 1 && DefsOk(defs) && ItemTy(ty) && ks != [] && |ks| == |vs|
    requires MapStored(f, env.hash, defs, k, ty, n, ks, vs, Inlined(env, vs), cid, fuel)
    ensures var r := GetLazyValue(f, env.hash, defs, k, ty, n, key, fuel);
      && (key !in ks ==> r == Ok(None))
      && (key in ks ==> (r.Ok? <==> ty.TStruct?) && (r.Ok? ==> r.value.Some?) && (r.Err? ==> r == Err(MissingChild)))
  {
    GetLazyStored(f, env, defs, k, ty, n, ks, vs, cid, fuel, key);
    if key in ks {
      var i :| 0 <= i < |ks| && ks[i] == key;
      FindsIt(ks, vs, i);
    } else if Find(ks, vs, key).Some? {
      FindPair(ks, vs, key, Find(ks, vs, key).value);
    }
  }

  /** So a lazy lookup answers for values with remote fields too, which `get` cannot: the
      mirror of a present key materialises to its value exactly if that value lazily loads. */
  lemma GetLazyMaterializes(
    f: File, env: Env, defs: Defs, k: LeafTy, ty: Ty, n: ChunkNode,
    ks: seq<Leaf>, vs: seq<Obj>, cid: nat, fuel: nat, i: nat)
    requires env.cpus >= 1 && DefsOk(defs) && ItemTy(ty) && i < |ks| == |vs|
    requires MapStored(f, env.hash, defs, k, ty, n, ks, vs, Inlined(env, vs), cid, fuel)
    ensures var r := GetLazyValue(f, env.hash, defs, k, ty, n, ks[i], fuel);
      && (ty.TLeaf? ==> r == Err(MissingChild))
      && (ty.TStruct? ==>
            && r.Ok? && r.value.Some?
            && (Materialize(f, defs, r.value.value, fuel) == Ok(ValueOf(vs[i])) <==> LazyLoads(vs[i], NO_CONFIG)))
  {
    GetLazyStored(f, env, defs, k, ty, n, ks, vs, cid, fuel, ks[i]);
    FindsIt(ks, vs, i);
    if ty.TStruct? {
      var m := GetLazyValue(f, env.hash, defs, k, ty, n, ks[i], fuel).value.value;
      MaterializeBack(f, env, defs, m, vs[i], ty, NO_CONFIG, fuel);
    }
  }

  /** On an empty map `get_lazy` divides by zero, as `get` does. */
  lemma GetLazyOnEmpty(
    f: File, env: Env, o: Obj, at: Attr, defs: Defs, k: LeafTy, ty: Ty, n: ChunkNode, key: Leaf, fuel: nat)
    requires env.cpus >= 1 && o.OMap? && o.keys == [] && o.vals == [] && StoredAt(f, env.hash, n, TreeOf(env, o, at))
    ensures GetLazyValue(f, env.hash, defs, k, ty, n, key, fuel) == Err(DivideByZero)
  {
    EmptyShardFor(f, env, o, at, n, key);
  }
}
