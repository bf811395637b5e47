/** Eager reading of a stored tree gives the object back exactly when it loads. */
module ReadBack {
  import opened Wrappers
  import opened Bytes
  import opened Format
  import opened Values
  import opened Bincode
  import opened Sharding
  import opened Jobs
  import opened Trees
  import opened Stored
  import opened Reader
  import opened Loadable
  import MapBack
  import Visitor
  import opened EncodingBounds

  /** A reader delivers the wanted value, leaving `rest`, if and only if `good` holds. */
  ghost predicate Delivers<V, R>(r: Result<(V, R)>, want: V, rest: R, good: bool) {
    && (good ==> r == Ok((want, rest)))
    && (r.Ok? && r.value.0 == want ==> good)
  }

  // --- Remote fields ---

  /** Remote fields take one child each, in order, and leave the others alone. */
  lemma {:induction false} RemotesBack(
    f: File, env: Env, defs: Defs, fs: seq<Obj>, tys: seq<Ty>, attrs: seq<Option<Attr>>,
    kids: seq<ChunkNode>, more: seq<Tree>, fuel: nat)
    requires env.cpus >= 1 && DefsOk(defs) && AllHave(defs, fs, tys) && FieldsOk(tys, attrs) && Within(fs, fuel)
    requires KidsHold(f, env.hash, kids, RemoteTrees(env, fs, attrs) + more)
    ensures var r := ReadRemotes(f, defs, tys, attrs, kids, fuel);
      && Delivers(r, RemoteValues(fs, attrs), kids[|RemoteTrees(env, fs, attrs)|..], RemotesLoad(fs, attrs))
      && (r.Ok? ==> |r.value.0| == |RemoteValues(fs, attrs)|)
    decreases fs, 0
  {
    if fs == [] {
      assert kids[0..] == kids;
    } else if attrs[0].None? {
      assert [] + RemoteTrees(env, fs[1..], attrs[1..]) == RemoteTrees(env, fs[1..], attrs[1..]);
      assert [] + RemoteValues(fs[1..], attrs[1..]) == RemoteValues(fs[1..], attrs[1..]);
      RemotesBack(f, env, defs, fs[1..], tys[1..], attrs[1..], kids, more, fuel);
    } else {
      var t, ts := TreeOf(env, fs[0], attrs[0].value), RemoteTrees(env, fs[1..], attrs[1..]);
      Assoc([t], ts, more);
      MapBack.KidsTail(f, env.hash, kids, t, ts + more);
      NodeBack(f, env, defs, fs[0], tys[0], attrs[0].value, kids[0], fuel);
      RemotesBack(f, env, defs, fs[1..], tys[1..], attrs[1..], kids[1..], more, fuel);
      RemoteStep(f, defs, fs, tys, attrs, kids, |ts|, fuel);
    }
  }

  lemma RemoteStep(
    f: File, defs: Defs, fs: seq<Obj>, tys: seq<Ty>, attrs: seq<Option<Attr>>,
    kids: seq<ChunkNode>, later: nat, fuel: nat)
    requires 0 < |fs| == |tys| == |attrs| && attrs[0].Some? && |kids| >= 1 + later
    requires FromNode(f, defs, kids[0], tys[0], fuel) == Ok(ValueOf(fs[0])) <==> Loads(fs[0], attrs[0].value)
    requires var r := ReadRemotes(f, defs, tys[1..], attrs[1..], kids[1..], fuel);
      && Delivers(r, RemoteValues(fs[1..], attrs[1..]), kids[1..][later..], RemotesLoad(fs[1..], attrs[1..]))
      && (r.Ok? ==> |r.value.0| == |RemoteValues(fs[1..], attrs[1..])|)
    ensures var r := ReadRemotes(f, defs, tys, attrs, kids, fuel);
      && Delivers(r, RemoteValues(fs, attrs), kids[1 + later..], RemotesLoad(fs, attrs))
      && (r.Ok? ==> |r.value.0| == |RemoteValues(fs, attrs)|)
  {
    var first := FromNode(f, defs, kids[0], tys[0], fuel);
    var next := ReadRemotes(f, defs, tys[1..], attrs[1..], kids[1..], fuel);
    if first.Ok? && next.Ok? {
      SameTail(first.value, next.value.0, ValueOf(fs[0]), RemoteValues(fs[1..], attrs[1..]));
    }
    assert kids[1..][later..] == kids[1 + later..];
  }

  // --- Items of a shard ---

  predicate ItemTy(ty: Ty) {
    ty.TLeaf? || ty.TStruct?
  }

  /** An item takes exactly the bytes and the children that it contributed to its shard. */
  lemma {:induction false} ItemBack(
    f: File, env: Env, defs: Defs, o: Obj, ty: Ty, rest: bytes, kids: seq<ChunkNode>, more: seq<Tree>, fuel: nat)
    requires env.cpus >= 1 && DefsOk(defs) && HasType(defs, o, ty) && ItemTy(ty) && fuel >= Depth(o)
    requires KidsHold(f, env.hash, kids, InlinedTrees(env, o) + more)
    ensures Delivers(ReadItem(f, defs, ty, Cursor(Shallow(o) + rest, kids), fuel),
                     ValueOf(o), Cursor(rest, kids[|InlinedTrees(env, o)|..]), ItemLoads(o))
    decreases o, 1
  {
    if o.OStruct? {
      FieldsBack(f, env, defs, o, ty, rest, kids, more, fuel);
      StructStep(f, defs, o.fields, ty.id, rest, kids, |RemoteTrees(env, o.fields, o.attrs)|, fuel);
    } else {
      DecLeafRoundTrip(o.leaf, ty.k, rest);
      assert kids[0..] == kids;
    }
  }

  lemma FieldsBack(
    f: File, env: Env, defs: Defs, o: Obj, ty: Ty, rest: bytes, kids: seq<ChunkNode>, more: seq<Tree>, fuel: nat)
    requires env.cpus >= 1 && DefsOk(defs) && HasType(defs, o, ty) && o.OStruct? && fuel >= Depth(o)
    requires KidsHold(f, env.hash, kids, RemoteTrees(env, o.fields, o.attrs) + more)
    ensures ReadLocals(defs, defs[ty.id].tys, o.attrs, EncLocals(o.fields, o.attrs) + rest, fuel - 1)
         == Ok((LocalValues(o.fields, o.attrs), rest))
    ensures var r := ReadRemotes(f, defs, defs[ty.id].tys, o.attrs, kids, fuel - 1);
      && Delivers(r, RemoteValues(o.fields, o.attrs), kids[|RemoteTrees(env, o.fields, o.attrs)|..],
        RemotesLoad(o.fields, o.attrs))
      && (r.Ok? ==> |r.value.0| == |RemoteValues(o.fields, o.attrs)|)
    decreases o, 0
  {
    assert DefOk(defs[ty.id]);
    DepthAllWithin(o.fields, fuel - 1);
    LocalsRead(defs, o.fields, defs[ty.id].tys, o.attrs, rest, fuel - 1);
    RemotesBack(f, env, defs, o.fields, defs[ty.id].tys, o.attrs, kids, more, fuel - 1);
  }

  lemma StructStep(f: File, defs: Defs, fs: seq<Obj>, id: nat, rest: bytes, kids: seq<ChunkNode>, taken: nat, fuel: nat)
    requires id < |defs| && |defs[id].attrs| == |fs| && fuel > 0 && taken <= |kids|
    requires ReadLocals(defs, defs[id].tys, defs[id].attrs, EncLocals(fs, defs[id].attrs) + rest, fuel - 1)
          == Ok((LocalValues(fs, defs[id].attrs), rest))
    requires var r := ReadRemotes(f, defs, defs[id].tys, defs[id].attrs, kids, fuel - 1);
      && Delivers(r, RemoteValues(fs, defs[id].attrs), kids[taken..], RemotesLoad(fs, defs[id].attrs))
      && (r.Ok? ==> |r.value.0| == |RemoteValues(fs, defs[id].attrs)|)
    ensures Delivers(ReadItem(f, defs, TStruct(id), Cursor(EncLocals(fs, defs[id].attrs) + rest, kids), fuel),
                     VStruct(ValuesOf(fs)), Cursor(rest, kids[taken..]), RemotesLoad(fs, defs[id].attrs))
  {
    var r := ReadRemotes(f, defs, defs[id].tys, defs[id].attrs, kids, fuel - 1);
    if r.Ok? {
      MergeValues(fs, defs[id].attrs, r.value.0);
    }
  }

  ghost predicate AllItemsLoad(os: seq<Obj>) {
    forall i :: 0 <= i < |os| ==> ItemLoads(os[i])
  }

  /** The elements of `os` are elements of `whole`, and of type `e`. */
  ghost predicate ItemsOf(defs: Defs, os: seq<Obj>, whole: seq<Obj>, e: Ty, fuel: nat) {
    forall i :: 0 <= i < |os| ==> os[i] in whole && HasType(defs, os[i], e) && Depth(os[i]) <= fuel
  }

  /** Byte cursor and child iterator stay in step, item by item, to the end of the shard. */
  lemma {:induction false} ItemsBack(
    f: File, env: Env, defs: Defs, e: Ty, whole: seq<Obj>, os: seq<Obj>, rest: bytes,
    kids: seq<ChunkNode>, more: seq<Tree>, fuel: nat)
    requires env.cpus >= 1 && DefsOk(defs) && ItemTy(e) && ItemsOf(defs, os, whole, e, fuel)
    requires KidsHold(f, env.hash, kids, Flat(Inlined(env, os)) + more)
    ensures Delivers(ReadItems(f, defs, e, |os|, Cursor(ShallowAll(os) + rest, kids), fuel),
                     ValuesOf(os), Cursor(rest, kids[|Flat(Inlined(env, os))|..]), AllItemsLoad(os))
    decreases whole, 1, |os|
  {
    if os == [] {
      assert ShallowAll(os) + rest == rest && kids[0..] == kids;
    } else {
      var mine, later := InlinedTrees(env, os[0]), Flat(Inlined(env, os[1..]));
      assert os[0] in whole;
      Assoc(mine, later, more);
      Assoc(Shallow(os[0]), ShallowAll(os[1..]), rest);
      KidsSplit(f, env.hash, kids, mine, later + more);
      ItemBack(f, env, defs, os[0], e, ShallowAll(os[1..]) + rest, kids, later + more, fuel);
      ItemsBack(f, env, defs, e, whole, os[1..], rest, kids[|mine|..], more, fuel);
      SliceRest(kids, |mine|, |later|, |Flat(Inlined(env, os))|);
      ItemsStep(f, defs, e, os, |os[1..]|, ShallowAll(os) + rest, ShallowAll(os[1..]) + rest, rest,
                kids, kids[|mine|..], kids[|mine|..][|later|..], fuel);
    }
  }

  lemma SliceRest<T>(s: seq<T>, a: nat, b: nat, c: nat)
    requires c == a + b <= |s|
    ensures s[a..][b..] == s[c..]
  {
  }

  lemma ItemsStep(
    f: File, defs: Defs, e: Ty, os: seq<Obj>, less: nat, all: bytes, next: bytes, rest: bytes,
    kids: seq<ChunkNode>, mid: seq<ChunkNode>, last: seq<ChunkNode>, fuel: nat)
    requires |os| == less + 1
    requires Delivers(ReadItem(f, defs, e, Cursor(all, kids), fuel),
                      ValueOf(os[0]), Cursor(next, mid), ItemLoads(os[0]))
    requires Delivers(ReadItems(f, defs, e, less, Cursor(next, mid), fuel),
                      ValuesOf(os[1..]), Cursor(rest, last), AllItemsLoad(os[1..]))
    ensures Delivers(ReadItems(f, defs, e, |os|, Cursor(all, kids), fuel),
                     ValuesOf(os), Cursor(rest, last), AllItemsLoad(os))
  {
    AllItemsLoadCons(os);
    var first := ReadItem(f, defs, e, Cursor(all, kids), fuel);
    if first.Ok? {
      var tail := ReadItems(f, defs, e, less, first.value.1, fuel);
      if tail.Ok? {
        SameTail(first.value.0, tail.value.0, ValueOf(os[0]), ValuesOf(os[1..]));
      }
    }
  }

  /** At the end of a shard both the bytes and the children are used up. */
  lemma ShardExhausted(
    f: File, env: Env, defs: Defs, e: Ty, whole: seq<Obj>, os: seq<Obj>, kids: seq<ChunkNode>, fuel: nat)
    requires env.cpus >= 1 && DefsOk(defs) && ItemTy(e) && ItemsOf(defs, os, whole, e, fuel) && AllItemsLoad(os)
    requires KidsHold(f, env.hash, kids, Flat(Inlined(env, os)))
    ensures ReadItems(f, defs, e, |os|, Cursor(ShallowAll(os), kids), fuel) == Ok((ValuesOf(os), Cursor([], [])))
  {
    assert ShallowAll(os) + [] == ShallowAll(os);
    assert Flat(Inlined(env, os)) + [] == Flat(Inlined(env, os));
    ItemsBack(f, env, defs, e, whole, os, [], kids, [], fuel);
    assert kids[|kids|..] == [];
  }

  lemma AllItemsLoadCons(os: seq<Obj>)
    requires os != []
    ensures AllItemsLoad(os) <==> ItemLoads(os[0]) && AllItemsLoad(os[1..])
  {
    if AllItemsLoad(os[1..]) && ItemLoads(os[0]) {
      forall i | 0 <= i < |os|
        ensures ItemLoads(os[i])
      {
        assert i > 0 ==> os[i] == os[1..][i - 1];
      }
    }
  }

  // --- Vectors ---

  lemma SliceBack(
    f: File, env: Env, defs: Defs, e: Ty, whole: seq<Obj>, os: seq<Obj>, shard: ChunkNode, cid: nat, fuel: nat)
    requires env.cpus >= 1 && DefsOk(defs) && ItemTy(e) && ItemsOf(defs, os, whole, e, fuel) && |os| < U64
    requires StoredAt(f, env.hash, shard, Tree(VecShardJob(os), cid, Flat(Inlined(env, os))))
    ensures ReadExactly(f, defs, e, shard, |os|, fuel) == Ok(ValuesOf(os)) <==> AllItemsLoad(os)
    ensures AllItemsLoad(os) ==> ReadShard(f, defs, e, shard, fuel) == Ok(ValuesOf(os))
    decreases whole, 2
  {
    var t := Tree(VecShardJob(os), cid, Flat(Inlined(env, os)));
    OpenRead(f, env.hash, shard, t);
    DecUintRoundTrip(|os|, ShallowAll(os), true);
    assert ShallowAll(os) + [] == ShallowAll(os);
    assert t.children + [] == t.children;
    ItemsBack(f, env, defs, e, whole, os, [], Open(f, shard).value.kids, [], fuel);
  }

  lemma {:induction false} VecShardsBack(
    f: File, env: Env, defs: Defs, e: Ty, whole: seq<Obj>, os: seq<Obj>, k: nat, cid: nat,
    n: ChunkNode, t: Tree, idx: nat, fuel: nat)
    requires env.cpus >= 1 && k >= 1 && DefsOk(defs) && ItemTy(e) && ItemsOf(defs, os, whole, e, fuel) && |os| < U64
    requires StoredAt(f, env.hash, n, t) && idx <= |t.children|
    requires t.children[idx..] == VecShards(os, Inlined(env, os), k, cid)
    ensures DecodeShards(f, defs, e, n, idx, ChunkLens(|os|, k), fuel) == Ok(ValuesOf(os)) <==> AllItemsLoad(os)
    decreases whole, 3, |os|
  {
    if os != [] {
      VecHead(f, env, defs, e, whole, os, k, Min(k, |os|), cid, n, t, idx, fuel);
      VecShardsBack(f, env, defs, e, whole, os[Min(k, |os|)..], k, cid, n, t, idx + 1, fuel);
      DecodeShardsStep(f, defs, e, n, idx, ChunkLens(|os|, k), fuel);
      BothBack(os, Min(k, |os|), ReadExactly(f, defs, e, ChildAt(f, n, idx).value, Min(k, |os|), fuel),
               DecodeShards(f, defs, e, n, idx + 1, ChunkLens(|os| - Min(k, |os|), k), fuel));
    }
  }

  /** The first shard reads back as its items do, and the others hold the other items. */
  lemma VecHead(
    f: File, env: Env, defs: Defs, e: Ty, whole: seq<Obj>, os: seq<Obj>, k: nat, m: nat, cid: nat,
    n: ChunkNode, t: Tree, idx: nat, fuel: nat)
    requires env.cpus >= 1 && k >= 1 && DefsOk(defs) && ItemTy(e) && ItemsOf(defs, os, whole, e, fuel) && 0 < |os| < U64
    requires StoredAt(f, env.hash, n, t) && idx <= |t.children| && m == Min(k, |os|)
    requires t.children[idx..] == VecShards(os, Inlined(env, os), k, cid)
    ensures idx < |t.children| && t.children[idx + 1..] == VecShards(os[m..], Inlined(env, os[m..]), k, cid)
    ensures ItemsOf(defs, os[m..], whole, e, fuel) && ChildAt(f, n, idx).Ok?
    ensures ReadExactly(f, defs, e, ChildAt(f, n, idx).value, m, fuel) == Ok(ValuesOf(os[..m]))
      <==> AllItemsLoad(os[..m])
    decreases whole, 3, 0
  {
    Visitor.InlinedSplit(env, os, m);
    FirstChild(t.children, idx, Tree(VecShardJob(os[..m]), cid, Flat(Inlined(env, os[..m]))),
               VecShards(os[m..], Inlined(env, os[m..]), k, cid));
    ItemsOfSlices(defs, os, m, whole, e, fuel);
    SliceBack(f, env, defs, e, whole, os[..m], ChildAt(f, n, idx).value, cid, fuel);
  }

  lemma FirstChild(ts: seq<Tree>, idx: nat, t: Tree, rest: seq<Tree>)
    requires idx <= |ts| && ts[idx..] == [t] + rest
    ensures idx < |ts| && ts[idx] == t && ts[idx + 1..] == rest
  {
    assert ts[idx] == ts[idx..][0] && ts[idx + 1..] == ts[idx..][1..];
  }

  lemma ItemsOfSlices(defs: Defs, os: seq<Obj>, m: nat, whole: seq<Obj>, e: Ty, fuel: nat)
    requires ItemsOf(defs, os, whole, e, fuel) && m <= |os|
    ensures ItemsOf(defs, os[..m], whole, e, fuel) && ItemsOf(defs, os[m..], whole, e, fuel)
  {
  }

  function Joined(a: Result<seq<Value>>, b: Result<seq<Value>>): Result<seq<Value>> {
    if a.Err? then a else if b.Err? then b else Ok(a.value + b.value)
  }

  lemma DecodeShardsStep(f: File, defs: Defs, e: Ty, n: ChunkNode, idx: nat, lens: seq<nat>, fuel: nat)
    requires lens != [] && ChildAt(f, n, idx).Ok?
    ensures DecodeShards(f, defs, e, n, idx, lens, fuel)
         == Joined(
              ReadExactly(f, defs, e, ChildAt(f, n, idx).value, lens[0], fuel),
              DecodeShards(f, defs, e, n, idx + 1, lens[1..], fuel))
  {
  }

  lemma BothBack(os: seq<Obj>, m: nat, ra: Result<seq<Value>>, rb: Result<seq<Value>>)
    requires m <= |os| && (ra.Ok? ==> |ra.value| == m)
    requires ra == Ok(ValuesOf(os[..m])) <==> AllItemsLoad(os[..m])
    requires rb == Ok(ValuesOf(os[m..])) <==> AllItemsLoad(os[m..])
    ensures Joined(ra, rb) == Ok(ValuesOf(os)) <==> AllItemsLoad(os)
  {
    assert os == os[..m] + os[m..];
    ValuesAppend(os[..m], os[m..]);
    AllItemsLoadAppend(os[..m], os[m..]);
    if ra.Ok? && rb.Ok? {
      SameParts(ra.value, rb.value, ValuesOf(os[..m]), ValuesOf(os[m..]));
    }
  }

  lemma AllItemsLoadAppend(a: seq<Obj>, b: seq<Obj>)
    ensures AllItemsLoad(a + b) <==> AllItemsLoad(a) && AllItemsLoad(b)
  {
    if AllItemsLoad(a + b) {
      forall i | 0 <= i < |a|
        ensures ItemLoads(a[i])
      {
        assert (a + b)[i] == a[i];
      }
      forall i | 0 <= i < |b|
        ensures ItemLoads(b[i])
      {
        assert (a + b)[|a| + i] == b[i];
      }
    }
  }

  // --- The container of a vector ---

  lemma ShardLenSmall(env: Env, items: seq<Obj>)
    requires env.cpus >= 1
    ensures ShardLen(env, items) <= TARGET_SHARD_SIZE_BYTES
  {
  }

  /** The container's header, read back: the item count and the shard lengths. */
  lemma HeaderBack(total: nat, k: nat)
    requires 1 <= k < U32 && total < U64 && |ChunkLens(total, k)| < U32
    ensures var p := LE(total, 8) + EncRuns(Rle(ChunkLens(total, k)));
      && |p| > 8
      && FromLE(p[..8]) == total
      && ReadRuns(p) == Ok(Rle(ChunkLens(total, k)))
      && Expand(Rle(ChunkLens(total, k))) == ChunkLens(total, k)
      && Sum(ChunkLens(total, k)) == total
  {
    var lens := ChunkLens(total, k);
    Widths();
    LEPrefix(total, 8, EncRuns(Rle(lens)));
    ChunkLensSum(total, k);
    ExpandRle(lens);
    if lens != [] {
      RleFits([], ShardRun(Sat32(lens[0]), 0), lens);
    }
    DecRunsRoundTrip(Rle(lens));
  }

  lemma VecBack(f: File, env: Env, defs: Defs, items: seq<Obj>, e: Ty, cid: nat, n: ChunkNode, fuel: nat)
    requires env.cpus >= 1 && DefsOk(defs) && ItemTy(e) && ItemsOf(defs, items, items, e, fuel) && |items| < U64
    requires StoredAt(f, env.hash, n, VecTree(items, Inlined(env, items), ShardLen(env, items), cid))
    ensures DecodeCollection(f, defs, e, n, fuel) == Ok(ValuesOf(items)) <==> AllItemsLoad(items)
    decreases items, 4
  {
    var k := ShardLen(env, items);
    var t := VecTree(items, Inlined(env, items), k, cid);
    assert t.children[0..] == VecShards(items, Inlined(env, items), k, cid);
    ShardLenSmall(env, items);
    VecShardsBack(f, env, defs, e, items, items, k, cid, n, t, 0, fuel);
    HeaderBack(|items|, k);
    CollectionFrom(f, defs, e, n, ChunkLens(|items|, k), fuel);
  }

  lemma CollectionFrom(f: File, defs: Defs, e: Ty, n: ChunkNode, lens: seq<nat>, fuel: nat)
    requires ReadRaw(f, n).Ok?
    requires var p := ReadRaw(f, n).value;
      && |p| > 8
      && FromLE(p[..8]) == Sum(lens) < U64
      && ReadRuns(p).Ok?
      && Expand(ReadRuns(p).value) == lens
    ensures DecodeCollection(f, defs, e, n, fuel) == DecodeShards(f, defs, e, n, 0, lens, fuel)
  {
  }

  // --- Any object ---

  /** Whatever the object, its type and its place: reading its stored tree gives its value
      back if and only if it loads. */
  lemma {:induction false} NodeBack(f: File, env: Env, defs: Defs, o: Obj, ty: Ty, at: Attr, n: ChunkNode, fuel: nat)
    requires env.cpus >= 1 && DefsOk(defs) && HasType(defs, o, ty) && NodeTy(ty) && fuel >= Depth(o)
    requires StoredAt(f, env.hash, n, TreeOf(env, o, at))
    ensures FromNode(f, defs, n, ty, fuel) == Ok(ValueOf(o)) <==> Loads(o, at)
    decreases o, 3
  {
    match o
    case OLeaf(_) => LeafBack(f, env, defs, o, ty, at, n, fuel);
    case OStruct(_, _) => StructBack(f, env, defs, o, ty, at, n, fuel);
    case OVec(_) => VecBackAt(f, env, defs, o, ty, at, n, fuel);
    case OMap(_, _) => MapBackAt(f, env, defs, o, ty, at, n, fuel);
  }

  lemma LeafBack(f: File, env: Env, defs: Defs, o: Obj, ty: Ty, at: Attr, n: ChunkNode, fuel: nat)
    requires env.cpus >= 1 && o.OLeaf? && HasType(defs, o, ty) && fuel >= Depth(o)
    requires StoredAt(f, env.hash, n, TreeOf(env, o, at))
    ensures FromNode(f, defs, n, ty, fuel) == Ok(ValueOf(o))
  {
    DecLeafRoundTrip(o.leaf, ty.k, []);
    assert EncLeaf(o.leaf) + [] == EncLeaf(o.leaf);
  }

  lemma VecBackAt(f: File, env: Env, defs: Defs, o: Obj, ty: Ty, at: Attr, n: ChunkNode, fuel: nat)
    requires env.cpus >= 1 && DefsOk(defs) && o.OVec? && HasType(defs, o, ty) && NodeTy(ty) && fuel >= Depth(o)
    requires StoredAt(f, env.hash, n, TreeOf(env, o, at))
    ensures FromNode(f, defs, n, ty, fuel) == Ok(ValueOf(o)) <==> Loads(o, at)
    decreases o, 2
  {
    VecParts(env, defs, o, ty, at, fuel);
    VecBack(f, env, defs, o.items, ty.elem, at.cid, n, fuel - 1);
    FromVec(f, defs, o, ty, n, fuel);
  }

  lemma VecParts(env: Env, defs: Defs, o: Obj, ty: Ty, at: Attr, fuel: nat)
    requires env.cpus >= 1 && o.OVec? && HasType(defs, o, ty) && NodeTy(ty) && fuel >= Depth(o)
    ensures ItemTy(ty.elem) && fuel > 0 && |o.items| < U64 && ItemsOf(defs, o.items, o.items, ty.elem, fuel - 1)
    ensures TreeOf(env, o, at) == VecTree(o.items, Inlined(env, o.items), ShardLen(env, o.items), at.cid)
    ensures Loads(o, at) <==> AllItemsLoad(o.items)
  {
    VecItems(defs, o.items, ty.elem, fuel - 1);
  }

  lemma FromVec(f: File, defs: Defs, o: Obj, ty: Ty, n: ChunkNode, fuel: nat)
    requires fuel > 0 && ty.TVec? && o.OVec?
    ensures FromNode(f, defs, n, ty, fuel) == Ok(ValueOf(o))
      <==> DecodeCollection(f, defs, ty.elem, n, fuel - 1) == Ok(ValuesOf(o.items))
  {
  }

  lemma VecItems(defs: Defs, items: seq<Obj>, e: Ty, fuel: nat)
    requires AllHave(defs, items, Repeat(e, |items|)) && DepthAll(items) <= fuel
    ensures ItemsOf(defs, items, items, e, fuel)
  {
    DepthAllWithin(items, fuel);
    forall i | 0 <= i < |items|
      ensures items[i] in items && HasType(defs, items[i], e) && Depth(items[i]) <= fuel
    {
      assert Repeat(e, |items|)[i] == e;
    }
  }

  lemma StructBack(f: File, env: Env, defs: Defs, o: Obj, ty: Ty, at: Attr, n: ChunkNode, fuel: nat)
    requires env.cpus >= 1 && DefsOk(defs) && HasType(defs, o, ty) && o.OStruct? && fuel >= Depth(o)
    requires StoredAt(f, env.hash, n, TreeOf(env, o, at))
    ensures FromNode(f, defs, n, ty, fuel) == Ok(ValueOf(o)) <==> Loads(o, at)
    decreases o, 2
  {
    var t := TreeOf(env, o, at);
    OpenRead(f, env.hash, n, t);
    assert EncLocals(o.fields, o.attrs) + [] == EncLocals(o.fields, o.attrs);
    assert t.children + [] == t.children;
    ItemBack(f, env, defs, o, ty, [], Open(f, n).value.kids, [], fuel);
  }

  lemma MapBackAt(f: File, env: Env, defs: Defs, o: Obj, ty: Ty, at: Attr, n: ChunkNode, fuel: nat)
    requires env.cpus >= 1 && HasType(defs, o, ty) && o.OMap? && fuel >= Depth(o)
    requires StoredAt(f, env.hash, n, TreeOf(env, o, at))
    ensures MapFromNode(f, defs, ty.key, ty.val, n, fuel) == Ok(ValueOf(o)) <==> Loads(o, at)
  {
    var (ks, vs) := (o.keys, o.vals);
    if ks == [] {
      EmptyMapBack(f, env, defs, ty, at, n, o, fuel);
    } else if at.isMap {
      VecItems(defs, vs, ty.val, fuel - 1);
      MapBack.MapTreeBack(f, env.hash, defs, ty.key, ty.val, n, ks, vs, Inlined(env, vs), at.cid, fuel);
    } else {
      DecRoundTrip(defs, o, ty, [], fuel);
      assert Enc(o) + [] == Enc(o);
      assert Enc(o) == EncUint(|ks|) + EncPairs(ks, vs);
      InsertGet(map[], ks, ValuesOf(vs), 0);
    }
  }

  /** An empty map is four zero bytes, which decode as a map of no entries. */
  lemma EmptyMapBack(f: File, env: Env, defs: Defs, ty: Ty, at: Attr, n: ChunkNode, o: Obj, fuel: nat)
    requires env.cpus >= 1 && HasType(defs, o, ty) && o.OMap? && o.keys == [] && fuel >= Depth(o)
    requires StoredAt(f, env.hash, n, TreeOf(env, o, at))
    ensures MapFromNode(f, defs, ty.key, ty.val, n, fuel) == Ok(VMap(map[]))
  {
    EmptyPayload(f, env, n, o, at);
    ZeroDecodes(defs, ty.key, ty.val, fuel);
  }

  lemma EmptyPayload(f: File, env: Env, n: ChunkNode, o: Obj, at: Attr)
    requires env.cpus >= 1 && o.OMap? && o.keys == [] && |o.vals| == 0 && StoredAt(f, env.hash, n, TreeOf(env, o, at))
    ensures ReadRaw(f, n) == Ok(LE(0, 4)) && n.childCount == 0
  {
    var t := TreeOf(env, o, at);
    assert t.job == MapContainerJob(0) && t.children == [];
    MapBack.ContainerPayload(f, env.hash, n, t, 0);
  }

  lemma ZeroDecodes(defs: Defs, k: LeafTy, v: Ty, fuel: nat)
    requires fuel > 0
    ensures Dec(defs, TMap(k, v), LE(0, 4), fuel).Ok? && Dec(defs, TMap(k, v), LE(0, 4), fuel).value.0 == VMap(map[])
  {
    assert LE(0, 4)[0] == 0;
  }
}
