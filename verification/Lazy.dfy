/** Lazy mirrors: a struct's local fields read at once, every other field a promise. */
module Lazy {
  import opened Wrappers
  import opened Bytes
  import opened Format
  import opened Values
  import opened Jobs
  import opened Trees
  import opened Stored
  import opened Reader
  import opened Loadable
  import opened ReadBack
  import MapBack
  import EncodingBounds

  datatype Mirror =
    | Promise(node: ChunkNode, ty: Ty)
    | Fields(id: nat, locals: seq<Value>, remotes: seq<Mirror>)

  // --- Creating mirrors ---

  /** `create_lazy`. */
  function CreateLazy(f: File, defs: Defs, n: ChunkNode, ty: Ty, fuel: nat): Result<Mirror>
    decreases fuel, 2, 0
  {
    if fuel == 0 then Err(StackOverflow)
    else if ty.TStruct? then
      var cur :- Open(f, n);
      var (m, _) :- ReadLazy(f, defs, ty, cur, fuel);
      Ok(m)
    else Ok(Promise(n, ty))
  }

  /** `read_lazy_from_stream`. Anything but a struct takes a child and no bytes. */
  function ReadLazy(f: File, defs: Defs, ty: Ty, cur: Cursor, fuel: nat): (r: Result<(Mirror, Cursor)>)
    ensures r.Ok? ==> |r.value.1.bs| <= |cur.bs|
    decreases fuel, 1, 0
  {
    if fuel == 0 then Err(StackOverflow)
    else if ty.TStruct? then
      if ty.id >= |defs| then Err(BadFormat)
      else
        var (ls, rest) :- ReadLocals(defs, defs[ty.id].tys, defs[ty.id].attrs, cur.bs, fuel - 1);
        var (ms, kids) :- LazyRemotes(f, defs, defs[ty.id].tys, defs[ty.id].attrs, cur.kids, fuel - 1);
        Ok((Fields(ty.id, ls, ms), Cursor(rest, kids)))
    else if cur.kids == [] then Err(MissingChild)
    else Ok((Promise(cur.kids[0], ty), Cursor(cur.bs, cur.kids[1..])))
  }

  function LazyRemotes(f: File, defs: Defs, tys: seq<Ty>, attrs: seq<Option<Attr>>, kids: seq<ChunkNode>, fuel: nat)
    : Result<(seq<Mirror>, seq<ChunkNode>)>
    decreases fuel, 3, |tys|
  {
    if tys == [] || attrs == [] then Ok(([], kids))
    else if attrs[0].None? then LazyRemotes(f, defs, tys[1..], attrs[1..], kids, fuel)
    else if kids == [] then Err(MissingChild)
    else
      var m :- CreateLazy(f, defs, kids[0], tys[0], fuel);
      var (ms, rest) :- LazyRemotes(f, defs, tys[1..], attrs[1..], kids[1..], fuel);
      Ok(([m] + ms, rest))
  }

  // --- Materialising them ---

  /** `ParcodeMapPromise::load`: always through the shards, whatever the map's mode. */
  function PromisedMap(f: File, defs: Defs, k: LeafTy, v: Ty, n: ChunkNode, fuel: nat): Result<Value>
    requires fuel > 0
  {
    var payload :- ReadRaw(f, n);
    if (if |payload| >= 4 then FromLE(payload[..4]) else 0) == 0 then Ok(VMap(map[]))
    else
      var shards :- Children(f, n);
      var (ks, vs) :- ReadMapShards(f, defs, k, v, shards, fuel - 1);
      Ok(VMap(InsertAll(map[], ks, vs)))
  }

  /** Calls `load` on every promise inside a mirror. */
  function Materialize(f: File, defs: Defs, m: Mirror, fuel: nat): Result<Value>
    decreases m
  {
    match m
    case Promise(n, ty) =>
      if fuel == 0 then Err(StackOverflow)
      else if ty.TMap? then PromisedMap(f, defs, ty.key, ty.val, n, fuel)
      else FromNode(f, defs, n, ty, fuel)
    case Fields(id, ls, ms) =>
      var rs :- MaterializeAll(f, defs, ms, fuel);
      if id < |defs| then Ok(VStruct(Merge(defs[id].attrs, ls, rs))) else Err(BadFormat)
  }

  function MaterializeAll(f: File, defs: Defs, ms: seq<Mirror>, fuel: nat): (r: Result<seq<Value>>)
    ensures r.Ok? ==> |r.value| == |ms|
    decreases ms
  {
    if ms == [] then Ok([])
    else
      var v :- Materialize(f, defs, ms[0], fuel);
      var vs :- MaterializeAll(f, defs, ms[1..], fuel);
      Ok([v] + vs)
  }

  // --- What a mirror reflects ---

  /** `m` mirrors the object `o`: its local fields are there, and every promise points at
      the chunk that holds exactly the field it stands for. */
  ghost predicate Reflects(f: File, env: Env, defs: Defs, m: Mirror, o: Obj, ty: Ty, at: Attr)
    requires env.cpus >= 1
    decreases o
  {
    match o
    case OStruct(fs, attrs) =>
      && ty.TStruct? && ty.id < |defs| && m.Fields? && m.id == ty.id
      && m.locals == LocalValues(fs, attrs)
      && RemotesReflect(f, env, defs, m.remotes, fs, defs[ty.id].tys, attrs)
    case _ => m.Promise? && m.ty == ty && StoredAt(f, env.hash, m.node, TreeOf(env, o, at))
  }

  ghost predicate RemotesReflect(
    f: File, env: Env, defs: Defs, ms: seq<Mirror>, fs: seq<Obj>, tys: seq<Ty>, attrs: seq<Option<Attr>>)
    requires env.cpus >= 1
    decreases fs
  {
    if fs == [] || tys == [] || attrs == [] then ms == []
    else if attrs[0].None? then RemotesReflect(f, env, defs, ms, fs[1..], tys[1..], attrs[1..])
    else
      && ms != []
      && Reflects(f, env, defs, ms[0], fs[0], tys[0], attrs[0].value)
      && RemotesReflect(f, env, defs, ms[1..], fs[1..], tys[1..], attrs[1..])
  }

  /** The mirror of a stored object can always be created, and reflects it. */
  lemma {:induction false} CreateReflects(
    f: File, env: Env, defs: Defs, o: Obj, ty: Ty, at: Attr, n: ChunkNode, fuel: nat)
    requires env.cpus >= 1 && DefsOk(defs) && HasType(defs, o, ty) && fuel >= Depth(o)
    requires StoredAt(f, env.hash, n, TreeOf(env, o, at))
    ensures var r := CreateLazy(f, defs, n, ty, fuel); r.Ok? && Reflects(f, env, defs, r.value, o, ty, at)
    decreases o, 1
  {
    if o.OStruct? {
      OpenRead(f, env.hash, n, TreeOf(env, o, at));
      assert EncLocals(o.fields, o.attrs) + [] == EncLocals(o.fields, o.attrs);
      assert RemoteTrees(env, o.fields, o.attrs) + [] == RemoteTrees(env, o.fields, o.attrs);
      ReadReflects(f, env, defs, o, ty, at, [], Open(f, n).value.kids, [], fuel);
    }
  }

  /** A struct in a stream takes exactly its own local bytes and its own children. */
  lemma {:induction false} ReadReflects(
    f: File, env: Env, defs: Defs, o: Obj, ty: Ty, at: Attr, rest: bytes,
    kids: seq<ChunkNode>, more: seq<Tree>, fuel: nat)
    requires env.cpus >= 1 && DefsOk(defs) && HasType(defs, o, ty) && ty.TStruct? && fuel >= Depth(o)
    requires KidsHold(f, env.hash, kids, InlinedTrees(env, o) + more)
    ensures var r := ReadLazy(f, defs, ty, Cursor(Shallow(o) + rest, kids), fuel);
      && r.Ok?
      && Reflects(f, env, defs, r.value.0, o, ty, at)
      && r.value.1 == Cursor(rest, kids[|InlinedTrees(env, o)|..])
    decreases o, 0
  {
    assert DefOk(defs[ty.id]);
    DepthAllWithin(o.fields, fuel - 1);
    LocalsRead(defs, o.fields, defs[ty.id].tys, o.attrs, rest, fuel - 1);
    RemotesRead(f, env, defs, o.fields, defs[ty.id].tys, o.attrs, kids, more, fuel - 1);
    ReadLazyIs(f, defs, ty, Cursor(Shallow(o) + rest, kids), fuel, LocalValues(o.fields, o.attrs), rest);
  }

  lemma ReadLazyIs(f: File, defs: Defs, ty: Ty, cur: Cursor, fuel: nat, ls: seq<Value>, rest: bytes)
    requires ty.TStruct? && ty.id < |defs| && fuel > 0
    requires ReadLocals(defs, defs[ty.id].tys, defs[ty.id].attrs, cur.bs, fuel - 1) == Ok((ls, rest))
    ensures var r := LazyRemotes(f, defs, defs[ty.id].tys, defs[ty.id].attrs, cur.kids, fuel - 1);
      r.Ok? ==> ReadLazy(f, defs, ty, cur, fuel) == Ok((Fields(ty.id, ls, r.value.0), Cursor(rest, r.value.1)))
  {
  }

  lemma {:induction false} RemotesRead(
    f: File, env: Env, defs: Defs, fs: seq<Obj>, tys: seq<Ty>, attrs: seq<Option<Attr>>,
    kids: seq<ChunkNode>, more: seq<Tree>, fuel: nat)
    requires env.cpus >= 1 && DefsOk(defs) && AllHave(defs, fs, tys) && |attrs| == |fs| && Within(fs, fuel)
    requires KidsHold(f, env.hash, kids, RemoteTrees(env, fs, attrs) + more)
    ensures var r := LazyRemotes(f, defs, tys, attrs, kids, fuel);
      && r.Ok?
      && RemotesReflect(f, env, defs, r.value.0, fs, tys, attrs)
      && r.value.1 == kids[|RemoteTrees(env, fs, attrs)|..]
    decreases fs, 0
  {
    if fs == [] {
      assert kids[0..] == kids;
    } else if attrs[0].None? {
      assert [] + RemoteTrees(env, fs[1..], attrs[1..]) == RemoteTrees(env, fs[1..], attrs[1..]);
      RemotesRead(f, env, defs, fs[1..], tys[1..], attrs[1..], kids, more, fuel);
    } else {
      var t, ts := TreeOf(env, fs[0], attrs[0].value), RemoteTrees(env, fs[1..], attrs[1..]);
      Assoc([t], ts, more);
      MapBack.KidsTail(f, env.hash, kids, t, ts + more);
      CreateReflects(f, env, defs, fs[0], tys[0], attrs[0].value, kids[0], fuel);
      RemotesRead(f, env, defs, fs[1..], tys[1..], attrs[1..], kids[1..], more, fuel);
      assert kids[1..][|ts|..] == kids[1 + |ts|..];
    }
  }

  // --- Materialising gives the object back ---

  /** As for eager loading, except that a blob map behind a promise is never read. */
  ghost predicate LazyLoads(o: Obj, at: Attr)
    decreases o
  {
    match o
    case OStruct(fs, attrs) => RemotesLazyLoad(fs, attrs)
    case OMap(ks, vs) => ks == [] || (at.isMap && SelfContained(vs))
    case _ => Loads(o, at)
  }

  ghost predicate RemotesLazyLoad(fs: seq<Obj>, attrs: seq<Option<Attr>>)
    decreases fs
  {
    fs == [] || attrs == [] ||
    ((attrs[0].Some? ==> LazyLoads(fs[0], attrs[0].value)) && RemotesLazyLoad(fs[1..], attrs[1..]))
  }

  /** What loads lazily also loads eagerly. */
  lemma {:induction false} LazyImpliesEager(o: Obj, at: Attr)
    requires LazyLoads(o, at)
    ensures Loads(o, at)
    decreases o
  {
    if o.OStruct? {
      RemotesImplyEager(o.fields, o.attrs);
    }
  }

  lemma {:induction false} RemotesImplyEager(fs: seq<Obj>, attrs: seq<Option<Attr>>)
    requires RemotesLazyLoad(fs, attrs)
    ensures RemotesLoad(fs, attrs)
    decreases fs
  {
    if fs != [] && attrs != [] {
      if attrs[0].Some? {
        LazyImpliesEager(fs[0], attrs[0].value);
      }
      RemotesImplyEager(fs[1..], attrs[1..]);
    }
  }

  /** Materialising a mirror gives the value it reflects if and only if it lazily loads. */
  lemma {:induction false} MaterializeBack(
    f: File, env: Env, defs: Defs, m: Mirror, o: Obj, ty: Ty, at: Attr, fuel: nat)
    requires env.cpus >= 1 && DefsOk(defs) && HasType(defs, o, ty) && NodeTy(ty) && fuel >= Depth(o)
    requires Reflects(f, env, defs, m, o, ty, at)
    ensures Materialize(f, defs, m, fuel) == Ok(ValueOf(o)) <==> LazyLoads(o, at)
    decreases o
  {
    match o
    case OStruct(fs, attrs) =>
      assert DefOk(defs[ty.id]);
      DepthAllWithin(fs, fuel);
      MaterializeAllBack(f, env, defs, m.remotes, fs, defs[ty.id].tys, attrs, fuel);
      StructMaterialized(f, defs, m, fs, attrs, fuel);
    case OMap(_, _) => PromisedMapBack(f, env, defs, o, ty, at, m.node, fuel);
    case _ => NodeBack(f, env, defs, o, ty, at, m.node, fuel);
  }

  lemma StructMaterialized(f: File, defs: Defs, m: Mirror, fs: seq<Obj>, attrs: seq<Option<Attr>>, fuel: nat)
    requires m.Fields? && m.id < |defs| && defs[m.id].attrs == attrs
    requires |attrs| == |fs| && m.locals == LocalValues(fs, attrs)
    requires MaterializeAll(f, defs, m.remotes, fuel) == Ok(RemoteValues(fs, attrs)) <==> RemotesLazyLoad(fs, attrs)
    requires |m.remotes| == |RemoteValues(fs, attrs)|
    ensures Materialize(f, defs, m, fuel) == Ok(VStruct(ValuesOf(fs))) <==> RemotesLazyLoad(fs, attrs)
  {
    var rs := MaterializeAll(f, defs, m.remotes, fuel);
    if rs.Ok? {
      MergeValues(fs, attrs, rs.value);
    }
  }

  lemma {:induction false} MaterializeAllBack(
    f: File, env: Env, defs: Defs, ms: seq<Mirror>, fs: seq<Obj>, tys: seq<Ty>, attrs: seq<Option<Attr>>, fuel: nat)
    requires env.cpus >= 1 && DefsOk(defs) && AllHave(defs, fs, tys) && FieldsOk(tys, attrs) && Within(fs, fuel)
    requires RemotesReflect(f, env, defs, ms, fs, tys, attrs)
    ensures MaterializeAll(f, defs, ms, fuel) == Ok(RemoteValues(fs, attrs)) <==> RemotesLazyLoad(fs, attrs)
    ensures |ms| == |RemoteValues(fs, attrs)|
    decreases fs
  {
    if fs != [] {
      if attrs[0].None? {
        assert [] + RemoteValues(fs[1..], attrs[1..]) == RemoteValues(fs[1..], attrs[1..]);
        MaterializeAllBack(f, env, defs, ms, fs[1..], tys[1..], attrs[1..], fuel);
      } else {
        MaterializeBack(f, env, defs, ms[0], fs[0], tys[0], attrs[0].value, fuel);
        MaterializeAllBack(f, env, defs, ms[1..], fs[1..], tys[1..], attrs[1..], fuel);
        MaterializeStep(f, defs, ms, fs, attrs, fuel);
      }
    }
  }

  lemma MaterializeStep(f: File, defs: Defs, ms: seq<Mirror>, fs: seq<Obj>, attrs: seq<Option<Attr>>, fuel: nat)
    requires ms != [] && fs != [] && attrs != [] && attrs[0].Some?
    requires Materialize(f, defs, ms[0], fuel) == Ok(ValueOf(fs[0])) <==> LazyLoads(fs[0], attrs[0].value)
    requires MaterializeAll(f, defs, ms[1..], fuel) == Ok(RemoteValues(fs[1..], attrs[1..]))
      <==> RemotesLazyLoad(fs[1..], attrs[1..])
    ensures MaterializeAll(f, defs, ms, fuel) == Ok(RemoteValues(fs, attrs)) <==> RemotesLazyLoad(fs, attrs)
  {
    var first, rest := Materialize(f, defs, ms[0], fuel), MaterializeAll(f, defs, ms[1..], fuel);
    if first.Ok? && rest.Ok? {
      SameTail(first.value, rest.value, ValueOf(fs[0]), RemoteValues(fs[1..], attrs[1..]));
    }
  }

  /** A promised map loads if it is empty or sharded with self-contained values; a blob
      always reads as an empty map. */
  lemma PromisedMapBack(f: File, env: Env, defs: Defs, o: Obj, ty: Ty, at: Attr, n: ChunkNode, fuel: nat)
    requires env.cpus >= 1 && HasType(defs, o, ty) && o.OMap? && fuel >= Depth(o)
    requires StoredAt(f, env.hash, n, TreeOf(env, o, at))
    ensures PromisedMap(f, defs, ty.key, ty.val, n, fuel) == Ok(ValueOf(o)) <==> LazyLoads(o, at)
  {
    if o.keys == [] {
      EmptyPayload(f, env, n, o, at);
      Widths();
      FromLERoundTrip(0, 4);
      assert LE(0, 4)[..4] == LE(0, 4);
    } else if at.isMap {
      VecItems(defs, o.vals, ty.val, fuel - 1);
      MapBack.MapTreeBack(f, env.hash, defs, ty.key, ty.val, n, o.keys, o.vals, Inlined(env, o.vals), at.cid, fuel);
      ShardedPromise(f, env, defs, o, ty, at, n, fuel);
    } else {
      BlobPromise(f, env, defs, o, ty, at, n, fuel);
    }
  }

  lemma ShardedPromise(f: File, env: Env, defs: Defs, o: Obj, ty: Ty, at: Attr, n: ChunkNode, fuel: nat)
    requires env.cpus >= 1 && HasType(defs, o, ty) && o.OMap? && o.keys != [] && at.isMap && fuel > 0
    requires StoredAt(f, env.hash, n, TreeOf(env, o, at))
    ensures PromisedMap(f, defs, ty.key, ty.val, n, fuel) == MapFromNode(f, defs, ty.key, ty.val, n, fuel)
  {
    MapBack.MapTreeOpen(f, env.hash, n, o.keys, o.vals, Inlined(env, o.vals), at.cid);
    Widths();
    FromLERoundTrip(NumShards(|o.keys|), 4);
    assert LE(NumShards(|o.keys|), 4)[..4] == LE(NumShards(|o.keys|), 4);
  }

  lemma BlobPromise(f: File, env: Env, defs: Defs, o: Obj, ty: Ty, at: Attr, n: ChunkNode, fuel: nat)
    requires env.cpus >= 1 && HasType(defs, o, ty) && o.OMap? && o.keys != [] && !at.isMap && fuel > 0
    requires StoredAt(f, env.hash, n, TreeOf(env, o, at))
    ensures PromisedMap(f, defs, ty.key, ty.val, n, fuel) == Ok(VMap(map[])) && ValueOf(o) != VMap(map[])
  {
    EncodingBounds.InsertGet(map[], o.keys, ValuesOf(o.vals), 0);
    assert TreeOf(env, o, at).children == [] && n.childCount == 0;
    assert ReadMapShards(f, defs, ty.key, ty.val, [], fuel - 1) == Ok(([], []));
  }
}
