/** Every way of reading a vector or a map, from the file that a run wrote. */
module FileReadings {
  import opened Wrappers
  import opened Bytes
  import opened Format
  import opened FileHeader
  import opened Values
  import opened Trees
  import opened Protocol
  import opened Stored
  import opened Loadable
  import opened ReadBack
  import opened Iteration
  import opened Lazy
  import opened EndToEnd
  import LazyVectors
  import LazyIteration
  import MapLookup
  import MapLazy

  // --- Where vectors and maps are found ---

  /** The node `n` of the file holds the object `o`, held under attribute `at`. */
  ghost predicate InFile(f: File, env: Env, defs: Defs, n: ChunkNode, o: Obj, ty: Ty, at: Attr, fuel: nat) {
    && env.cpus >= 1 && DefsOk(defs) && HasType(defs, o, ty) && NodeTy(ty) && fuel >= Depth(o)
    && StoredAt(f, env.hash, n, TreeOf(env, o, at))
  }

  /** The root of a written file holds the object that was written. */
  lemma WholeInFile(w: Options, defs: Defs, o: Obj, ty: Ty, sched: Schedule, fuel: nat)
    requires OptionsOk(w) && Succeeds(w, o, sched)
    requires DefsOk(defs) && HasType(defs, o, ty) && NodeTy(ty) && fuel >= Depth(o)
    ensures FileHeader.Open(Saved(w, o, sched), w.reg) == Ok(Reopened(w, o, sched))
    ensures RootNode(Reopened(w, o, sched)).Ok?
    ensures InFile(Reopened(w, o, sched), w.env, defs, RootNode(Reopened(w, o, sched)).value, o, ty, NO_CONFIG, fuel)
  {
    WrittenHolds(w, o, sched);
  }

  /** How many of the first `j` fields are remote. */
  function RemotesBefore(attrs: seq<Option<Attr>>, j: nat): nat
    requires j <= |attrs|
    decreases j
  {
    if j == 0 then 0 else (if attrs[0].Some? then 1 else 0) + RemotesBefore(attrs[1..], j - 1)
  }

  /** A struct's mirror has, for each remote field, what reflects that field. */
  lemma {:induction false} FieldReflected(
    f: File, env: Env, defs: Defs, ms: seq<Mirror>, fs: seq<Obj>, tys: seq<Ty>, attrs: seq<Option<Attr>>, j: nat)
    requires env.cpus >= 1 && |fs| == |tys| == |attrs| && RemotesReflect(f, env, defs, ms, fs, tys, attrs)
    requires j < |fs| && attrs[j].Some?
    ensures RemotesBefore(attrs, j) < |ms|
    ensures Reflects(f, env, defs, ms[RemotesBefore(attrs, j)], fs[j], tys[j], attrs[j].value)
    decreases j
  {
    if j > 0 {
      FieldReflected(f, env, defs, if attrs[0].Some? then ms[1..] else ms, fs[1..], tys[1..], attrs[1..], j - 1);
    }
  }

  /** So a remote vector or map field of a written struct is found behind its promise in the
      lazy root. */
  lemma FieldInFile(w: Options, defs: Defs, o: Obj, ty: Ty, sched: Schedule, fuel: nat, j: nat)
    requires OptionsOk(w) && Succeeds(w, o, sched) && o.OStruct?
    requires DefsOk(defs) && HasType(defs, o, ty) && fuel >= Depth(o)
    requires j < |o.fields| && o.attrs[j].Some? && !o.fields[j].OStruct?
    ensures RootNode(Reopened(w, o, sched)).Ok?
    ensures var f := Reopened(w, o, sched);
      var m := CreateLazy(f, defs, RootNode(f).value, ty, fuel);
      && m.Ok? && m.value.Fields? && RemotesBefore(o.attrs, j) < |m.value.remotes|
      && var promise := m.value.remotes[RemotesBefore(o.attrs, j)];
      && promise.Promise?
      && InFile(f, w.env, defs, promise.node, o.fields[j], defs[ty.id].tys[j], o.attrs[j].value, fuel)
  {
    var f := Reopened(w, o, sched);
    WrittenHolds(w, o, sched);
    CreateReflects(f, w.env, defs, o, ty, NO_CONFIG, RootNode(f).value, fuel);
    var m := CreateLazy(f, defs, RootNode(f).value, ty, fuel).value;
    FieldReflected(f, w.env, defs, m.remotes, o.fields, defs[ty.id].tys, o.attrs, j);
    FieldTyped(defs, o, ty, fuel, j);
  }

  lemma FieldTyped(defs: Defs, o: Obj, ty: Ty, fuel: nat, j: nat)
    requires DefsOk(defs) && HasType(defs, o, ty) && o.OStruct?
    requires fuel >= Depth(o) && j < |o.fields| && o.attrs[j].Some?
    ensures HasType(defs, o.fields[j], defs[ty.id].tys[j]) && NodeTy(defs[ty.id].tys[j]) && fuel >= Depth(o.fields[j])
  {
    assert DefOk(defs[ty.id]);
    DepthAllWithin(o.fields, fuel);
  }

  lemma VecInFile(f: File, env: Env, defs: Defs, n: ChunkNode, o: Obj, ty: Ty, at: Attr, fuel: nat)
    requires InFile(f, env, defs, n, o, ty, at, fuel) && o.OVec?
    ensures VecStored(f, env, defs, o.items, ty.elem, at.cid, n, fuel)
  {
    VecParts(env, defs, o, ty, at, fuel);
  }

  lemma MapInFile(f: File, env: Env, defs: Defs, n: ChunkNode, o: Obj, ty: Ty, at: Attr, fuel: nat)
    requires InFile(f, env, defs, n, o, ty, at, fuel) && o.OMap? && at.isMap
    ensures |o.keys| == |o.vals| == |Inlined(env, o.vals)|
    ensures MapLookup.MapStored(f, env.hash, defs, ty.key, ty.val, n, o.keys,
      o.vals, Inlined(env, o.vals), at.cid, fuel)
  {
    VecItems(defs, o.vals, ty.val, fuel);
  }

  // --- Vectors ---

  /** `get` and `get_lazy` of a vector in a file, for every index. */
  lemma VecLookups(
    f: File, env: Env, defs: Defs, n: ChunkNode, o: Obj, ty: Ty, at: Attr, fuel: nat, index: nat)
    requires InFile(f, env, defs, n, o, ty, at, fuel) && o.OVec?
    ensures index >= |o.items| ==>
              && GetItem(f, defs, ty.elem, n, index, fuel) == Err(BadFormat)
              && LazyVectors.GetLazyItem(f, defs, ty.elem, n, index, fuel).Err?
    ensures index < |o.items| && AllItemsLoad(ShardWith(env, o.items, index)) ==>
              GetItem(f, defs, ty.elem, n, index, fuel) == Ok(ValueOf(o.items[index]))
    ensures index < |o.items| && ty.elem.TStruct? ==>
              var m := LazyVectors.GetLazyItem(f, defs, ty.elem, n, index, fuel);
              m.Ok? && Reflects(f, env, defs, m.value, o.items[index], ty.elem, NO_CONFIG)
  {
    VecInFile(f, env, defs, n, o, ty, at, fuel);
    GetStored(f, env, defs, o.items, ty.elem, at.cid, n, index, fuel);
    LazyVectors.GetLazyExact(f, env, defs, o.items, ty.elem, at.cid, n, index, fuel);
    if ty.elem.TStruct? {
      LazyVectors.GetLazyStored(f, env, defs, o.items, ty.elem, at.cid, n, index, fuel);
    }
  }

  /** Opens a written vector and streams it: the bytes give the vector back, element by
      element, up to the first shard that cannot be read. */
  method StreamFile(
    data: bytes, defs: Defs, e: Ty, fuel: nat, reg: Registry,
    ghost w: Options, ghost o: Obj, ghost sched: Schedule)
    returns (vs: seq<Value>, stop: Option<Error>)
    requires OptionsOk(w) && Succeeds(w, o, sched) && data == Saved(w, o, sched) && reg == w.reg
    requires DefsOk(defs) && o.OVec? && HasType(defs, o, TVec(e)) && NodeTy(TVec(e)) && fuel >= Depth(o)
    ensures stop.None? ==> |vs| == |o.items|
    ensures stop.Some? ==> |vs| < |o.items| && !AllItemsLoad(ShardWith(w.env, o.items, |vs|))
    ensures RightWhereLoaded(w.env, o.items, vs)
    ensures AllItemsLoad(o.items) ==> vs == ValuesOf(o.items) && stop.None?
  {
    WholeInFile(w, defs, o, TVec(e), sched, fuel);
    var f := FileHeader.Open(data, reg).value;
    var n := RootNode(f).value;
    VecInFile(f, w.env, defs, n, o, TVec(e), NO_CONFIG, fuel);
    var it := Iter(f, defs, e, n, fuel, w.env, o.items, NO_CONFIG.cid);
    vs, stop := Drain(it.value);
  }

  /** The same through `iter_lazy`: one answer for every element. */
  method StreamFileLazily(
    data: bytes, defs: Defs, e: Ty, fuel: nat, reg: Registry,
    ghost w: Options, ghost o: Obj, ghost sched: Schedule)
    returns (rs: seq<Result<Mirror>>)
    requires OptionsOk(w) && Succeeds(w, o, sched) && data == Saved(w, o, sched) && reg == w.reg
    requires DefsOk(defs) && o.OVec? && HasType(defs, o, TVec(e)) && NodeTy(TVec(e)) && fuel >= Depth(o)
    ensures |rs| == |o.items|
    ensures LazyIteration.AllAnswered(Reopened(w, o, sched), w.env, defs, rs, o.items, e)
  {
    WholeInFile(w, defs, o, TVec(e), sched, fuel);
    var f := FileHeader.Open(data, reg).value;
    var n := RootNode(f).value;
    VecInFile(f, w.env, defs, n, o, TVec(e), NO_CONFIG, fuel);
    rs := LazyIteration.DrainLazy(f, defs, e, n, fuel, w.env, o.items, NO_CONFIG.cid);
  }

  // --- Maps ---

  /** `get` of a sharded map in a file: it divides by zero if the map is empty, and otherwise
      answers what the written map answers if the values are self-contained. */
  lemma MapGets(f: File, env: Env, defs: Defs, n: ChunkNode, o: Obj, ty: Ty, at: Attr, fuel: nat, key: Leaf)
    requires InFile(f, env, defs, n, o, ty, at, fuel) && o.OMap? && at.isMap
    ensures o.keys == [] ==> MapLookup.GetValue(f, env.hash, defs, ty.key, ty.val, n, key, fuel) == Err(DivideByZero)
    ensures o.keys != [] && SelfContained(o.vals) ==>
              var m := ValueOf(o).entries;
              MapLookup.GetValue(f, env.hash, defs, ty.key, ty.val, n, key, fuel)
              == Ok(if key in m then Some(m[key]) else None)
  {
    MapInFile(f, env, defs, n, o, ty, at, fuel);
    if o.keys == [] {
      MapLookup.GetOnEmpty(f, env, o, at, defs, ty.key, ty.val, n, key, fuel);
    } else if SelfContained(o.vals) {
      MapLookup.GetStored(f, env.hash, defs, ty.key, ty.val, n, o.keys, o.vals,
        Inlined(env, o.vals), at.cid, fuel, key);
    }
  }

  /** `get_lazy` of a sharded map in a file. */
  lemma MapGetsLazily(f: File, env: Env, defs: Defs, n: ChunkNode, o: Obj, ty: Ty, at: Attr, fuel: nat, key: Leaf)
    requires InFile(f, env, defs, n, o, ty, at, fuel) && o.OMap? && at.isMap && ItemTy(ty.val)
    ensures var r := MapLazy.GetLazyValue(f, env.hash, defs, ty.key, ty.val, n, key, fuel);
      && (o.keys == [] ==> r == Err(DivideByZero))
      && (o.keys != [] && key !in o.keys ==> r == Ok(None))
      && (forall i :: 0 <= i < |o.keys| && o.keys[i] == key ==>
            if ty.val.TStruct? then
              && r.Ok? && r.value.Some?
              && Reflects(f, env, defs, r.value.value, o.vals[i], ty.val, NO_CONFIG)
            else r == Err(MissingChild))
  {
    MapInFile(f, env, defs, n, o, ty, at, fuel);
    if o.keys == [] {
      MapLazy.GetLazyOnEmpty(f, env, o, at, defs, ty.key, ty.val, n, key, fuel);
    } else {
      MapLazy.GetLazyExact(f, env, defs, ty.key, ty.val, n, o.keys, o.vals, at.cid, fuel, key);
      MapLazy.GetLazyStored(f, env, defs, ty.key, ty.val, n, o.keys, o.vals, at.cid, fuel, key);
      forall i | 0 <= i < |o.keys| && o.keys[i] == key
        ensures MapLookup.Find(o.keys, o.vals, key) == Some(o.vals[i])
      {
        MapLazy.FindsIt(o.keys, o.vals, i);
      }
    }
  }
}
