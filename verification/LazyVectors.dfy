/** Lazy access to the elements of a chunked vector of structs. */
module LazyVectors {
  import opened Wrappers
  import opened Bytes
  import opened Format
  import opened Values
  import opened Bincode
  import opened Sharding
  import opened Jobs
  import opened Trees
  import opened Stored
  import opened Reader
  import opened Loadable
  import opened ReadBack
  import opened Indexing
  import opened Iteration
  import opened Lazy
  import EncodingBounds

  // --- A cursor among the items of a shard ---

  /** The unread bytes and children are exactly those of the items `os`. */
  ghost predicate AtItems(f: File, env: Env, cur: Cursor, os: seq<Obj>)
    requires env.cpus >= 1
  {
    cur.bs == ShallowAll(os) && KidsHold(f, env.hash, cur.kids, Flat(Inlined(env, os)))
  }

  /** Reading a struct moves the cursor and the children together to the next item. */
  lemma ReadMoves(f: File, env: Env, defs: Defs, e: Ty, cur: Cursor, os: seq<Obj>, fuel: nat)
    requires env.cpus >= 1 && DefsOk(defs) && e.TStruct? && os != [] && HasType(defs, os[0], e) && fuel >= Depth(os[0])
    requires AtItems(f, env, cur, os)
    ensures var r := ReadLazy(f, defs, e, cur, fuel);
      && r.Ok?
      && Reflects(f, env, defs, r.value.0, os[0], e, NO_CONFIG)
      && AtItems(f, env, r.value.1, os[1..])
      && cur.bs[|cur.bs| - |r.value.1.bs|..] == r.value.1.bs
  {
    ReadReflects(f, env, defs, os[0], e, NO_CONFIG, ShallowAll(os[1..]), cur.kids, Flat(Inlined(env, os[1..])), fuel);
    KidsSplit(f, env.hash, cur.kids, InlinedTrees(env, os[0]), Flat(Inlined(env, os[1..])));
  }

  /** Behind its length prefix, an opened shard is a cursor at its first item. */
  lemma ShardOpens(f: File, env: Env, shard: ChunkNode, os: seq<Obj>, cid: nat)
    requires env.cpus >= 1 && |os| < U64
    requires StoredAt(f, env.hash, shard, ShardTree(env, os, cid))
    ensures var r := Open(f, shard);
      && r.Ok?
      && DecUint(r.value.bs, true) == Ok((|os|, ShallowAll(os)))
      && AtItems(f, env, Cursor(ShallowAll(os), r.value.kids), os)
      && |r.value.bs| >= |ShallowAll(os)|
      && r.value.bs[|r.value.bs| - |ShallowAll(os)|..] == ShallowAll(os)
  {
    OpenRead(f, env.hash, shard, ShardTree(env, os, cid));
    ShardPrefix(f, env.hash, os, shard, cid, Flat(Inlined(env, os)));
  }

  // --- get_lazy ---

  function Skip(f: File, defs: Defs, e: Ty, k: nat, cur: Cursor, fuel: nat): Result<Cursor>
    decreases k
  {
    if k == 0 then Ok(cur)
    else
      var (_, next) :- ReadLazy(f, defs, e, cur, fuel);
      Skip(f, defs, e, k - 1, next, fuel)
  }

  function GetLazyItem(f: File, defs: Defs, e: Ty, n: ChunkNode, index: nat, fuel: nat): Result<Mirror> {
    var (k, local) :- ShardOf(f, n, index);
    var shard :- ChildAt(f, n, k);
    LazyInShard(f, defs, e, shard, local, fuel)
  }

  function LazyInShard(f: File, defs: Defs, e: Ty, shard: ChunkNode, local: nat, fuel: nat): Result<Mirror> {
    var cur :- Open(f, shard);
    var (_, rest) :- DecUint(cur.bs, true);
    var at :- Skip(f, defs, e, local, Cursor(rest, cur.kids), fuel);
    var (m, _) :- ReadLazy(f, defs, e, at, fuel);
    Ok(m)
  }

  /** `get_lazy`: reads and discards the preceding items of the shard. */
  method GetLazy(f: File, defs: Defs, e: Ty, n: ChunkNode, index: nat, fuel: nat) returns (r: Result<Mirror>)
    ensures r == GetLazyItem(f, defs, e, n, index, fuel) || (r == Err(Overflow) && TableOverflows(f, n))
  {
    var found := FindShard(f, n, index);
    if found.Err? {
      return Err(found.error);
    }
    var (k, local) := found.value;
    var shard := ChildAt(f, n, k);
    if shard.Err? {
      return Err(shard.error);
    }
    r := ReadInShard(f, defs, e, shard.value, local, fuel);
  }

  method ReadInShard(f: File, defs: Defs, e: Ty, shard: ChunkNode, local: nat, fuel: nat) returns (r: Result<Mirror>)
    ensures r == LazyInShard(f, defs, e, shard, local, fuel)
  {
    var opening := Open(f, shard);
    if opening.Err? {
      return Err(opening.error);
    }
    var len := DecUint(opening.value.bs, true);
    if len.Err? {
      return Err(len.error);
    }
    ghost var first := Cursor(len.value.1, opening.value.kids);
    var cur := Cursor(len.value.1, opening.value.kids);
    for i := 0 to local
      invariant Skip(f, defs, e, local, first, fuel) == Skip(f, defs, e, local - i, cur, fuel)
    {
      var skipped := ReadLazy(f, defs, e, cur, fuel);
      if skipped.Err? {
        return Err(skipped.error);
      }
      cur := skipped.value.1;
    }
    var target := ReadLazy(f, defs, e, cur, fuel);
    return match target case Ok((m, _)) => Ok(m) case Err(err) => Err(err);
  }

  lemma {:induction false} SkipStored(
    f: File, env: Env, defs: Defs, e: Ty, whole: seq<Obj>, os: seq<Obj>, k: nat, cur: Cursor, fuel: nat)
    requires env.cpus >= 1 && DefsOk(defs) && e.TStruct? && ItemsOf(defs, os, whole, e, fuel) && k <= |os|
    requires AtItems(f, env, cur, os)
    ensures Skip(f, defs, e, k, cur, fuel).Ok? && AtItems(f, env, Skip(f, defs, e, k, cur, fuel).value, os[k..])
    decreases k
  {
    if k == 0 {
      assert os[0..] == os;
    } else {
      ReadMoves(f, env, defs, e, cur, os, fuel);
      SkipStored(f, env, defs, e, whole, os[1..], k - 1, ReadLazy(f, defs, e, cur, fuel).value.1, fuel);
      assert os[1..][k - 1..] == os[k..];
    }
  }

  /** On a stored vector of structs `get_lazy(i)` succeeds exactly for `i < len`, and the
      mirror reflects element `i`: its promises are that element's children and no other's. */
  lemma GetLazyStored(
    f: File, env: Env, defs: Defs, items: seq<Obj>, e: Ty, cid: nat, n: ChunkNode, index: nat, fuel: nat)
    requires VecStored(f, env, defs, items, e, cid, n, fuel) && e.TStruct?
    ensures var r := GetLazyItem(f, defs, e, n, index, fuel);
      && (index < |items| ==> r.Ok? && Reflects(f, env, defs, r.value, items[index], e, NO_CONFIG))
      && (index >= |items| ==> r == Err(BadFormat))
  {
    ContainerStored(f, env, defs, items, e, cid, n, fuel);
    if index < |items| {
      var (k, local) := Locate(Lens(env, items), index).value;
      ItemReflects(f, env, defs, items, e, cid, n, index, k, local, fuel);
    }
  }

  lemma ItemReflects(
    f: File, env: Env, defs: Defs, items: seq<Obj>, e: Ty, cid: nat,
    n: ChunkNode, index: nat, k: nat, local: nat, fuel: nat)
    requires VecStored(f, env, defs, items, e, cid, n, fuel) && e.TStruct?
    requires k < |Lens(env, items)| && local < Lens(env, items)[k]
    requires Sum(Lens(env, items)[..k]) + local == index < |items|
    ensures ChildAt(f, n, k).Ok?
    ensures var r := LazyInShard(f, defs, e, ChildAt(f, n, k).value, local, fuel);
      r.Ok? && Reflects(f, env, defs, r.value, items[index], e, NO_CONFIG)
  {
    ShardStored(f, env, defs, items, e, cid, n, fuel, k);
    ShardItem(env, items, k, local, index);
    InShard(f, env, defs, items, e, cid, Shard(env, items, k), ChildAt(f, n, k).value, local, fuel);
  }

  lemma InShard(
    f: File, env: Env, defs: Defs, items: seq<Obj>, e: Ty, cid: nat,
    os: seq<Obj>, shard: ChunkNode, local: nat, fuel: nat)
    requires env.cpus >= 1 && DefsOk(defs) && e.TStruct? && ItemsOf(defs, os, items, e, fuel) && local < |os| < U64
    requires StoredAt(f, env.hash, shard, ShardTree(env, os, cid))
    ensures var r := LazyInShard(f, defs, e, shard, local, fuel);
      r.Ok? && Reflects(f, env, defs, r.value, os[local], e, NO_CONFIG)
  {
    ShardOpens(f, env, shard, os, cid);
    SkipStored(f, env, defs, e, items, os, local, Cursor(ShallowAll(os), Open(f, shard).value.kids), fuel);
    ReadMoves(f, env, defs, e, Skip(f, defs, e, local, Cursor(ShallowAll(os), Open(f, shard).value.kids), fuel).value,
      os[local..], fuel);
  }

  /** For scalars and strings it never works: their items have no children to promise. */
  lemma GetLazyOfScalars(
    f: File, env: Env, defs: Defs, items: seq<Obj>, e: Ty, cid: nat, n: ChunkNode, index: nat, fuel: nat)
    requires VecStored(f, env, defs, items, e, cid, n, fuel) && e.TLeaf? && index < |items|
    ensures GetLazyItem(f, defs, e, n, index, fuel) == Err(MissingChild)
  {
    ContainerStored(f, env, defs, items, e, cid, n, fuel);
    var (k, local) := Locate(Lens(env, items), index).value;
    ShardStored(f, env, defs, items, e, cid, n, fuel, k);
    ScalarShard(f, env, defs, items, e, cid, Shard(env, items, k), ChildAt(f, n, k).value, local, fuel);
  }

  /** `get_lazy` works exactly on vectors of structs, inside the bounds. */
  lemma GetLazyExact(
    f: File, env: Env, defs: Defs, items: seq<Obj>, e: Ty, cid: nat, n: ChunkNode, index: nat, fuel: nat)
    requires VecStored(f, env, defs, items, e, cid, n, fuel)
    ensures GetLazyItem(f, defs, e, n, index, fuel).Ok? <==> e.TStruct? && index < |items|
  {
    if e.TStruct? {
      GetLazyStored(f, env, defs, items, e, cid, n, index, fuel);
    } else if index < |items| {
      GetLazyOfScalars(f, env, defs, items, e, cid, n, index, fuel);
    } else {
      ContainerStored(f, env, defs, items, e, cid, n, fuel);
    }
  }

  lemma ScalarShard(
    f: File, env: Env, defs: Defs, items: seq<Obj>, e: Ty, cid: nat,
    os: seq<Obj>, shard: ChunkNode, local: nat, fuel: nat)
    requires env.cpus >= 1 && fuel > 0 && e.TLeaf? && ItemsOf(defs, os, items, e, fuel) && |os| < U64
    requires StoredAt(f, env.hash, shard, ShardTree(env, os, cid))
    ensures LazyInShard(f, defs, e, shard, local, fuel) == Err(MissingChild)
  {
    ShardOpens(f, env, shard, os, cid);
    NoChildren(env, defs, os, items, e, fuel);
    var first := Cursor(ShallowAll(os), Open(f, shard).value.kids);
    assert first.kids == [];
    assert ReadLazy(f, defs, e, first, fuel) == Err(MissingChild);
  }

  lemma {:induction false} NoChildren(env: Env, defs: Defs, os: seq<Obj>, whole: seq<Obj>, e: Ty, fuel: nat)
    requires env.cpus >= 1 && e.TLeaf? && ItemsOf(defs, os, whole, e, fuel)
    ensures Flat(Inlined(env, os)) == []
  {
    if os != [] {
      assert HasType(defs, os[0], e);
      NoChildren(env, defs, os[1..], whole, e, fuel);
    }
  }

  // --- The readings of one vector ---

  /** Loading, `get` and a materialised `get_lazy` give the vector's elements, each under its
      own condition: loading needs every item to load, `get` the items of the element's shard,
      `get_lazy` the element alone. */
  lemma ReadingsAgree(
    f: File, env: Env, defs: Defs, items: seq<Obj>, e: Ty, cid: nat, n: ChunkNode, index: nat, fuel: nat)
    requires VecStored(f, env, defs, items, e, cid, n, fuel) && index < |items|
    ensures DecodeCollection(f, defs, e, n, fuel) == Ok(ValuesOf(items)) <==> AllItemsLoad(items)
    ensures AllItemsLoad(ShardWith(env, items, index)) ==>
              GetItem(f, defs, e, n, index, fuel) == Ok(ValuesOf(items)[index])
    ensures e.TStruct? ==>
              var m := GetLazyItem(f, defs, e, n, index, fuel);
              && m.Ok?
              && (Materialize(f, defs, m.value, fuel) == Ok(ValueOf(items[index]))
                  <==> LazyLoads(items[index], NO_CONFIG))
  {
    VecBack(f, env, defs, items, e, cid, n, fuel);
    GetStored(f, env, defs, items, e, cid, n, index, fuel);
    EncodingBounds.ValuesAt(items, index);
    if e.TStruct? {
      MirrorBack(f, env, defs, items, e, cid, n, index, fuel);
    }
  }

  lemma MirrorBack(
    f: File, env: Env, defs: Defs, items: seq<Obj>, e: Ty, cid: nat, n: ChunkNode, index: nat, fuel: nat)
    requires VecStored(f, env, defs, items, e, cid, n, fuel) && e.TStruct? && index < |items|
    ensures var m := GetLazyItem(f, defs, e, n, index, fuel);
      && m.Ok?
      && (Materialize(f, defs, m.value, fuel) == Ok(ValueOf(items[index])) <==> LazyLoads(items[index], NO_CONFIG))
  {
    GetLazyStored(f, env, defs, items, e, cid, n, index, fuel);
    MaterializeBack(f, env, defs, GetLazyItem(f, defs, e, n, index, fuel).value, items[index], e, NO_CONFIG, fuel);
  }
}
