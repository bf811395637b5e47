/** The lazy streaming iterator: a state machine, its steps as a function, and what the steps
    do on a stored vector. */
module LazyIteration {
  import opened Wrappers
  import opened Bytes
  import opened Format
  import opened Values
  import opened Bincode
  import opened Sharding
  import opened Jobs
  import opened Trees
  import opened Stored
  import opened Reader
  import opened Loadable
  import opened Indexing
  import opened Iteration
  import opened Lazy
  import opened LazyVectors
  import opened EncodingBounds
  import Stitching

  // --- The steps ---

  /** Shards not yet loaded, the cursor in the loaded one, how many items are left there, and
      how many have been yielded in all. */
  datatype Stream = Stream(shards: seq<ChunkNode>, cur: Cursor, left: nat, yielded: nat)

  /** `ensure_shard_loaded`: loads the next shard once the current one is used up. */
  function Refill(f: File, st: Stream): Result<Option<Stream>> {
    if st.left > 0 then Ok(Some(st))
    else if st.shards == [] then Ok(None)
    else
      var cur :- Open(f, st.shards[0]);
      var (count, rest) :- DecUint(cur.bs, true);
      Ok(Some(Stream(st.shards[1..], Cursor(rest, cur.kids), count, st.yielded)))
  }

  /** The state behind a shard that could not be loaded: it has been taken all the same. */
  function Skipped(st: Stream): Stream {
    if st.shards == [] then st else st.(shards := st.shards[1..])
  }

  /** Reads one item of the loaded shard; the counter of an empty shard underflows. */
  function TakeFrom(f: File, defs: Defs, e: Ty, st: Stream, fuel: nat): (Result<Mirror>, Stream) {
    if st.left == 0 then (Err(Overflow), st)
    else
      var after := st.(left := st.left - 1, yielded := st.yielded + 1);
      match ReadLazy(f, defs, e, st.cur, fuel)
      case Ok((m, cur)) => (Ok(m), after.(cur := cur))
      case Err(err) => (Err(err), after)
  }

  /** `next`. */
  function Step(f: File, defs: Defs, e: Ty, st: Stream, fuel: nat): (Option<Result<Mirror>>, Stream) {
    match Refill(f, st)
    case Err(err) => (Some(Err(err)), Skipped(st))
    case Ok(None) => (None, st)
    case Ok(Some(ready)) =>
      var (item, after) := TakeFrom(f, defs, e, ready, fuel);
      (Some(item), after)
  }

  // --- The iterator ---

  class LazyIterator {
    const f: File
    const defs: Defs
    const elem: Ty
    const fuel: nat
    /** Shards not yet loaded. */
    var shards: seq<ChunkNode>
    var currentPayload: bytes
    var currentPos: nat
    var currentChildren: seq<ChunkNode>
    var itemsLeftInShard: nat
    const totalItems: nat
    var itemsYielded: nat

    constructor (f: File, defs: Defs, elem: Ty, fuel: nat, shards: seq<ChunkNode>, total: nat)
      ensures this.f == f && this.defs == defs && this.elem == elem && this.fuel == fuel && totalItems == total
      ensures Valid() && State() == Stream(shards, Cursor([], []), 0, 0)
    {
      this.f, this.defs, this.elem, this.fuel, this.totalItems := f, defs, elem, fuel, total;
      this.shards, currentPayload, currentPos, currentChildren := shards, [], 0, [];
      itemsLeftInShard, itemsYielded := 0, 0;
    }

    predicate Valid()
      reads this
    {
      currentPos <= |currentPayload|
    }

    function State(): Stream
      requires Valid()
      reads this
    {
      Stream(shards, Cursor(currentPayload[currentPos..], currentChildren), itemsLeftInShard, itemsYielded)
    }

    /** `len`, which panics if more items were yielded than promised. */
    function Len(): Result<nat>
      reads this
    {
      if itemsYielded <= totalItems then Ok(totalItems - itemsYielded) else Err(Overflow)
    }

    method EnsureShardLoaded() returns (r: Result<bool>)
      requires Valid()
      modifies this`shards, this`currentPayload, this`currentPos, this`currentChildren, this`itemsLeftInShard
      ensures Valid()
      ensures match Refill(f, old(State()))
              case Ok(Some(ready)) => r == Ok(true) && State() == ready
              case Ok(None) => r == Ok(false) && State() == old(State())
              case Err(err) => r == Err(err) && State() == Skipped(old(State()))
    {
      if itemsLeftInShard > 0 {
        return Ok(true);
      }
      if shards == [] {
        return Ok(false);
      }
      var shard := shards[0];
      shards := shards[1..];
      var opening := Open(f, shard);
      if opening.Err? {
        return Err(opening.error);
      }
      var len := DecUint(opening.value.bs, true);
      if len.Err? {
        return Err(len.error);
      }
      DecUintSuffix(opening.value.bs, true);
      currentPayload := opening.value.bs;
      currentPos := |opening.value.bs| - |len.value.1|;
      itemsLeftInShard := len.value.0;
      currentChildren := opening.value.kids;
      return Ok(true);
    }

    method TakeItem() returns (r: Result<Mirror>)
      requires Valid()
      modifies this`currentPos, this`currentChildren, this`itemsLeftInShard, this`itemsYielded
      ensures Valid()
      ensures (r, State()) == TakeFrom(f, defs, elem, old(State()), fuel)
    {
      var cur := Cursor(currentPayload[currentPos..], currentChildren);
      var item := ReadLazy(f, defs, elem, cur, fuel);
      if itemsLeftInShard == 0 {
        return Err(Overflow);
      }
      itemsLeftInShard := itemsLeftInShard - 1;
      itemsYielded := itemsYielded + 1;
      if item.Err? {
        return Err(item.error);
      }
      ReadLazySuffix(f, defs, elem, cur, fuel);
      SuffixOfSuffix(currentPayload, currentPos, item.value.1.bs);
      currentPos := |currentPayload| - |item.value.1.bs|;
      currentChildren := item.value.1.kids;
      return Ok(item.value.0);
    }

    method Next() returns (r: Option<Result<Mirror>>)
      requires Valid()
      modifies this
      ensures Valid()
      ensures (r, State()) == Step(f, defs, elem, old(State()), fuel)
    {
      var ready := EnsureShardLoaded();
      if ready.Err? {
        return Some(Err(ready.error));
      }
      if !ready.value {
        return None;
      }
      var item := TakeItem();
      return Some(item);
    }
  }

  lemma SuffixOfSuffix(bs: bytes, pos: nat, rest: bytes)
    requires pos <= |bs| && IsSuffix(rest, bs[pos..])
    ensures IsSuffix(rest, bs)
  {
  }

  /** Reading an item lazily only drops bytes at the front. */
  lemma ReadLazySuffix(f: File, defs: Defs, ty: Ty, cur: Cursor, fuel: nat)
    requires ReadLazy(f, defs, ty, cur, fuel).Ok?
    ensures IsSuffix(ReadLazy(f, defs, ty, cur, fuel).value.1.bs, cur.bs)
  {
    if ty.TStruct? {
      ReadLocalsSuffix(defs, defs[ty.id].tys, defs[ty.id].attrs, cur.bs, fuel - 1);
    }
  }

  lemma {:induction false} ReadLocalsSuffix(defs: Defs, tys: seq<Ty>, attrs: seq<Option<Attr>>, bs: bytes, fuel: nat)
    requires ReadLocals(defs, tys, attrs, bs, fuel).Ok?
    ensures IsSuffix(ReadLocals(defs, tys, attrs, bs, fuel).value.1, bs)
    decreases |tys|
  {
    if tys != [] && attrs != [] {
      if attrs[0].Some? {
        ReadLocalsSuffix(defs, tys[1..], attrs[1..], bs, fuel);
      } else {
        DecSuffix(defs, tys[0], bs, fuel);
        var r0 := Dec(defs, tys[0], bs, fuel).value.1;
        ReadLocalsSuffix(defs, tys[1..], attrs[1..], r0, fuel);
        SuffixThrough(ReadLocals(defs, tys[1..], attrs[1..], r0, fuel).value.1, r0, bs);
      }
    }
  }

  // --- On a stored vector ---

  /** The items left in the shard come next, the unread shards are the last ones of `all`, and
      the cursor stands at the next item; scalars have no children to stand at. */
  ghost predicate Follows(f: File, env: Env, items: seq<Obj>, e: Ty, all: seq<ChunkNode>, st: Stream)
    requires env.cpus >= 1
  {
    && |st.shards| <= |all| == |Lens(env, items)|
    && st.shards == all[|all| - |st.shards|..]
    && st.yielded + st.left == Loaded(env, items, |st.shards|) <= |items|
    && AtNext(f, env, e, st.cur, items[st.yielded..Loaded(env, items, |st.shards|)])
  }

  ghost predicate AtNext(f: File, env: Env, e: Ty, cur: Cursor, os: seq<Obj>)
    requires env.cpus >= 1
  {
    if e.TStruct? then AtItems(f, env, cur, os) else cur.kids == []
  }

  /** Number of items in all shards but the last `unread`. */
  function Loaded(env: Env, items: seq<Obj>, unread: nat): nat
    requires env.cpus >= 1 && unread <= |Lens(env, items)|
  {
    Sum(Lens(env, items)[..|Lens(env, items)| - unread])
  }

  /** What has not been yielded is always what is left in the shard plus the lengths of the
      shards not yet loaded. */
  lemma Unyielded(f: File, env: Env, items: seq<Obj>, e: Ty, all: seq<ChunkNode>, st: Stream)
    requires env.cpus >= 1 && Follows(f, env, items, e, all, st)
    ensures |items| - st.yielded == st.left + Sum(Lens(env, items)[|Lens(env, items)| - |st.shards|..])
  {
    var lens, k := Lens(env, items), |Lens(env, items)| - |st.shards|;
    assert lens == lens[..k] + lens[k..];
    Stitching.SumAppend(lens[..k], lens[k..]);
    ChunkLensSum(|items|, ShardLen(env, items));
  }

  /** What the iterator answers for an element: a mirror of it, or for a scalar that there is
      no child to promise. */
  ghost predicate Answers(f: File, env: Env, defs: Defs, r: Result<Mirror>, o: Obj, e: Ty)
    requires env.cpus >= 1
  {
    if e.TStruct? then r.Ok? && Reflects(f, env, defs, r.value, o, e, NO_CONFIG) else r == Err(MissingChild)
  }

  /** The iterator over a stored vector, of structs or of scalars: while there are elements
      left it answers for the next one, then it ends. So it ends after exactly as many calls
      as there are elements, and the shard's counter never underflows. */
  lemma StepStored(
    f: File, env: Env, defs: Defs, items: seq<Obj>, e: Ty, cid: nat,
    all: seq<ChunkNode>, fuel: nat, st: Stream)
    requires VecTyped(env, defs, items, e, fuel) && KidsHold(f, env.hash, all, AllShards(env, items, cid))
    requires Follows(f, env, items, e, all, st)
    ensures var (r, after) := Step(f, defs, e, st, fuel);
      && st.yielded <= |items|
      && (st.yielded == |items| ==> r == None && after == st)
      && (st.yielded < |items| ==>
            && r.Some? && Answers(f, env, defs, r.value, items[st.yielded], e)
            && Follows(f, env, items, e, all, after) && after.yielded == st.yielded + 1)
  {
    if st.left > 0 {
      ItemStored(f, env, defs, items, e, cid, all, fuel, st);
    } else {
      RefillStored(f, env, defs, items, e, cid, all, fuel, st);
      if st.yielded < |items| {
        ItemStored(f, env, defs, items, e, cid, all, fuel, Refill(f, st).value.value);
      }
    }
  }

  lemma ItemStored(
    f: File, env: Env, defs: Defs, items: seq<Obj>, e: Ty, cid: nat,
    all: seq<ChunkNode>, fuel: nat, st: Stream)
    requires VecTyped(env, defs, items, e, fuel) && Follows(f, env, items, e, all, st) && st.left > 0
    ensures st.yielded < |items|
    ensures var (r, after) := TakeFrom(f, defs, e, st, fuel);
      && Answers(f, env, defs, r, items[st.yielded], e)
      && Follows(f, env, items, e, all, after) && after.yielded == st.yielded + 1
  {
    var end := Loaded(env, items, |st.shards|);
    CursorMoves(f, env, defs, items, e, fuel, st.cur, items[st.yielded..end]);
    assert items[st.yielded..end][0] == items[st.yielded];
    assert items[st.yielded..end][1..] == items[st.yielded + 1..end];
  }

  lemma CursorMoves(
    f: File, env: Env, defs: Defs, items: seq<Obj>, e: Ty, fuel: nat, cur: Cursor, os: seq<Obj>)
    requires VecTyped(env, defs, items, e, fuel)
    requires os != [] && os[0] in items && AtNext(f, env, e, cur, os)
    ensures var r := ReadLazy(f, defs, e, cur, fuel);
      && Answers(f, env, defs, if r.Ok? then Ok(r.value.0) else Err(r.error), os[0], e)
      && (r.Ok? ==> AtNext(f, env, e, r.value.1, os[1..]))
  {
    if e.TStruct? {
      ReadMoves(f, env, defs, e, cur, os, fuel);
    }
  }

  /** With items still to come, the next shard is there and is not empty; without, there is
      no shard left. */
  lemma RefillStored(
    f: File, env: Env, defs: Defs, items: seq<Obj>, e: Ty, cid: nat,
    all: seq<ChunkNode>, fuel: nat, st: Stream)
    requires VecTyped(env, defs, items, e, fuel) && KidsHold(f, env.hash, all, AllShards(env, items, cid))
    requires Follows(f, env, items, e, all, st) && st.left == 0
    ensures st.yielded <= |items|
    ensures st.yielded == |items| ==> Refill(f, st) == Ok(None)
    ensures st.yielded < |items| ==>
              var r := Refill(f, st);
              && r.Ok? && r.value.Some?
              && Follows(f, env, items, e, all, r.value.value)
              && r.value.value.left > 0 && r.value.value.yielded == st.yielded
  {
    CountNext(|items|, ShardLen(env, items), st.yielded, |all| - |st.shards|);
    if st.yielded < |items| {
      ShardRefilled(f, env, defs, items, e, cid, all, fuel, st, |all| - |st.shards|);
    }
  }

  lemma ShardRefilled(
    f: File, env: Env, defs: Defs, items: seq<Obj>, e: Ty, cid: nat,
    all: seq<ChunkNode>, fuel: nat, st: Stream, k: nat)
    requires VecTyped(env, defs, items, e, fuel) && KidsHold(f, env.hash, all, AllShards(env, items, cid))
    requires Follows(f, env, items, e, all, st) && st.left == 0 && k == |all| - |st.shards| < |all|
    requires Sum(Lens(env, items)[..k]) + Lens(env, items)[k] == Sum(Lens(env, items)[..k + 1]) <= |items|
    ensures var r := Refill(f, st);
      && r.Ok? && r.value.Some?
      && Follows(f, env, items, e, all, r.value.value)
      && r.value.value.left == Lens(env, items)[k] && r.value.value.yielded == st.yielded
  {
    ShardAhead(f, env, items, cid, all, k);
    ShardStarts(f, env, defs, items, e, cid, fuel, all[k], k);
    assert all[k..][1..] == all[k + 1..];
    AtShard(f, env, items, e, all, k, Refill(f, st).value.value);
  }

  /** A cursor at the first item of shard `k`, with the shards behind it unread, follows the
      items. */
  lemma AtShard(f: File, env: Env, items: seq<Obj>, e: Ty, all: seq<ChunkNode>, k: nat, st: Stream)
    requires env.cpus >= 1 && k < |all| == |Lens(env, items)| && st.shards == all[k + 1..]
    requires Sum(Lens(env, items)[..k]) + Lens(env, items)[k] == Sum(Lens(env, items)[..k + 1]) <= |items|
    requires st.yielded == Sum(Lens(env, items)[..k]) && st.left == Lens(env, items)[k]
    requires AtNext(f, env, e, st.cur, Shard(env, items, k))
    ensures Follows(f, env, items, e, all, st)
  {
    LoadedAfter(env, items, k, |st.shards|);
  }

  /** Behind its length prefix, shard `k` is a cursor at its first item. */
  lemma ShardStarts(
    f: File, env: Env, defs: Defs, items: seq<Obj>, e: Ty, cid: nat, fuel: nat, shard: ChunkNode, k: nat)
    requires VecTyped(env, defs, items, e, fuel) && k < |Lens(env, items)|
    requires Sum(Lens(env, items)[..k]) + Lens(env, items)[k] <= |items|
    requires StoredAt(f, env.hash, shard, ShardTree(env, Shard(env, items, k), cid))
    ensures var r, os := Open(f, shard), Shard(env, items, k);
      && r.Ok? && DecUint(r.value.bs, true) == Ok((|os|, ShallowAll(os)))
      && AtNext(f, env, e, Cursor(ShallowAll(os), r.value.kids), os)
  {
    ShardOpens(f, env, shard, Shard(env, items, k), cid);
    if !e.TStruct? {
      NoChildren(env, defs, Shard(env, items, k), items, e, fuel);
    }
  }

  lemma CountNext(total: nat, m: nat, yielded: nat, k: nat)
    requires m >= 1 && k <= |ChunkLens(total, m)| && yielded == Sum(ChunkLens(total, m)[..k])
    ensures k == |ChunkLens(total, m)| <==> yielded == total
    ensures k < |ChunkLens(total, m)| ==>
              && ChunkLens(total, m)[k] > 0
              && yielded + ChunkLens(total, m)[k] == Sum(ChunkLens(total, m)[..k + 1]) <= total
  {
    var lens := ChunkLens(total, m);
    ChunkLensSum(total, m);
    assert lens[..|lens|] == lens;
    if k < |lens| {
      SumNext(lens, k);
      SumPrefix(lens, k + 1, |lens|);
    }
  }

  lemma LoadedAfter(env: Env, items: seq<Obj>, k: nat, unread: nat)
    requires env.cpus >= 1 && k + 1 + unread == |Lens(env, items)|
    requires Sum(Lens(env, items)[..k]) + Lens(env, items)[k] == Sum(Lens(env, items)[..k + 1]) <= |items|
    ensures Loaded(env, items, unread) == Sum(Lens(env, items)[..k]) + Lens(env, items)[k]
    ensures Shard(env, items, k) == items[Sum(Lens(env, items)[..k])..Loaded(env, items, unread)]
  {
    assert |Lens(env, items)| - unread == k + 1;
  }

  lemma ShardAhead(f: File, env: Env, items: seq<Obj>, cid: nat, all: seq<ChunkNode>, k: nat)
    requires env.cpus >= 1 && KidsHold(f, env.hash, all, AllShards(env, items, cid)) && k < |Lens(env, items)|
    ensures Sum(Lens(env, items)[..k]) + Lens(env, items)[k] <= |items|
    ensures StoredAt(f, env.hash, all[k], ShardTree(env, Shard(env, items, k), cid))
  {
    ShardIsTree(env, items, cid, k);
    assert StoredAt(f, env.hash, all[k], AllShards(env, items, cid)[k]);
  }

  // --- Iterating ---

  /** `iter_lazy`. */
  method IterLazy(f: File, defs: Defs, e: Ty, n: ChunkNode, fuel: nat) returns (r: Result<LazyIterator>)
    ensures r.Ok? <==> Children(f, n).Ok?
    ensures r.Ok? ==>
              && fresh(r.value) && r.value.Valid()
              && r.value.f == f && r.value.defs == defs && r.value.elem == e && r.value.fuel == fuel
              && r.value.totalItems == Iteration.Len(f, n)
              && r.value.State() == Stream(Children(f, n).value, Cursor([], []), 0, 0)
  {
    var total := Iteration.Len(f, n);
    var kids := Children(f, n);
    if kids.Err? {
      return Err(kids.error);
    }
    var it := new LazyIterator(f, defs, e, fuel, kids.value, total);
    return Ok(it);
  }

  /** A new iterator over a stored vector stands in front of its first element. */
  lemma StartStored(f: File, env: Env, defs: Defs, items: seq<Obj>, e: Ty, cid: nat, n: ChunkNode, fuel: nat)
    requires VecStored(f, env, defs, items, e, cid, n, fuel)
    ensures Iteration.Len(f, n) == |items|
    ensures Children(f, n).Ok? && KidsHold(f, env.hash, Children(f, n).value, AllShards(env, items, cid))
    ensures Follows(f, env, items, e, Children(f, n).value, Stream(Children(f, n).value, Cursor([], []), 0, 0))
  {
    ContainerStored(f, env, defs, items, e, cid, n, fuel);
    OpenRead(f, env.hash, n, VecTree(items, Inlined(env, items), ShardLen(env, items), cid));
  }

  /** One call of `next` over a stored vector. */
  method NextStored(
    it: LazyIterator, ghost env: Env, ghost items: seq<Obj>, ghost cid: nat,
    ghost all: seq<ChunkNode>)
    returns (r: Option<Result<Mirror>>)
    requires VecTyped(env, it.defs, items, it.elem, it.fuel)
    requires KidsHold(it.f, env.hash, all, AllShards(env, items, cid))
    requires it.Valid() && Follows(it.f, env, items, it.elem, all, it.State())
    modifies it
    ensures it.Valid() && Follows(it.f, env, items, it.elem, all, it.State())
    ensures old(it.itemsYielded) <= |items| && (r.None? <==> old(it.itemsYielded) == |items|)
    ensures r.None? ==> it.itemsYielded == old(it.itemsYielded)
    ensures r.Some? ==>
              && it.itemsYielded == old(it.itemsYielded) + 1
              && Answers(it.f, env, it.defs, r.value, items[old(it.itemsYielded)], it.elem)
  {
    StepStored(it.f, env, it.defs, items, it.elem, cid, all, it.fuel, it.State());
    r := it.Next();
  }

  /** Calls `next` until it ends, keeping every answer. */
  method DrainLazy(
    f: File, defs: Defs, e: Ty, n: ChunkNode, fuel: nat, ghost env: Env, ghost items: seq<Obj>, ghost cid: nat)
    returns (rs: seq<Result<Mirror>>)
    requires VecStored(f, env, defs, items, e, cid, n, fuel)
    ensures |rs| == |items| && AllAnswered(f, env, defs, rs, items, e)
  {
    StartStored(f, env, defs, items, e, cid, n, fuel);
    ghost var all := Children(f, n).value;
    var opening := IterLazy(f, defs, e, n, fuel);
    var it := opening.value;
    rs := [];
    while true
      invariant it.Valid() && it.f == f && it.defs == defs && it.elem == e && it.fuel == fuel
      invariant Follows(f, env, items, e, all, it.State()) && it.itemsYielded == |rs|
      invariant AllAnswered(f, env, defs, rs, items, e)
      invariant it.totalItems == |items| && it.Len().Ok? && it.Len().value == |items| - |rs|
      decreases |items| - |rs|
    {
      var next := NextStored(it, env, items, cid, all);
      if next.None? {
        break;
      }
      OneMore(f, env, defs, rs, next.value, items, e);
      rs := rs + [next.value];
    }
  }

  /** Answers for the first elements, in order. */
  ghost predicate AllAnswered(f: File, env: Env, defs: Defs, rs: seq<Result<Mirror>>, items: seq<Obj>, e: Ty)
    requires env.cpus >= 1
  {
    |rs| <= |items| && forall j :: 0 <= j < |rs| ==> Answers(f, env, defs, rs[j], items[j], e)
  }

  lemma OneMore(f: File, env: Env, defs: Defs, rs: seq<Result<Mirror>>, r: Result<Mirror>, items: seq<Obj>, e: Ty)
    requires env.cpus >= 1 && |rs| < |items| && AllAnswered(f, env, defs, rs, items, e)
    requires Answers(f, env, defs, r, items[|rs|], e)
    ensures AllAnswered(f, env, defs, rs + [r], items, e)
  {
  }
}
