/** `visit` and `visit_inlined`: the recursion that builds the arena. */
module Visitor {
  import opened Wrappers
  import opened Bytes
  import opened Values
  import opened Sharding
  import opened Jobs
  import opened Trees
  import opened Graph

  /** `add_node` followed by the link to the parent, if there is one. */
  method Open(g: TaskGraph, job: Job, cid: nat, parent: Option<nat>) returns (id: nat)
    requires HasParent(g.nodes, parent) && |g.nodes| < U32
    modifies g
    ensures id == |old(g.nodes)| && g.nodes == Opened(old(g.nodes), job, cid, parent)
  {
    id := g.AddNode(job, cid);
    if parent.Some? {
      g.LinkParentChild(parent.value, id);
    }
  }

  /** Visiting an object lays its chunk tree out in preorder at the end of the arena, and
      otherwise only gives the parent one more dependency and one more empty slot. */
  method Visit(g: TaskGraph, env: Env, o: Obj, parent: Option<nat>, at: Attr)
    requires env.cpus >= 1 && HasParent(g.nodes, parent)
    requires |g.nodes| + Size(TreeOf(env, o, at)) <= U32
    modifies g
    ensures g.nodes == Visited(old(g.nodes), TreeOf(env, o, at), parent)
    decreases o, 3
  {
    ghost var ns := g.nodes;
    ghost var t := TreeOf(env, o, at);
    match o
    case OLeaf(_) =>
      var _ := Open(g, PrimitiveJob(o), at.cid, parent);
      Childless(ns, t, parent);
    case OStruct(fs, attrs) =>
      var id := Open(g, StructJob(fs, attrs), at.cid, parent);
      VisitRemotes(g, env, fs, attrs, id);
      Closed(ns, t, parent);
    case OVec(items) => VisitVec(g, env, o, parent, at);
    case OMap(ks, vs) =>
      if at.isMap && |ks| == |vs| {
        VisitMap(g, env, o, parent, at);
      } else if |ks| != 0 {
        var _ := Open(g, PrimitiveJob(o), at.cid, parent);
        Childless(ns, t, parent);
      } else {
        var _ := Open(g, MapContainerJob(0), 0, parent);
        Childless(ns, t, parent);
      }
  }

  lemma Childless(ns: seq<Node>, t: Tree, parent: Option<nat>)
    requires HasParent(ns, parent) && t.children == []
    ensures Opened(ns, t.job, t.cid, parent) == Visited(ns, t, parent)
  {
    Closed(ns, t, parent);
    AttachNothing(Opened(ns, t.job, t.cid, parent), |ns|);
  }

  /** Each remote field becomes a child of node `pid`, in declaration order. */
  method VisitRemotes(g: TaskGraph, env: Env, fs: seq<Obj>, attrs: seq<Option<Attr>>, pid: nat)
    requires env.cpus >= 1 && pid < |g.nodes|
    requires |g.nodes| + SizeAll(RemoteTrees(env, fs, attrs)) <= U32
    modifies g
    ensures g.nodes == Attach(old(g.nodes), RemoteTrees(env, fs, attrs), pid)
    decreases fs, 3
  {
    ghost var ns := g.nodes;
    AttachNothing(ns, pid);
    if fs != [] && attrs != [] {
      ghost var rest := RemoteTrees(env, fs[1..], attrs[1..]);
      if attrs[0].Some? {
        ghost var t := TreeOf(env, fs[0], attrs[0].value);
        assert RemoteTrees(env, fs, attrs) == [t] + rest;
        SizeAllAppend([t], rest);
        Visit(g, env, fs[0], Some(pid), attrs[0].value);
        AttachAppend(ns, [t], rest, pid);
      } else {
        assert RemoteTrees(env, fs, attrs) == [] + rest == rest;
      }
      VisitRemotes(g, env, fs[1..], attrs[1..], pid);
    }
  }

  method VisitInlined(g: TaskGraph, env: Env, o: Obj, pid: nat)
    requires env.cpus >= 1 && pid < |g.nodes|
    requires |g.nodes| + SizeAll(InlinedTrees(env, o)) <= U32
    modifies g
    ensures g.nodes == Attach(old(g.nodes), InlinedTrees(env, o), pid)
    decreases o, 0
  {
    AttachNothing(g.nodes, pid);
    if o.OStruct? {
      VisitRemotes(g, env, o.fields, o.attrs, pid);
    }
  }

  /** The items of a shard hand their remote children to the shard, in order. */
  method VisitItems(g: TaskGraph, env: Env, ghost whole: Obj, items: seq<Obj>, pid: nat)
    requires env.cpus >= 1 && pid < |g.nodes|
    requires forall i :: 0 <= i < |items| ==> items[i] < whole
    requires |g.nodes| + SizeAll(Flat(Inlined(env, items))) <= U32
    modifies g
    ensures g.nodes == Attach(old(g.nodes), Flat(Inlined(env, items)), pid)
    decreases whole, 0
  {
    ghost var ns := g.nodes;
    ghost var done: seq<Tree> := [];
    AttachNothing(ns, pid);
    for i := 0 to |items|
      invariant pid < |g.nodes|
      invariant g.nodes == Attach(ns, done, pid)
      invariant Flat(Inlined(env, items)) == done + Flat(Inlined(env, items[i..]))
    {
      ghost var a, b := InlinedTrees(env, items[i]), Flat(Inlined(env, items[i + 1..]));
      NextItem(env, items, i);
      Assoc(done, a, b);
      SizeAllAppend(done, a + b);
      SizeAllAppend(a, b);
      VisitInlined(g, env, items[i], pid);
      AttachAppend(ns, done, a, pid);
      done := done + a;
    }
    assert done + [] == done;
  }

  lemma NextItem(env: Env, items: seq<Obj>, i: nat)
    requires env.cpus >= 1 && i < |items|
    ensures Flat(Inlined(env, items[i..])) == InlinedTrees(env, items[i]) + Flat(Inlined(env, items[i + 1..]))
  {
    assert items[i..][1..] == items[i + 1..];
    assert Inlined(env, items[i..])[1..] == Inlined(env, items[i + 1..]);
  }

  method VisitVec(g: TaskGraph, env: Env, o: Obj, parent: Option<nat>, at: Attr)
    requires env.cpus >= 1 && HasParent(g.nodes, parent) && o.OVec?
    requires |g.nodes| + Size(TreeOf(env, o, at)) <= U32
    modifies g
    ensures g.nodes == Visited(old(g.nodes), TreeOf(env, o, at), parent)
    decreases o, 2, 1
  {
    var n := ShardLen(env, o.items);
    ghost var ns := g.nodes;
    var runs := BuildRuns(ChunkLens(|o.items|, n));
    var id := Open(g, VecContainerJob(runs, |o.items|), at.cid, parent);
    VisitVecShards(g, env, o, n, at.cid, id);
    Closed(ns, TreeOf(env, o, at), parent);
  }

  method VisitVecShards(g: TaskGraph, env: Env, o: Obj, n: nat, cid: nat, id: nat)
    requires env.cpus >= 1 && o.OVec? && n >= 1 && id < |g.nodes|
    requires |g.nodes| + SizeAll(VecShards(o.items, Inlined(env, o.items), n, cid)) <= U32
    modifies g
    ensures g.nodes == Attach(old(g.nodes), VecShards(o.items, Inlined(env, o.items), n, cid), id)
    decreases o, 2, 0
  {
    var rest := o.items;
    ghost var base, done: seq<Tree> := g.nodes, [];
    ghost var all := VecShards(rest, Inlined(env, rest), n, cid);
    AttachNothing(base, id);
    while rest != []
      invariant id < |g.nodes|
      invariant g.nodes == Attach(base, done, id)
      invariant all == done + VecShards(rest, Inlined(env, rest), n, cid)
      invariant forall i :: 0 <= i < |rest| ==> rest[i] < o
      decreases |rest|
    {
      var k := Min(n, |rest|);
      ghost var shard := Tree(VecShardJob(rest[..k]), cid, Flat(Inlined(env, rest[..k])));
      ghost var todo := VecShards(rest[k..], Inlined(env, rest[k..]), n, cid);
      NextShard(env, rest, n, cid);
      RoomFor(|base|, done, shard, todo, all);
      VisitVecShard(g, env, o, rest[..k], cid, id);
      AttachAppend(base, done, [shard], id);
      Assoc(done, [shard], todo);
      done := done + [shard];
      rest := rest[k..];
    }
    assert done + [] == done;
  }

  method VisitVecShard(g: TaskGraph, env: Env, ghost whole: Obj, chunk: seq<Obj>, cid: nat, id: nat)
    requires env.cpus >= 1 && id < |g.nodes|
    requires forall i :: 0 <= i < |chunk| ==> chunk[i] < whole
    requires |g.nodes| + 1 + SizeAll(Flat(Inlined(env, chunk))) <= U32
    modifies g
    ensures g.nodes == Attach(old(g.nodes), [Tree(VecShardJob(chunk), cid, Flat(Inlined(env, chunk)))], id)
    decreases whole, 1
  {
    ghost var ns := g.nodes;
    var sid := Open(g, VecShardJob(chunk), cid, Some(id));
    VisitItems(g, env, whole, chunk, sid);
    Closed(ns, Tree(VecShardJob(chunk), cid, Flat(Inlined(env, chunk))), Some(id));
  }

  lemma NextShard(env: Env, items: seq<Obj>, n: nat, cid: nat)
    requires env.cpus >= 1 && n >= 1 && items != []
    ensures var k := Min(n, |items|);
      VecShards(items, Inlined(env, items), n, cid)
      == [Tree(VecShardJob(items[..k]), cid, Flat(Inlined(env, items[..k])))]
         + VecShards(items[k..], Inlined(env, items[k..]), n, cid)
  {
    var k := Min(n, |items|);
    InlinedSplit(env, items, k);
  }

  lemma {:induction false} InlinedAt(env: Env, os: seq<Obj>, i: nat)
    requires env.cpus >= 1 && i < |os|
    ensures Inlined(env, os)[i] == InlinedTrees(env, os[i])
  {
    if i > 0 {
      InlinedAt(env, os[1..], i - 1);
    }
  }

  lemma InlinedSplit(env: Env, os: seq<Obj>, k: nat)
    requires env.cpus >= 1 && k <= |os|
    ensures Inlined(env, os)[..k] == Inlined(env, os[..k]) && Inlined(env, os)[k..] == Inlined(env, os[k..])
  {
    forall i | 0 <= i < k
      ensures Inlined(env, os)[i] == Inlined(env, os[..k])[i]
    {
      InlinedAt(env, os, i);
      InlinedAt(env, os[..k], i);
    }
    forall i | 0 <= i < |os| - k
      ensures Inlined(env, os)[k..][i] == Inlined(env, os[k..])[i]
    {
      InlinedAt(env, os, k + i);
      InlinedAt(env, os[k..], i);
    }
  }

  /** The nodes still to be added fit the id space. */
  lemma RoomFor(used: nat, done: seq<Tree>, next: Tree, todo: seq<Tree>, all: seq<Tree>)
    requires all == done + ([next] + todo) && used + SizeAll(all) <= U32
    ensures used + SizeAll(done) + 1 + SizeAll(next.children) <= U32
  {
    SizeAllAppend(done, [next] + todo);
    assert SizeAll([next] + todo) == Size(next) + SizeAll(todo);
  }

  // --- Sharded maps ---

  /** Phase 1: hand every entry to the bucket its hash selects, in iteration order. */
  method Distribute(h: Hash, ks: seq<Leaf>, vs: seq<Obj>, n: nat) returns (bk: seq<seq<Leaf>>, bv: seq<seq<Obj>>)
    requires n > 0 && |ks| == |vs|
    ensures |bk| == |bv| == n
    ensures forall b :: 0 <= b < n ==> bk[b] == Pick(h, n, b, ks, ks) && bv[b] == Pick(h, n, b, ks, vs)
  {
    bk, bv := seq(n, _ => []), seq(n, _ => []);
    for i := 0 to |ks|
      invariant |bk| == |bv| == n
      invariant forall b :: 0 <= b < n ==> bk[b] == Pick(h, n, b, ks[..i], ks[..i])
      invariant forall b :: 0 <= b < n ==> bv[b] == Pick(h, n, b, ks[..i], vs[..i])
    {
      var idx := h(ks[i]) % n;
      forall b | 0 <= b < n
        ensures Pick(h, n, b, ks[..i + 1], ks[..i + 1])
          == Pick(h, n, b, ks[..i], ks[..i]) + (if idx == b then [ks[i]] else [])
        ensures Pick(h, n, b, ks[..i + 1], vs[..i + 1])
          == Pick(h, n, b, ks[..i], vs[..i]) + (if idx == b then [vs[i]] else [])
      {
        PickLast(h, n, b, ks, ks, i);
        PickLast(h, n, b, ks, vs, i);
      }
      bk := bk[idx := bk[idx] + [ks[i]]];
      bv := bv[idx := bv[idx] + [vs[i]]];
    }
    assert ks[..|ks|] == ks && vs[..|ks|] == vs;
  }

  lemma {:induction false} PickAppend<T>(
    h: Hash, n: nat, b: nat, ks: seq<Leaf>, xs: seq<T>, ks': seq<Leaf>, xs': seq<T>)
    requires n > 0 && |ks| == |xs| && |ks'| == |xs'|
    ensures Pick(h, n, b, ks + ks', xs + xs') == Pick(h, n, b, ks, xs) + Pick(h, n, b, ks', xs')
  {
    if ks == [] {
      assert ks + ks' == ks' && xs + xs' == xs';
    } else {
      assert (ks + ks')[1..] == ks[1..] + ks' && (xs + xs')[1..] == xs[1..] + xs';
      PickAppend(h, n, b, ks[1..], xs[1..], ks', xs');
      Assoc(if h(ks[0]) % n == b then [xs[0]] else [], Pick(h, n, b, ks[1..], xs[1..]), Pick(h, n, b, ks', xs'));
    }
  }

  lemma PickLast<T>(h: Hash, n: nat, b: nat, ks: seq<Leaf>, xs: seq<T>, i: nat)
    requires n > 0 && |ks| == |xs| && i < |ks|
    ensures Pick(h, n, b, ks[..i + 1], xs[..i + 1])
         == Pick(h, n, b, ks[..i], xs[..i]) + (if h(ks[i]) % n == b then [xs[i]] else [])
  {
    assert ks[..i + 1] == ks[..i] + [ks[i]] && xs[..i + 1] == xs[..i] + [xs[i]];
    PickAppend(h, n, b, ks[..i], xs[..i], [ks[i]], [xs[i]]);
  }

  /** Picking a bucket commutes with computing the children of each value. */
  lemma {:induction false} PickInlined(env: Env, n: nat, b: nat, ks: seq<Leaf>, vs: seq<Obj>)
    requires env.cpus >= 1 && n > 0 && |ks| == |vs|
    ensures Pick(env.hash, n, b, ks, Inlined(env, vs)) == Inlined(env, Pick(env.hash, n, b, ks, vs))
  {
    if ks != [] {
      var rest := Pick(env.hash, n, b, ks[1..], vs[1..]);
      assert Inlined(env, vs)[1..] == Inlined(env, vs[1..]);
      PickInlined(env, n, b, ks[1..], vs[1..]);
      assert ([vs[0]] + rest)[1..] == rest && [] + rest == rest && [] + Inlined(env, rest) == Inlined(env, rest);
    }
  }

  lemma {:induction false} PickSmaller(h: Hash, n: nat, b: nat, ks: seq<Leaf>, vs: seq<Obj>, whole: Obj)
    requires n > 0 && |ks| == |vs| && forall i :: 0 <= i < |vs| ==> vs[i] < whole
    ensures forall i :: 0 <= i < |Pick(h, n, b, ks, vs)| ==> Pick(h, n, b, ks, vs)[i] < whole
  {
    if ks != [] {
      PickSmaller(h, n, b, ks[1..], vs[1..], whole);
    }
  }

  /** The shard's id is reserved with a placeholder; the job goes in after the children. */
  method VisitMapShard(g: TaskGraph, env: Env, ghost whole: Obj, bk: seq<Leaf>, bv: seq<Obj>, cid: nat, id: nat)
    requires env.cpus >= 1 && id < |g.nodes|
    requires forall i :: 0 <= i < |bv| ==> bv[i] < whole
    requires |g.nodes| + 1 + SizeAll(Flat(Inlined(env, bv))) <= U32
    modifies g
    ensures g.nodes == Attach(old(g.nodes), [Tree(MapShardJob(bk, bv), cid, Flat(Inlined(env, bv)))], id)
    decreases whole, 1
  {
    ghost var ns := g.nodes;
    var child := Open(g, PlaceholderJob, 0, Some(id));
    VisitItems(g, env, whole, bv, child);
    g.ReplaceJob(child, MapShardJob(bk, bv), cid);
    SwapJob(ns, Tree(MapShardJob(bk, bv), cid, Flat(Inlined(env, bv))), PlaceholderJob, 0, Some(id));
  }

  method VisitMap(g: TaskGraph, env: Env, o: Obj, parent: Option<nat>, at: Attr)
    requires env.cpus >= 1 && HasParent(g.nodes, parent) && o.OMap? && at.isMap && |o.keys| == |o.vals|
    requires |g.nodes| + Size(TreeOf(env, o, at)) <= U32
    modifies g
    ensures g.nodes == Visited(old(g.nodes), TreeOf(env, o, at), parent)
    decreases o, 2, 1
  {
    var n := NumShards(|o.keys|);
    ghost var ns := g.nodes;
    var bk: seq<seq<Leaf>>, bv: seq<seq<Obj>> := [], [];
    if n > 0 {
      bk, bv := Distribute(env.hash, o.keys, o.vals, n);
    }
    var id := Open(g, MapContainerJob(Sat32(n)), at.cid, parent);
    VisitMapShards(g, env, o, n, bk, bv, at.cid, id);
    Closed(ns, TreeOf(env, o, at), parent);
  }

  method VisitMapShards(
    g: TaskGraph, env: Env, o: Obj, n: nat, bk: seq<seq<Leaf>>, bv: seq<seq<Obj>>, cid: nat, id: nat)
    requires env.cpus >= 1 && o.OMap? && |o.keys| == |o.vals| && id < |g.nodes| && |bk| == |bv| == n
    requires forall b :: 0 <= b < n ==> bk[b] == Pick(env.hash, n, b, o.keys, o.keys)
    requires forall b :: 0 <= b < n ==> bv[b] == Pick(env.hash, n, b, o.keys, o.vals)
    requires |g.nodes| + SizeAll(MapShards(env.hash, o.keys, o.vals, Inlined(env, o.vals), n, 0, cid)) <= U32
    modifies g
    ensures g.nodes == Attach(old(g.nodes), MapShards(env.hash, o.keys, o.vals, Inlined(env, o.vals), n, 0, cid), id)
    decreases o, 2, 0
  {
    var ks, vs := o.keys, o.vals;
    ghost var base, forests := g.nodes, Inlined(env, vs);
    ghost var all := MapShards(env.hash, ks, vs, forests, n, 0, cid);
    ghost var done: seq<Tree> := [];
    AttachNothing(base, id);
    for b := 0 to n
      invariant id < |g.nodes|
      invariant g.nodes == Attach(base, done, id)
      invariant all == done + MapShards(env.hash, ks, vs, forests, n, b, cid)
    {
      ghost var shard := MapShard(env.hash, ks, vs, forests, n, b, cid);
      ghost var todo := MapShards(env.hash, ks, vs, forests, n, b + 1, cid);
      RoomFor(|base|, done, shard, todo, all);
      PickInlined(env, n, b, ks, vs);
      PickSmaller(env.hash, n, b, ks, vs, o);
      VisitMapShard(g, env, o, bk[b], bv[b], cid, id);
      AttachAppend(base, done, [shard], id);
      Assoc(done, [shard], todo);
      done := done + [shard];
    }
    assert done + [] == done;
  }

  /** The whole graph of a root object. */
  method BuildGraph(env: Env, o: Obj) returns (g: TaskGraph)
    requires env.cpus >= 1 && Size(TreeOf(env, o, NO_CONFIG)) <= U32
    ensures fresh(g) && g.nodes == Flatten(TreeOf(env, o, NO_CONFIG), 0, None, None)
  {
    g := new TaskGraph();
    Visit(g, env, o, None, NO_CONFIG);
  }
}
