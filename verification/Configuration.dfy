/** Which compressor every node of a visited graph asks for. */
module Configuration {
  import opened Wrappers
  import opened Bytes
  import opened Values
  import opened Jobs
  import opened Trees
  import opened Graph
  import opened Shape

  // --- What the fields ask for ---

  /** The id that the chunk of a remote field asks for: that of its attribute. Only an empty
      map outside map mode is written without any configuration. */
  function FieldId(o: Obj, at: Attr): nat {
    if o.OMap? && o.keys == [] && !(at.isMap && o.vals == []) then 0 else at.cid
  }

  /** The ids of a struct's remote fields, in declaration order. */
  function FieldIds(fs: seq<Obj>, attrs: seq<Option<Attr>>): seq<nat> {
    if fs == [] || attrs == [] then []
    else (if attrs[0].Some? then [FieldId(fs[0], attrs[0].value)] else []) + FieldIds(fs[1..], attrs[1..])
  }

  function ItemIds(o: Obj): seq<nat> {
    if o.OStruct? then FieldIds(o.fields, o.attrs) else []
  }

  /** The ids of the remote fields of all items of a shard, item by item. */
  function AllItemIds(os: seq<Obj>): seq<nat> {
    if os == [] then [] else ItemIds(os[0]) + AllItemIds(os[1..])
  }

  /** The child in this slot of a node asks for `kid`. The shards of a vector or of a map ask
      for what the container asks for; the children of a struct or of a shard for what the
      fields they hold ask for, whatever the node itself asks for. */
  predicate KidId(job: Job, cid: nat, slot: nat, kid: nat) {
    match job
    case VecContainerJob(_, _) => kid == cid
    case MapContainerJob(_) => kid == cid
    case StructJob(fs, attrs) => slot < |FieldIds(fs, attrs)| && kid == FieldIds(fs, attrs)[slot]
    case VecShardJob(items) => slot < |AllItemIds(items)| && kid == AllItemIds(items)[slot]
    case MapShardJob(_, vals) => slot < |AllItemIds(vals)| && kid == AllItemIds(vals)[slot]
    case PrimitiveJob(_) => false
    case PlaceholderJob => false
  }

  // --- In the tree ---

  ghost predicate KidsConfigured(t: Tree) {
    forall k :: 0 <= k < |t.children| ==> KidId(t.job, t.cid, k, t.children[k].cid)
  }

  ghost predicate Configured(t: Tree)
    decreases t
  {
    KidsConfigured(t) && AllConfigured(t.children)
  }

  ghost predicate AllConfigured(ts: seq<Tree>)
    decreases ts
  {
    ts == [] || (Configured(ts[0]) && AllConfigured(ts[1..]))
  }

  lemma {:induction false} ConfiguredAppend(a: seq<Tree>, b: seq<Tree>)
    requires AllConfigured(a) && AllConfigured(b)
    ensures AllConfigured(a + b)
  {
    if a == [] {
      assert a + b == b;
    } else {
      assert (a + b)[1..] == a[1..] + b;
      ConfiguredAppend(a[1..], b);
    }
  }

  /** The trees `ts` ask for the ids `ids`, and all is right below them. */
  ghost predicate Ask(ts: seq<Tree>, ids: seq<nat>) {
    && AllConfigured(ts) && |ts| == |ids|
    && forall k :: 0 <= k < |ts| ==> ts[k].cid == ids[k]
  }

  lemma AskAppend(a: seq<Tree>, i: seq<nat>, b: seq<Tree>, j: seq<nat>)
    requires Ask(a, i) && Ask(b, j)
    ensures Ask(a + b, i + j)
  {
    ConfiguredAppend(a, b);
  }

  /** Each item's children ask for what its remote fields ask for. */
  ghost predicate ForestsAsk(os: seq<Obj>, forests: seq<seq<Tree>>) {
    |os| == |forests| && forall i :: 0 <= i < |os| ==> Ask(forests[i], ItemIds(os[i]))
  }

  lemma {:induction false} FlatAsks(os: seq<Obj>, forests: seq<seq<Tree>>)
    requires ForestsAsk(os, forests)
    ensures Ask(Flat(forests), AllItemIds(os))
    decreases |os|
  {
    if os != [] {
      FlatAsks(os[1..], forests[1..]);
      AskAppend(forests[0], ItemIds(os[0]), Flat(forests[1..]), AllItemIds(os[1..]));
    }
  }

  lemma {:induction false} PickAsks(h: Hash, n: nat, b: nat, ks: seq<Leaf>, vs: seq<Obj>, forests: seq<seq<Tree>>)
    requires n > 0 && |ks| == |vs| == |forests| && ForestsAsk(vs, forests)
    ensures ForestsAsk(Pick(h, n, b, ks, vs), Pick(h, n, b, ks, forests))
  {
    PickLength(h, n, b, ks, vs, forests);
    if ks != [] {
      PickAsks(h, n, b, ks[1..], vs[1..], forests[1..]);
    }
  }

  /** Children that all ask for what their container asks for. */
  ghost predicate Alike(ts: seq<Tree>, cid: nat) {
    AllConfigured(ts) && forall k :: 0 <= k < |ts| ==> ts[k].cid == cid
  }

  lemma {:induction false} VecShardsAlike(items: seq<Obj>, forests: seq<seq<Tree>>, n: nat, cid: nat)
    requires n >= 1 && ForestsAsk(items, forests)
    ensures Alike(VecShards(items, forests, n, cid), cid)
    decreases |items|
  {
    if items != [] {
      var k := Min(n, |items|);
      FlatAsks(items[..k], forests[..k]);
      VecShardsAlike(items[k..], forests[k..], n, cid);
      assert Configured(VecShards(items, forests, n, cid)[0]);
    }
  }

  lemma {:induction false} MapShardsAlike(
    h: Hash, ks: seq<Leaf>, vs: seq<Obj>, forests: seq<seq<Tree>>, n: nat, b: nat, cid: nat)
    requires |ks| == |vs| && ForestsAsk(vs, forests) && b <= n
    ensures Alike(MapShards(h, ks, vs, forests, n, b, cid), cid)
    decreases n - b
  {
    if b < n {
      PickAsks(h, n, b, ks, vs, forests);
      FlatAsks(Pick(h, n, b, ks, vs), Pick(h, n, b, ks, forests));
      assert Configured(MapShard(h, ks, vs, forests, n, b, cid));
      MapShardsAlike(h, ks, vs, forests, n, b + 1, cid);
    }
  }

  lemma {:induction false} TreeConfigured(env: Env, o: Obj, at: Attr)
    requires env.cpus >= 1
    ensures Configured(TreeOf(env, o, at)) && TreeOf(env, o, at).cid == FieldId(o, at)
    decreases o, 2
  {
    match o
    case OLeaf(_) =>
    case OStruct(fs, attrs) => RemotesAsk(env, fs, attrs);
    case OVec(items) =>
      InlinedAsk(env, items);
      VecShardsAlike(items, Inlined(env, items), ShardLen(env, items), at.cid);
    case OMap(ks, vs) =>
      if at.isMap && |ks| == |vs| {
        InlinedAsk(env, vs);
        MapShardsAlike(env.hash, ks, vs, Inlined(env, vs), NumShards(|ks|), 0, at.cid);
      }
  }

  lemma {:induction false} RemotesAsk(env: Env, fs: seq<Obj>, attrs: seq<Option<Attr>>)
    requires env.cpus >= 1
    ensures Ask(RemoteTrees(env, fs, attrs), FieldIds(fs, attrs))
    decreases fs, 2
  {
    if fs != [] && attrs != [] {
      RemotesAsk(env, fs[1..], attrs[1..]);
      if attrs[0].Some? {
        var t := TreeOf(env, fs[0], attrs[0].value);
        TreeConfigured(env, fs[0], attrs[0].value);
        AskAppend([t], [t.cid], RemoteTrees(env, fs[1..], attrs[1..]), FieldIds(fs[1..], attrs[1..]));
      } else {
        assert RemoteTrees(env, fs, attrs) == RemoteTrees(env, fs[1..], attrs[1..]);
        assert FieldIds(fs, attrs) == FieldIds(fs[1..], attrs[1..]);
      }
    }
  }

  lemma {:induction false} InlinedAsk(env: Env, os: seq<Obj>)
    requires env.cpus >= 1
    ensures ForestsAsk(os, Inlined(env, os))
    decreases os, 2
  {
    if os != [] {
      if os[0].OStruct? {
        RemotesAsk(env, os[0].fields, os[0].attrs);
      }
      InlinedAsk(env, os[1..]);
      assert Ask(InlinedTrees(env, os[0]), ItemIds(os[0]));
    }
  }

  // --- In the arena ---

  /** Node `i` asks for what its place under its parent prescribes. */
  ghost predicate NodeConfigured(ns: seq<Node>, i: nat)
    requires i < |ns|
  {
    && ns[i].parent.Some? && ns[i].parent.value < |ns| && ns[i].parentSlot.Some?
    && KidId(ns[ns[i].parent.value].job, ns[ns[i].parent.value].cid, ns[i].parentSlot.value, ns[i].cid)
  }

  lemma {:induction false} PlacedConfigured(
    ns: seq<Node>, kids: seq<seq<nat>>, t: Tree, at: nat, parent: Option<nat>, slot: Option<nat>, i: nat)
    requires Placed(ns, kids, t, at, parent, slot) && Configured(t) && at < i < at + Size(t)
    ensures NodeConfigured(ns, i)
    decreases t
  {
    PlacedHead(ns, kids, t, at, parent, slot);
    ForestConfigured(ns, kids, t, t.children, at + 1, at, 0, i);
  }

  lemma {:induction false} ForestConfigured(
    ns: seq<Node>, kids: seq<seq<nat>>, t: Tree, ts: seq<Tree>, at: nat, p: nat, slot: nat, i: nat)
    requires PlacedAll(ns, kids, ts, at, p, slot) && at <= i < at + SizeAll(ts)
    requires p < |ns| && ns[p].job == t.job && ns[p].cid == t.cid && KidsConfigured(t)
    requires slot <= |t.children| && ts == t.children[slot..] && AllConfigured(ts)
    decreases ts
    ensures NodeConfigured(ns, i)
  {
    PlacedFirst(ns, kids, ts, at, p, slot);
    PlacedHead(ns, kids, ts[0], at, Some(p), Some(slot));
    if i == at {
      assert ts[0] == t.children[slot];
    } else if i < at + Size(ts[0]) {
      PlacedConfigured(ns, kids, ts[0], at, Some(p), Some(slot), i);
    } else {
      ForestConfigured(ns, kids, t, ts[1..], at + Size(ts[0]), p, slot + 1, i);
    }
  }

  /** Every node of the graph that `visit` builds for `o`, held under the attribute `at`. */
  lemma GraphConfigured(env: Env, o: Obj, at: Attr, i: nat)
    requires env.cpus >= 1 && i < Size(TreeOf(env, o, at))
    ensures var ns := Flatten(TreeOf(env, o, at), 0, None, None);
      if i == 0 then ns[0].cid == FieldId(o, at) else NodeConfigured(ns, i)
  {
    var t := TreeOf(env, o, at);
    TreeConfigured(env, o, at);
    GraphShape(t);
    PlacedHead(Flatten(t, 0, None, None), Kids(t, 0), t, 0, None, None);
    if i > 0 {
      PlacedConfigured(Flatten(t, 0, None, None), Kids(t, 0), t, 0, None, None, i);
    }
  }
}
