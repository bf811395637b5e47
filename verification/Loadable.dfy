/** Which objects eager loading gives back, and the small facts the proof rests on. */
module Loadable {
  import opened Wrappers
  import opened Bytes
  import opened Format
  import opened Values
  import opened Bincode
  import opened Sharding
  import opened Jobs
  import opened Trees
  import opened Stored
  import opened Reader

  /** Eager loading returns `o`, held under attribute `at`, exactly when every map inside
      is empty, or sharded with values that have nothing outside their shard, or a single
      blob of at least four bytes. */
  ghost predicate Loads(o: Obj, at: Attr)
    decreases o
  {
    match o
    case OLeaf(_) => true
    case OStruct(fs, attrs) => RemotesLoad(fs, attrs)
    case OVec(items) => forall i :: 0 <= i < |items| ==> ItemLoads(items[i])
    case OMap(ks, vs) => ks == [] || (if at.isMap then SelfContained(vs) else |Enc(o)| >= 4)
  }

  /** An item inside a shard: its local fields always load. */
  ghost predicate ItemLoads(o: Obj)
    decreases o
  {
    match o
    case OStruct(fs, attrs) => RemotesLoad(fs, attrs)
    case _ => true
  }

  ghost predicate RemotesLoad(fs: seq<Obj>, attrs: seq<Option<Attr>>)
    decreases fs
  {
    fs == [] || attrs == [] ||
    ((attrs[0].Some? ==> Loads(fs[0], attrs[0].value)) && RemotesLoad(fs[1..], attrs[1..]))
  }

  /** No value has bytes that its shard entry leaves out. */
  predicate SelfContained(vs: seq<Obj>) {
    forall i :: 0 <= i < |vs| ==> |Shallow(vs[i])| == |Enc(vs[i])|
  }

  // --- Types that the readers accept ---

  /** A chunked vector holds scalars, strings or structs. */
  predicate NodeTy(ty: Ty) {
    ty.TVec? ==> ty.elem.TLeaf? || ty.elem.TStruct?
  }

  predicate DefsOk(defs: Defs) {
    forall d :: 0 <= d < |defs| ==> DefOk(defs[d])
  }

  predicate DefOk(d: StructDef) {
    && |d.tys| == |d.attrs|
    && forall j :: 0 <= j < |d.attrs| && d.attrs[j].Some? ==> NodeTy(d.tys[j])
  }

  predicate FieldsOk(tys: seq<Ty>, attrs: seq<Option<Attr>>) {
    |tys| == |attrs| && forall j :: 0 <= j < |attrs| && attrs[j].Some? ==> NodeTy(tys[j])
  }

  // --- Depth ---

  ghost predicate Within(os: seq<Obj>, fuel: nat) {
    forall i :: 0 <= i < |os| ==> Depth(os[i]) <= fuel
  }

  lemma {:induction false} DepthAllWithin(os: seq<Obj>, fuel: nat)
    ensures DepthAll(os) <= fuel <==> Within(os, fuel)
  {
    if os != [] {
      DepthAllWithin(os[1..], fuel);
      if DepthAll(os) <= fuel {
        forall i | 0 <= i < |os|
          ensures Depth(os[i]) <= fuel
        {
          assert i > 0 ==> os[i] == os[1..][i - 1];
        }
      } else if DepthAll(os[1..]) > fuel {
        var i :| 0 <= i < |os[1..]| && Depth(os[1..][i]) > fuel;
        assert os[i + 1] == os[1..][i];
      }
    }
  }

  // --- Children that hold trees ---

  ghost predicate KidsHold(f: File, h: Hash, kids: seq<ChunkNode>, ts: seq<Tree>) {
    |kids| == |ts| && forall i :: 0 <= i < |ts| ==> StoredAt(f, h, kids[i], ts[i])
  }

  lemma {:induction false} ChildrenRead(f: File, h: Hash, n: ChunkNode, t: Tree, i: nat)
    requires StoredAt(f, h, n, t) && i <= n.childCount
    ensures ChildrenFrom(f, n, i).Ok?
    ensures KidsHold(f, h, ChildrenFrom(f, n, i).value, t.children[i..])
    decreases n.childCount - i
  {
    if i < n.childCount {
      ChildrenRead(f, h, n, t, i + 1);
      FirstOfRest(t.children, i);
    }
  }

  lemma FirstOfRest<T>(s: seq<T>, i: nat)
    requires i < |s|
    ensures s[i..] == [s[i]] + s[i + 1..]
  {
  }

  lemma OpenRead(f: File, h: Hash, n: ChunkNode, t: Tree)
    requires StoredAt(f, h, n, t)
    ensures Open(f, n).Ok? && Open(f, n).value.bs == Execute(h, t.job).value
    ensures KidsHold(f, h, Open(f, n).value.kids, t.children)
  {
    ChildrenRead(f, h, n, t, 0);
  }

  lemma KidsSplit(f: File, h: Hash, kids: seq<ChunkNode>, a: seq<Tree>, b: seq<Tree>)
    requires KidsHold(f, h, kids, a + b)
    ensures KidsHold(f, h, kids[..|a|], a) && KidsHold(f, h, kids[|a|..], b)
  {
    forall i | 0 <= i < |a|
      ensures StoredAt(f, h, kids[..|a|][i], a[i])
    {
      assert (a + b)[i] == a[i];
    }
    forall i | 0 <= i < |b|
      ensures StoredAt(f, h, kids[|a|..][i], b[i])
    {
      assert (a + b)[|a| + i] == b[i];
    }
  }

  // --- Local and remote values ---

  function LocalValues(fs: seq<Obj>, attrs: seq<Option<Attr>>): seq<Value> {
    if fs == [] || attrs == [] then []
    else (if attrs[0].None? then [ValueOf(fs[0])] else []) + LocalValues(fs[1..], attrs[1..])
  }

  function RemoteValues(fs: seq<Obj>, attrs: seq<Option<Attr>>): seq<Value> {
    if fs == [] || attrs == [] then []
    else (if attrs[0].Some? then [ValueOf(fs[0])] else []) + RemoteValues(fs[1..], attrs[1..])
  }

  lemma {:induction false} LocalsRead(
    defs: Defs, fs: seq<Obj>, tys: seq<Ty>, attrs: seq<Option<Attr>>, rest: bytes, fuel: nat)
    requires AllHave(defs, fs, tys) && |attrs| == |fs| && Within(fs, fuel)
    ensures ReadLocals(defs, tys, attrs, EncLocals(fs, attrs) + rest, fuel) == Ok((LocalValues(fs, attrs), rest))
    decreases |fs|
  {
    if fs == [] {
      assert EncLocals(fs, attrs) + rest == rest;
    } else {
      var tail := EncLocals(fs[1..], attrs[1..]);
      LocalsRead(defs, fs[1..], tys[1..], attrs[1..], rest, fuel);
      if attrs[0].None? {
        DecRoundTrip(defs, fs[0], tys[0], tail + rest, fuel);
        Assoc(Enc(fs[0]), tail, rest);
      } else {
        assert [] + tail == tail && [] + LocalValues(fs[1..], attrs[1..]) == LocalValues(fs[1..], attrs[1..]);
      }
    }
  }

  /** Merging the right locals gives the struct back exactly for the right remotes. */
  lemma {:induction false} MergeValues(fs: seq<Obj>, attrs: seq<Option<Attr>>, rs: seq<Value>)
    requires |attrs| == |fs| && |rs| == |RemoteValues(fs, attrs)|
    ensures Merge(attrs, LocalValues(fs, attrs), rs) == ValuesOf(fs) <==> rs == RemoteValues(fs, attrs)
    decreases |fs|
  {
    if fs != [] {
      var ls', rs' := LocalValues(fs[1..], attrs[1..]), RemoteValues(fs[1..], attrs[1..]);
      if attrs[0].None? {
        assert LocalValues(fs, attrs)[1..] == ls';
        assert [] + rs' == rs';
        MergeValues(fs[1..], attrs[1..], rs);
        SameTail(ValueOf(fs[0]), Merge(attrs[1..], ls', rs), ValueOf(fs[0]), ValuesOf(fs[1..]));
      } else {
        assert [] + ls' == ls';
        MergeValues(fs[1..], attrs[1..], rs[1..]);
        assert rs == [rs[0]] + rs[1..];
        SameTail(rs[0], Merge(attrs[1..], ls', rs[1..]), ValueOf(fs[0]), ValuesOf(fs[1..]));
        SameTail(rs[0], rs[1..], ValueOf(fs[0]), rs');
      }
    }
  }

  lemma SameTail<T>(x: T, xs: seq<T>, y: T, ys: seq<T>)
    ensures [x] + xs == [y] + ys <==> x == y && xs == ys
  {
    if [x] + xs == [y] + ys {
      assert ([x] + xs)[0] == ([y] + ys)[0];
      assert ([x] + xs)[1..] == xs && ([y] + ys)[1..] == ys;
    }
  }

  lemma SameParts<T>(a: seq<T>, b: seq<T>, a': seq<T>, b': seq<T>)
    requires |a| == |a'|
    ensures a + b == a' + b' <==> a == a' && b == b'
  {
    if a + b == a' + b' {
      assert (a + b)[..|a|] == a && (a' + b')[..|a|] == a';
      assert (a + b)[|a|..] == b && (a' + b')[|a|..] == b';
    }
  }

  lemma {:induction false} ValuesAppend(a: seq<Obj>, b: seq<Obj>)
    ensures ValuesOf(a + b) == ValuesOf(a) + ValuesOf(b)
  {
    if a == [] {
      assert a + b == b;
    } else {
      assert (a + b)[1..] == a[1..] + b;
      ValuesAppend(a[1..], b);
    }
  }

  // --- The run table ---

  ghost predicate RunsFit(runs: seq<ShardRun>) {
    forall i :: 0 <= i < |runs| ==> runs[i].itemCount < U32 && runs[i].repeat < U32
  }

  lemma DecRunRoundTrip(r: ShardRun, rest: bytes)
    requires r.itemCount < U32 && r.repeat < U32
    ensures DecRun(EncRun(r) + rest) == Ok((r, rest))
  {
    Assoc(EncUint(r.itemCount), EncUint(r.repeat), rest);
    DecUintRoundTrip(r.itemCount, EncUint(r.repeat) + rest, false);
    DecUintRoundTrip(r.repeat, rest, false);
  }

  lemma {:induction false} DecRunListRoundTrip(runs: seq<ShardRun>, rest: bytes)
    requires RunsFit(runs)
    ensures DecRunList(|runs|, EncRunList(runs) + rest) == Ok(runs)
    decreases |runs|
  {
    if runs != [] {
      var next := EncRunList(runs[1..]) + rest;
      Assoc(EncRun(runs[0]), EncRunList(runs[1..]), rest);
      DecRunRoundTrip(runs[0], next);
      DecRunListRoundTrip(runs[1..], rest);
      DecRunListStep(EncRunList(runs) + rest, runs, next, |runs[1..]|);
    }
  }

  lemma DecRunListStep(bs: bytes, runs: seq<ShardRun>, next: bytes, less: nat)
    requires |runs| == less + 1 && DecRun(bs) == Ok((runs[0], next)) && DecRunList(less, next) == Ok(runs[1..])
    ensures DecRunList(|runs|, bs) == Ok(runs)
  {
    assert runs == [runs[0]] + runs[1..];
  }

  lemma DecRunsRoundTrip(runs: seq<ShardRun>)
    requires RunsFit(runs) && |runs| < U64
    ensures DecRuns(EncRuns(runs)) == Ok(runs)
  {
    DecUintRoundTrip(|runs|, EncRunList(runs), true);
    assert EncRunList(runs) + [] == EncRunList(runs);
    DecRunListRoundTrip(runs, []);
  }

  lemma {:induction false} RleFits(runs: seq<ShardRun>, cur: ShardRun, lens: seq<nat>)
    requires RunsFit(runs) && cur.itemCount < U32 && cur.repeat + |lens| < U32
    ensures RunsFit(RleFrom(runs, cur, lens))
    ensures |RleFrom(runs, cur, lens)| <= |runs| + 1 + |lens|
    decreases |lens|
  {
    if lens != [] {
      if Sat32(lens[0]) == cur.itemCount {
        RleFits(runs, ShardRun(cur.itemCount, cur.repeat + 1), lens[1..]);
      } else {
        RleFits(runs + [cur], ShardRun(Sat32(lens[0]), 1), lens[1..]);
      }
    }
  }
}
