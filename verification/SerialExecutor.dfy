/** The serial executor: a loop over the arena from the last node to the first. */
module SerialExecutor {
  import opened Wrappers
  import opened Bytes
  import opened Format
  import opened FileHeader
  import opened Values
  import opened Jobs
  import opened Trees
  import opened Graph
  import opened Shape
  import opened Protocol
  import opened SerialRun
  import Visitor
  import opened EndToEnd

  /** The output stream: appends, and returns where each append started. */
  class SeqWriter {
    var data: bytes
    var currentOffset: nat

    ghost predicate Valid()
      reads this
    {
      currentOffset == |data|
    }

    constructor ()
      ensures Valid() && data == []
    {
      data := [];
      currentOffset := 0;
    }

    method WriteAll(buffer: bytes, fault: bool) returns (r: Result<nat>)
      requires Valid()
      modifies this
      ensures Valid()
      ensures fault ==> r == Err(IoFailed) && data == old(data)
      ensures !fault ==> r == Ok(|old(data)|) && data == old(data) + buffer
    {
      var start := currentOffset;
      if fault {
        return Err(IoFailed);
      }
      data := data + buffer;
      currentOffset := currentOffset + |buffer|;
      return Ok(start);
    }
  }

  // --- One node ---

  function Behind(refs: seq<ChildRef>, more: Result<seq<ChildRef>>): Result<seq<ChildRef>> {
    match more
    case Ok(rs) => Ok(refs + rs)
    case Err(e) => Err(e)
  }

  lemma CollectNext(refs: seq<ChildRef>, rest: seq<Option<ChildRef>>)
    requires rest != [] && rest[0].Some?
    ensures Behind(refs, Collect(rest)) == Behind(refs + [rest[0].value], Collect(rest[1..]))
  {
    if Collect(rest[1..]).Ok? {
      Assoc(refs, [rest[0].value], Collect(rest[1..]).value);
    }
  }

  method CollectResults(got: seq<Option<ChildRef>>) returns (r: Result<seq<ChildRef>>)
    ensures r == Collect(got)
  {
    var refs: seq<ChildRef> := [];
    var rest := got;
    assert Collect(got).Ok? ==> [] + Collect(got).value == Collect(got).value;
    while rest != []
      invariant Collect(got) == Behind(refs, Collect(rest))
    {
      if rest[0].None? {
        return Err(MissingChild);
      }
      CollectNext(refs, rest);
      refs := refs + [rest[0].value];
      rest := rest[1..];
    }
    assert refs + [] == refs;
    return Ok(refs);
  }

  method FrameChunk(packed: bytes, refs: seq<ChildRef>, id: nat) returns (buf: bytes)
    ensures buf == Frame(packed, refs, id)
  {
    buf := packed;
    if refs != [] {
      buf := AppendFooter(buf, refs);
    } else {
      assert packed + Footer(refs) == packed;
    }
    buf := buf + [MetaByte(refs != [], id)];
  }

  method AppendFooter(packed: bytes, refs: seq<ChildRef>) returns (buf: bytes)
    requires refs != []
    ensures buf == packed + Footer(refs)
  {
    buf := packed;
    var rest := refs;
    assert packed + RefsBytes(refs) == buf + RefsBytes(rest);
    while rest != []
      invariant packed + RefsBytes(refs) == buf + RefsBytes(rest)
    {
      Assoc(buf, RefBytes(rest[0]), RefsBytes(rest[1..]));
      buf := buf + RefBytes(rest[0]);
      rest := rest[1..];
    }
    assert buf + [] == buf;
    Assoc(packed, RefsBytes(refs), LE(Sat32(|refs|), 4));
    buf := buf + LE(Sat32(|refs|), 4);
  }

  /** Serialise, compress and frame; an unregistered compressor falls back to id 0. */
  method BuildChunk(
    node: Node, got: seq<Option<ChildRef>>, reg: Registry,
    useCompression: bool, h: Hash, ghost c: Config, ghost i: nat)
    returns (r: Result<bytes>)
    requires i < |c.nodes| && c.fallback && c.reg == reg && c.useCompression == useCompression && c.hash == h
    requires node.job == c.nodes[i].job && node.cid == c.nodes[i].cid
    ensures r == Produce(c, i, got)
  {
    var refs := CollectResults(got);
    if refs.Err? {
      return Err(refs.error);
    }
    var payload := Execute(h, node.job);
    if payload.Err? {
      return Err(payload.error);
    }
    var wanted := if useCompression && node.cid == 0 then 1 else node.cid;
    var comp := Lookup(reg, wanted);
    if comp.Err? {
      comp := Lookup(reg, 0);
    }
    if comp.Err? {
      return Err(comp.error);
    }
    var packed := comp.value.compress(payload.value);
    if packed.None? {
      return Err(CompressionFailed);
    }
    var buf := FrameChunk(packed.value, refs.value, comp.value.id);
    return Ok(buf);
  }

  /** The arena holds exactly the slots of the state. */
  ghost predicate Mirrors(ns: seq<Node>, c: Config, s: State)
    requires Sized(c, s)
  {
    |ns| == |c.nodes| && forall j :: 0 <= j < |ns| ==> ns[j] == c.nodes[j].(completed := s.slots[j])
  }

  /** One iteration of the loop is one turn of the node's worker. */
  method ProcessNode(
    g: TaskGraph, writer: SeqWriter, reg: Registry, useCompression: bool, h: Hash, i: nat, fault: bool,
    ghost c: Config, ghost s: State)
    returns (r: Result<ChildRef>)
    requires Valid(c) && Sized(c, s) && i < |c.nodes| && Ready(c, s, i + 1)
    requires c.fallback && c.reg == reg && c.useCompression == useCompression && c.hash == h
    requires Mirrors(g.nodes, c, s) && writer.Valid() && writer.data == s.out
    modifies g, writer
    ensures writer.Valid()
    ensures var t := Times(c, s, (i, fault), TURN);
      && (r.Ok? ==> Ready(c, t, i) && Mirrors(g.nodes, c, t) && writer.data == t.out && t.phase[i] == Finished(r.value))
      && (r.Err? ==> Aborted(t, i, r.error, writer.data))
  {
    var node := g.nodes[i];
    var got := g.TakeChildren(i);
    assert got == s.slots[i];
    var buf := BuildChunk(node, got, reg, useCompression, h, c, i);
    if buf.Err? {
      TurnFailed(c, s, i, fault, buf.error);
      return Err(buf.error);
    }
    var offset := writer.WriteAll(buf.value, fault);
    if offset.Err? {
      TurnFailed(c, s, i, fault, IoFailed);
      return Err(offset.error);
    }
    TurnDone(c, s, i, buf.value);
    var ref := ChildRef(offset.value, |buf.value|);
    if node.parent.Some? {
      var ok := Deliver(g, c, s, i, node.parent.value, node.parentSlot.value, ref);
      if ok.Err? {
        return Err(SlotOutOfBounds);
      }
    }
    return Ok(ref);
  }

  method Deliver(g: TaskGraph, ghost c: Config, ghost s: State, ghost i: nat, p: nat, slot: nat, ref: ChildRef)
    returns (ok: Result<()>)
    requires Sized(c, s) && p < i < |c.nodes| && c.nodes[i].parent == Some(p) && c.nodes[i].parentSlot == Some(slot)
    requires slot < |s.slots[p]| && |g.nodes| == |c.nodes|
    requires forall j :: 0 <= j < |c.nodes| ==>
      g.nodes[j] == c.nodes[j].(completed := if j == i then [] else s.slots[j])
    modifies g
    ensures ok.Ok? && |g.nodes| == |c.nodes|
    ensures forall j :: 0 <= j < |c.nodes| ==> g.nodes[j] == c.nodes[j].(completed := Delivery(c, s.slots, i, ref)[j])
  {
    ok := g.RegisterChildResult(p, slot, ref);
  }

  // --- The whole graph ---

  /** The arena, the output and the root result once the nodes from `i` on have had their
      turns. */
  ghost predicate Reached(
    c: Config, i: nat, fails: Faults, ns: seq<Node>, out: bytes, root: Option<ChildRef>)
    requires Valid(c)
  {
    Shown(c, Exec(c, SerialSchedule(|c.nodes|, i, fails)), i, ns, out, root)
  }

  ghost predicate Shown(c: Config, s: State, i: nat, ns: seq<Node>, out: bytes, root: Option<ChildRef>)
    requires Valid(c) && Sized(c, s)
  {
    Ready(c, s, i) && Mirrors(ns, c, s) && out == s.out && root == s.root
  }

  lemma ReachedInit(c: Config, fails: Faults)
    requires Valid(c)
    ensures Reached(c, |c.nodes|, fails, c.nodes, [], None)
  {
    ReadyInit(c);
  }

  lemma SerialTurn(c: Config, i: nat, fails: Faults)
    requires Valid(c) && i < |c.nodes|
    ensures Exec(c, SerialSchedule(|c.nodes|, i, fails))
         == Times(c, Exec(c, SerialSchedule(|c.nodes|, i + 1, fails)), (i, fails(i)), TURN)
  {
    ExecTimes(c, SerialSchedule(|c.nodes|, i + 1, fails), (i, fails(i)), TURN);
  }

  /** After a turn without an error, the root result is the extent of the node without a
      parent, or what it was before. */
  lemma TurnReached(
    c: Config, i: nat, fails: Faults, s: State, t: State, ns: seq<Node>, r: ChildRef, before: Option<ChildRef>)
    requires Valid(c) && i < |c.nodes| && Sized(c, s) && Sized(c, t)
    requires t == Exec(c, SerialSchedule(|c.nodes|, i, fails))
    requires Ready(c, s, i + 1) && before == s.root
    requires Ready(c, t, i) && Mirrors(ns, c, t) && t.phase[i] == Finished(r)
    ensures Reached(c, i, fails, ns, t.out, if c.nodes[i].parent.None? then Some(r) else before)
  {
    RootStored(c, t, i);
    NoRootYet(c, s, i + 1);
  }

  lemma NoRootYet(c: Config, s: State, i: nat)
    requires Valid(c) && Sized(c, s) && Ready(c, s, i) && i > 0
    ensures s.root.None?
  {
    assert Fresh(s.phase[0]);
  }

  /** What the serial executor returns and writes is the outcome and the output of one
      complete run of the transition system. `fails` says at which node the stream fails. */
  method ExecuteSerial(
    g: TaskGraph, writer: SeqWriter, reg: Registry, useCompression: bool,
    h: Hash, fails: Faults, ghost c: Config)
    returns (r: Result<ChildRef>)
    requires Valid(c) && c.fallback && c.nodes == g.nodes && c.reg == reg
    requires c.useCompression == useCompression && c.hash == h
    requires writer.Valid() && writer.data == []
    modifies g, writer
    ensures writer.Valid()
    ensures var s := Exec(c, SerialSchedule(|c.nodes|, 0, fails));
      && Quiescent(c, s)
      && r == Outcome(s)
      && writer.data == s.out
      && (r.Ok? ==> s.root.Some?)
  {
    var n := |g.nodes|;
    var root: Option<ChildRef> := None;
    var i := n;
    ReachedInit(c, fails);
    while i > 0
      invariant 0 <= i <= n == |c.nodes| && writer.Valid()
      invariant Reached(c, i, fails, g.nodes, writer.data, root)
    {
      ghost var s := Exec(c, SerialSchedule(n, i, fails));
      i := i - 1;
      SerialTurn(c, i, fails);
      var isRoot := g.nodes[i].parent.None?;
      var done := ProcessNode(g, writer, reg, useCompression, h, i, fails(i), c, s);
      if done.Err? {
        Failed(c, i, fails, done.error, writer.data);
        return Err(done.error);
      }
      TurnReached(c, i, fails, s, Exec(c, SerialSchedule(n, i, fails)), g.nodes, done.value, root);
      if isRoot {
        root := Some(done.value);
      }
    }
    AllDone(c, Exec(c, SerialSchedule(n, 0, fails)));
    match root
    case Some(found) => return Ok(found);
    case None => return Err(NoRoot);
  }

  lemma Failed(c: Config, i: nat, fails: Faults, e: Error, out: bytes)
    requires Valid(c) && i < |c.nodes| && Aborted(Exec(c, SerialSchedule(|c.nodes|, i, fails)), i, e, out)
    ensures var s := Exec(c, SerialSchedule(|c.nodes|, 0, fails));
      Quiescent(c, s) && Outcome(s) == Err(e) && s.out == out
  {
    AbortedRest(c, i, fails, e, out);
    RestIsQuiescent(c, Exec(c, SerialSchedule(|c.nodes|, 0, fails)));
  }

  lemma AllDone(c: Config, s: State)
    requires Valid(c) && Sized(c, s) && Ready(c, s, 0)
    ensures Quiescent(c, s) && s.root.Some? && Outcome(s) == Ok(s.root.value)
  {
    RestIsQuiescent(c, s);
    assert s.phase[0].Finished?;
  }

  /** The root result is there exactly when the node without a parent has finished. */
  lemma RootStored(c: Config, s: State, i: nat)
    requires Valid(c) && Sized(c, s) && i < |c.nodes| && Ready(c, s, i)
    ensures s.root == if c.nodes[i].parent.None? then Some(s.phase[i].ref) else None
  {
    if i > 0 {
      assert ParentOk(c.nodes, c.kids, i);
      assert Fresh(s.phase[0]);
    }
  }

  /** `write_sync`: builds the graph, runs it, appends the header. The bytes are those of a
      run of the transition system, so every theorem about files applies to them.
      `headerFails` says whether the stream fails at the header. */
  method WriteSync(w: Options, o: Obj, fails: Faults, headerFails: bool) returns (r: Result<bytes>)
    requires OptionsOk(w) && w.fallback && Size(RootTree(w, o)) <= U32
    ensures var sched := SerialSchedule(Size(RootTree(w, o)), 0, fails);
      var s := Exec(Setup(w, o), sched);
      && Quiescent(Setup(w, o), s)
      && (r.Ok? <==> Outcome(s).Ok? && !headerFails)
      && (r.Ok? ==> s.root.Some? && r.value == Saved(w, o, sched))
      && (Outcome(s).Err? ==> r == Err(Outcome(s).error))
  {
    var g := Visitor.BuildGraph(w.env, o);
    var writer := new SeqWriter();
    ghost var c := Setup(w, o);
    var root := ExecuteSerial(g, writer, w.reg, w.useCompression, w.env.hash, fails, c);
    if root.Err? {
      return Err(root.error);
    }
    var at := writer.WriteAll(Header(root.value), headerFails);
    if at.Err? {
      return Err(at.error);
    }
    return Ok(writer.data);
  }
}
