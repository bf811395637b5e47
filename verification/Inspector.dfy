/** Walking the chunk tree of a file. */
module Inspector {
  import opened Wrappers
  import opened Bytes
  import opened Format
  import opened FileHeader
  import opened Jobs
  import opened Trees
  import opened Stored
  import opened Loadable

  // --- Contents ---

  /** Payloads and ordered child lists, without positions. */
  datatype Contents = Contents(payload: bytes, children: seq<Contents>)

  function Walk(f: File, n: ChunkNode, fuel: nat): Result<Contents>
    decreases fuel, 0
  {
    if fuel == 0 then Err(StackOverflow)
    else
      var payload :- ReadRaw(f, n);
      var kids :- Children(f, n);
      var below :- WalkAll(f, kids, fuel - 1);
      Ok(Contents(payload, below))
  }

  function WalkAll(f: File, kids: seq<ChunkNode>, fuel: nat): Result<seq<Contents>>
    decreases fuel, 1 + |kids|
  {
    if kids == [] then Ok([])
    else
      var first :- Walk(f, kids[0], fuel);
      var rest :- WalkAll(f, kids[1..], fuel);
      Ok([first] + rest)
  }

  /** The payload that a tree stands for. */
  function PayloadOf(h: Hash, t: Tree): bytes {
    match Execute(h, t.job) case Ok(p) => p case Err(_) => []
  }

  /** What the tree says the file contains. */
  function ContentsOf(h: Hash, t: Tree): Contents
    decreases t
  {
    Contents(PayloadOf(h, t), AllContentsOf(h, t.children))
  }

  function AllContentsOf(h: Hash, ts: seq<Tree>): seq<Contents>
    decreases ts
  {
    if ts == [] then [] else [ContentsOf(h, ts[0])] + AllContentsOf(h, ts[1..])
  }

  /** The chunks `kids` all start before `limit`. */
  predicate AllBefore(kids: seq<ChunkNode>, limit: nat) {
    forall i :: 0 <= i < |kids| ==> kids[i].offset < limit
  }

  /** All children of `n`, from the `i`-th on, start before `n` does. */
  ghost predicate KidsInFront(f: File, n: ChunkNode, i: nat) {
    forall k :: i <= k < n.childCount && ChildAt(f, n, k).Ok? ==> ChildAt(f, n, k).value.offset < n.offset
  }

  lemma {:induction false} ChildrenInFront(f: File, n: ChunkNode, i: nat)
    requires i <= n.childCount && KidsInFront(f, n, i)
    ensures ChildrenFrom(f, n, i).Ok? ==> AllBefore(ChildrenFrom(f, n, i).value, n.offset)
    decreases n.childCount - i
  {
    if i < n.childCount {
      ChildrenInFront(f, n, i + 1);
    }
  }

  lemma StoredInFront(f: File, h: Hash, n: ChunkNode, t: Tree)
    requires StoredAt(f, h, n, t)
    ensures KidsInFront(f, n, 0)
  {
    forall k | 0 <= k < n.childCount
      ensures ChildAt(f, n, k).Ok? && ChildAt(f, n, k).value.offset < n.offset
    {
      ChildNotEmpty(f, n, k);
    }
  }

  lemma ChildNotEmpty(f: File, n: ChunkNode, i: nat)
    requires ChildAt(f, n, i).Ok?
    ensures ChildAt(f, n, i).value.length >= 1
  {
    var r := RefAt(f, n, i).value;
    GetChunkSafe(f, r.offset, r.length);
  }

  /** The walk ends within as many levels as the node's offset allows, because every child
      lies in front of its parent, and finds exactly the contents of the tree. */
  lemma WalkStored(f: File, h: Hash, n: ChunkNode, t: Tree, fuel: nat)
    requires StoredAt(f, h, n, t) && fuel > n.offset
    ensures Walk(f, n, fuel) == Ok(ContentsOf(h, t))
  {
    NodeParts(f, h, n, t);
    var _ := WalkNode(f, h, n, t, Children(f, n).value, fuel);
  }

  /** From the root, the length of the file bounds the depth. */
  lemma WalkRoot(f: File, h: Hash, t: Tree)
    requires RootNode(f).Ok? && StoredAt(f, h, RootNode(f).value, t)
    ensures Walk(f, RootNode(f).value, |f.data| + 1) == Ok(ContentsOf(h, t))
  {
    GetChunkSafe(f, f.root.offset, f.root.length);
    WalkStored(f, h, RootNode(f).value, t, |f.data| + 1);
  }

  /** Walking `n` finds the contents of `t`. */
  predicate Finds(f: File, h: Hash, n: ChunkNode, t: Tree, fuel: nat, found: Contents) {
    Walk(f, n, fuel) == Ok(found) && found == ContentsOf(h, t)
  }

  predicate FindsAll(f: File, h: Hash, kids: seq<ChunkNode>, ts: seq<Tree>, fuel: nat, found: seq<Contents>) {
    WalkAll(f, kids, fuel) == Ok(found) && found == AllContentsOf(h, ts)
  }

  lemma WalkFrom(
    f: File, h: Hash, n: ChunkNode, t: Tree, kids: seq<ChunkNode>, fuel: nat, less: nat, below: seq<Contents>)
    requires ReadRaw(f, n) == Ok(PayloadOf(h, t)) && Children(f, n) == Ok(kids)
    requires fuel == less + 1 && FindsAll(f, h, kids, t.children, less, below)
    ensures Finds(f, h, n, t, fuel, Contents(PayloadOf(h, t), below))
  {
  }

  lemma {:induction false} WalkNode(f: File, h: Hash, n: ChunkNode, t: Tree, kids: seq<ChunkNode>, fuel: nat)
    returns (found: Contents)
    requires ReadRaw(f, n) == Ok(PayloadOf(h, t)) && Children(f, n) == Ok(kids)
    requires KidsHold(f, h, kids, t.children) && AllBefore(kids, n.offset) && fuel > n.offset
    ensures Finds(f, h, n, t, fuel, found)
    decreases fuel, 0
  {
    var less := fuel - 1;
    var below := WalkKids(f, h, kids, t.children, n.offset, less);
    found := Contents(PayloadOf(h, t), below);
    WalkFrom(f, h, n, t, kids, fuel, less, below);
  }

  lemma {:induction false} WalkKids(f: File, h: Hash, kids: seq<ChunkNode>, ts: seq<Tree>, limit: nat, fuel: nat)
    returns (found: seq<Contents>)
    requires KidsHold(f, h, kids, ts) && AllBefore(kids, limit) && fuel >= limit
    ensures FindsAll(f, h, kids, ts, fuel, found)
    decreases fuel, 1 + |kids|
  {
    if kids == [] {
      found := [];
    } else {
      NodeParts(f, h, kids[0], ts[0]);
      var first := WalkNode(f, h, kids[0], ts[0], Children(f, kids[0]).value, fuel);
      var rest := WalkKids(f, h, kids[1..], ts[1..], limit, fuel);
      found := [first] + rest;
    }
  }

  lemma NodeParts(f: File, h: Hash, n: ChunkNode, t: Tree)
    requires StoredAt(f, h, n, t)
    ensures ReadRaw(f, n) == Ok(PayloadOf(h, t))
    ensures Children(f, n).Ok? && KidsHold(f, h, Children(f, n).value, t.children)
    ensures AllBefore(Children(f, n).value, n.offset)
  {
    ChildrenRead(f, h, n, t, 0);
    assert t.children[0..] == t.children;
    StoredInFront(f, h, n, t);
    ChildrenInFront(f, n, 0);
  }

  // --- Inspection ---

  datatype ChunkInfo = ChunkInfo(
    offset: nat,
    totalLength: nat,
    payloadSize: nat,
    childCount: nat,
    algo: nat,
    isChunkable: bool,
    children: seq<ChunkInfo>)

  /** `inspect_node`, without the type hints. */
  function Inspect(f: File, n: ChunkNode, fuel: nat): Result<ChunkInfo>
    decreases fuel, 0
  {
    if fuel == 0 then Err(StackOverflow)
    else
      var kids :- if n.childCount > 0 then Children(f, n) else Ok([]);
      var infos :- InspectAll(f, kids, fuel - 1);
      if n.payloadEnd < n.offset then Err(Overflow)
      else Ok(ChunkInfo(n.offset, n.length, n.payloadEnd - n.offset, n.childCount,
        CompressionMethod(n.meta), IsChunkable(n.meta), infos))
  }

  function InspectAll(f: File, kids: seq<ChunkNode>, fuel: nat): Result<seq<ChunkInfo>>
    decreases fuel, 1 + |kids|
  {
    if kids == [] then Ok([])
    else
      var first :- Inspect(f, kids[0], fuel);
      var rest :- InspectAll(f, kids[1..], fuel);
      Ok([first] + rest)
  }

  function TotalLength(i: ChunkInfo): nat
    decreases i
  {
    i.totalLength + TotalLengths(i.children)
  }

  function TotalLengths(infos: seq<ChunkInfo>): nat
    decreases infos
  {
    if infos == [] then 0 else TotalLength(infos[0]) + TotalLengths(infos[1..])
  }

  // --- The report on a stored tree ---

  /** The report says where the chunk is and how long, how many children it has, and how its
      length divides: 16 bytes for each child, 4 for their number, 1 for the last byte, and the
      rest is payload. The compressor it names turns those payload bytes into those of `t`. */
  ghost predicate Reported(f: File, h: Hash, info: ChunkInfo, n: ChunkNode, t: Tree)
    decreases t
  {
    && info.offset == n.offset && info.totalLength == n.length
    && info.childCount == |t.children| && (info.childCount > 0 ==> info.isChunkable)
    && info.payloadSize + 16 * info.childCount + (if info.isChunkable then 4 else 0) + 1 == info.totalLength
    && info.offset + info.payloadSize <= |f.data|
    && info.algo < |f.reg| && f.reg[info.algo].Some?
    && f.reg[info.algo].value.decompress(f.data[info.offset..info.offset + info.payloadSize]) == Some(PayloadOf(h, t))
    && Children(f, n).Ok? && AllReported(f, h, info.children, Children(f, n).value, t.children)
  }

  ghost predicate AllReported(f: File, h: Hash, infos: seq<ChunkInfo>, kids: seq<ChunkNode>, ts: seq<Tree>)
    decreases ts
  {
    && |infos| == |kids| == |ts|
    && forall k :: 0 <= k < |ts| ==> Reported(f, h, infos[k], kids[k], ts[k])
  }

  /** `n` is what the file has at its own extent. */
  predicate Parsed(f: File, n: ChunkNode) {
    GetChunk(f, n.offset, n.length) == Ok(n)
  }

  lemma {:induction false} ChildrenParsed(f: File, n: ChunkNode, i: nat)
    requires i <= n.childCount
    ensures ChildrenFrom(f, n, i).Ok? ==> forall k :: 0 <= k < |ChildrenFrom(f, n, i).value| ==>
              Parsed(f, ChildrenFrom(f, n, i).value[k])
    decreases n.childCount - i
  {
    if i < n.childCount {
      ChildrenParsed(f, n, i + 1);
    }
  }

  /** What inspecting a stored tree reports, node by node. */
  lemma {:induction false} InspectStored(f: File, h: Hash, n: ChunkNode, t: Tree, fuel: nat) returns (info: ChunkInfo)
    requires StoredAt(f, h, n, t) && Parsed(f, n) && fuel > n.offset
    ensures Inspect(f, n, fuel) == Ok(info) && Reported(f, h, info, n, t)
  {
    NodeParts(f, h, n, t);
    info := ReportNode(f, h, n, t, Children(f, n).value, fuel);
  }

  lemma {:induction false} ReportNode(f: File, h: Hash, n: ChunkNode, t: Tree, kids: seq<ChunkNode>, fuel: nat)
    returns (info: ChunkInfo)
    requires ReadRaw(f, n) == Ok(PayloadOf(h, t)) && Children(f, n) == Ok(kids) && Parsed(f, n)
    requires KidsHold(f, h, kids, t.children) && AllBefore(kids, n.offset) && fuel > n.offset
    ensures ReportOf(f, h, n, t, fuel, info)
    decreases fuel, 0
  {
    var less := fuel - 1;
    ChildrenParsed(f, n, 0);
    var below := ReportKids(f, h, kids, t.children, n.offset, less);
    info := ReportFrom(f, h, n, t, kids, fuel, less, below);
  }

  ghost predicate ReportOf(f: File, h: Hash, n: ChunkNode, t: Tree, fuel: nat, info: ChunkInfo) {
    Inspect(f, n, fuel) == Ok(info) && Reported(f, h, info, n, t)
  }

  ghost predicate ReportsOf(f: File, h: Hash, kids: seq<ChunkNode>, ts: seq<Tree>, fuel: nat, infos: seq<ChunkInfo>) {
    InspectAll(f, kids, fuel) == Ok(infos) && AllReported(f, h, infos, kids, ts)
  }

  lemma ReportFrom(
    f: File, h: Hash, n: ChunkNode, t: Tree, kids: seq<ChunkNode>, fuel: nat, less: nat, below: seq<ChunkInfo>)
    returns (info: ChunkInfo)
    requires ReadRaw(f, n) == Ok(PayloadOf(h, t)) && Children(f, n) == Ok(kids) && Parsed(f, n)
    requires fuel == less + 1 && |kids| == |t.children| && ReportsOf(f, h, kids, t.children, less, below)
    ensures ReportOf(f, h, n, t, fuel, info)
  {
    GetChunkSafe(f, n.offset, n.length);
    ChildrenCount(f, n, 0);
    info := ChunkInfo(n.offset, n.length, n.payloadEnd - n.offset, n.childCount,
                      CompressionMethod(n.meta), IsChunkable(n.meta), below);
  }

  lemma {:induction false} ChildrenCount(f: File, n: ChunkNode, i: nat)
    requires i <= n.childCount
    ensures ChildrenFrom(f, n, i).Ok? ==> |ChildrenFrom(f, n, i).value| == n.childCount - i
    decreases n.childCount - i
  {
    if i < n.childCount {
      ChildrenCount(f, n, i + 1);
    }
  }

  lemma {:induction false} ReportKids(f: File, h: Hash, kids: seq<ChunkNode>, ts: seq<Tree>, limit: nat, fuel: nat)
    returns (infos: seq<ChunkInfo>)
    requires KidsHold(f, h, kids, ts) && AllBefore(kids, limit) && fuel >= limit
    requires forall k :: 0 <= k < |kids| ==> Parsed(f, kids[k])
    ensures ReportsOf(f, h, kids, ts, fuel, infos)
    decreases fuel, 1 + |kids|
  {
    if kids == [] {
      infos := [];
    } else {
      NodeParts(f, h, kids[0], ts[0]);
      var first := ReportNode(f, h, kids[0], ts[0], Children(f, kids[0]).value, fuel);
      var rest := ReportKids(f, h, kids[1..], ts[1..], limit, fuel);
      infos := [first] + rest;
    }
  }

  // --- Arbitrary bytes ---

  /** The children of every chunk in `s` lie in front of it and are in `s` themselves. */
  ghost predicate Downward(f: File, s: iset<ChunkNode>) {
    forall n :: n in s ==> KidsInFront(f, n, 0) && KidsIn(f, n, s)
  }

  ghost predicate KidsIn(f: File, n: ChunkNode, s: iset<ChunkNode>) {
    forall k :: 0 <= k < n.childCount && ChildAt(f, n, k).Ok? ==> ChildAt(f, n, k).value in s
  }

  ghost predicate AllIn(kids: seq<ChunkNode>, s: iset<ChunkNode>) {
    forall i :: 0 <= i < |kids| ==> kids[i] in s
  }

  lemma {:induction false} ChildrenIn(f: File, n: ChunkNode, s: iset<ChunkNode>, i: nat)
    requires i <= n.childCount && KidsIn(f, n, s)
    ensures ChildrenFrom(f, n, i).Ok? ==> AllIn(ChildrenFrom(f, n, i).value, s)
    ensures ChildrenFrom(f, n, i) != Err(StackOverflow)
    decreases n.childCount - i
  {
    if i < n.childCount {
      ChildrenIn(f, n, s, i + 1);
    }
  }

  /** Neither recursion is cut off at `fuel` levels. */
  predicate Ends(f: File, n: ChunkNode, fuel: nat) {
    Walk(f, n, fuel) != Err(StackOverflow) && Inspect(f, n, fuel) != Err(StackOverflow)
  }

  predicate AllEnd(f: File, kids: seq<ChunkNode>, fuel: nat) {
    WalkAll(f, kids, fuel) != Err(StackOverflow) && InspectAll(f, kids, fuel) != Err(StackOverflow)
  }

  /** Whatever the bytes, if every chunk that can be reached lies behind its children, then
      neither the walk nor the inspection needs more levels than the chunk's offset and one. */
  lemma {:induction false} RecursionEnds(f: File, s: iset<ChunkNode>, n: ChunkNode, fuel: nat)
    requires Downward(f, s) && n in s && fuel > n.offset
    ensures Ends(f, n, fuel)
    decreases fuel, 0
  {
    assert KidsInFront(f, n, 0) && KidsIn(f, n, s);
    ChildrenIn(f, n, s, 0);
    ChildrenInFront(f, n, 0);
    var less := fuel - 1;
    if Children(f, n).Ok? {
      RecursionsEnd(f, s, Children(f, n).value, n.offset, less);
    }
    EndsIfBelow(f, n, fuel, less);
  }

  lemma EndsIfBelow(f: File, n: ChunkNode, fuel: nat, less: nat)
    requires fuel == less + 1 && Children(f, n) != Err(StackOverflow)
    requires Children(f, n).Ok? ==> AllEnd(f, Children(f, n).value, less)
    ensures Ends(f, n, fuel)
  {
    if n.childCount == 0 {
      assert Children(f, n) == Ok([]);
    }
  }

  lemma {:induction false} RecursionsEnd(f: File, s: iset<ChunkNode>, kids: seq<ChunkNode>, limit: nat, fuel: nat)
    requires Downward(f, s) && AllIn(kids, s) && AllBefore(kids, limit) && fuel >= limit
    ensures AllEnd(f, kids, fuel)
    decreases fuel, 1 + |kids|
  {
    if kids != [] {
      RecursionEnds(f, s, kids[0], fuel);
      RecursionsEnd(f, s, kids[1..], limit, fuel);
    }
  }
}
