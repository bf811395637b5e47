/** Compressors, the chunk format, and the parser that reads a chunk from its end. */
module Format {
  import opened Wrappers
  import opened Bytes

  // --- Compressors ---

  /** A compression algorithm; either direction may refuse its input. */
  datatype Compressor = Compressor(id: nat, compress: bytes -> Option<bytes>, decompress: bytes -> Option<bytes>)

  type Registry = seq<Option<Compressor>>

  function Lookup(reg: Registry, id: nat): Result<Compressor> {
    if id < |reg| && reg[id].Some? then Ok(reg[id].value) else Err(NotRegistered)
  }

  ghost predicate Lossless(c: Compressor) {
    forall x: bytes :: c.compress(x).Some? ==> c.decompress(c.compress(x).value) == Some(x)
  }

  /** Compressors sit at the slot of their id, ids are 0 to 7, and none loses data. */
  ghost predicate RegistryOk(reg: Registry) {
    |reg| <= 8 && forall i :: 0 <= i < |reg| && reg[i].Some? ==> reg[i].value.id == i && Lossless(reg[i].value)
  }

  // --- Writing a chunk ---

  function MetaByte(chunkable: bool, id: nat): byte {
    (id % 8) * 2 + if chunkable then 1 else 0
  }

  predicate IsChunkable(meta: byte) {
    meta % 2 == 1
  }

  function CompressionMethod(meta: byte): nat {
    (meta / 2) % 8
  }

  datatype ChildRef = ChildRef(offset: nat, length: nat)

  const REF_SIZE: nat := 16

  function RefBytes(r: ChildRef): (bs: bytes)
    ensures |bs| == REF_SIZE
  {
    LE(r.offset, 8) + LE(r.length, 8)
  }

  function RefsBytes(refs: seq<ChildRef>): (bs: bytes)
    ensures |bs| == REF_SIZE * |refs|
  {
    if refs == [] then [] else RefBytes(refs[0]) + RefsBytes(refs[1..])
  }

  function Footer(refs: seq<ChildRef>): bytes {
    if refs == [] then [] else RefsBytes(refs) + LE(Sat32(|refs|), 4)
  }

  function Frame(packed: bytes, refs: seq<ChildRef>, id: nat): (bs: bytes)
    ensures |bs| >= 1
  {
    packed + Footer(refs) + [MetaByte(refs != [], id)]
  }

  // --- Reading a chunk ---

  datatype File = File(data: bytes, root: ChildRef, reg: Registry)

  datatype ChunkNode = ChunkNode(offset: nat, length: nat, meta: byte, childCount: nat, payloadEnd: nat)

  /** Resolves an extent of the file to a node; the children table is found backwards. */
  function GetChunk(f: File, offset: nat, length: nat): Result<ChunkNode> {
    if offset + length >= U64 then Err(Overflow)
    else if offset + length > |f.data| then Err(BadFormat)
    else if offset + length == 0 then Err(Overflow)
    else
      var end := offset + length;
      var meta := f.data[end - 1];
      if !IsChunkable(meta) then
        if length == 0 then Err(Overflow) else Ok(ChunkNode(offset, length, meta, 0, end - 1))
      else if length < 5 then Err(BadFormat)
      else
        var count := FromLE(f.data[end - 5..end - 1]);
        var tail := 1 + 4 + count * REF_SIZE;
        if length < tail then Err(BadFormat) else Ok(ChunkNode(offset, length, meta, count, end - tail))
  }

  /** The stored payload, decompressed. */
  function ReadRaw(f: File, n: ChunkNode): Result<bytes> {
    if n.offset > n.payloadEnd || n.payloadEnd > |f.data| then Err(BadFormat)
    else
      var c :- Lookup(f.reg, CompressionMethod(n.meta));
      match c.decompress(f.data[n.offset..n.payloadEnd])
      case Some(p) => Ok(p)
      case None => Err(CompressionFailed)
  }

  function RefFrom(bs: bytes): ChildRef
    requires |bs| == REF_SIZE
  {
    ChildRef(FromLE(bs[0..8]), FromLE(bs[8..16]))
  }

  function RefAt(f: File, n: ChunkNode, i: nat): Result<ChildRef> {
    var at := n.payloadEnd + i * REF_SIZE;
    if i >= n.childCount then Err(BadFormat)
    else if at + REF_SIZE > |f.data| then Err(BadFormat)
    else Ok(RefFrom(f.data[at..at + REF_SIZE]))
  }

  /** The `i`-th child. */
  function ChildAt(f: File, n: ChunkNode, i: nat): Result<ChunkNode> {
    var r :- RefAt(f, n, i);
    GetChunk(f, r.offset, r.length)
  }

  /** Children `i` onwards, in order. */
  function ChildrenFrom(f: File, n: ChunkNode, i: nat): (r: Result<seq<ChunkNode>>)
    requires i <= n.childCount
    decreases n.childCount - i
  {
    if i == n.childCount then Ok([])
    else
      var c :- ChildAt(f, n, i);
      var rest :- ChildrenFrom(f, n, i + 1);
      Ok([c] + rest)
  }

  function Children(f: File, n: ChunkNode): Result<seq<ChunkNode>> {
    ChildrenFrom(f, n, 0)
  }

  // --- Parsing is total on arbitrary bytes ---

  /** Whatever the bytes are, a node that parses lies inside the file and splits its
      extent exactly into payload, children table and meta byte. The only extents that
      make the arithmetic wrap are those of length 0 and those past the 64-bit range. */
  lemma GetChunkSafe(f: File, offset: nat, length: nat)
    ensures var r := GetChunk(f, offset, length);
      && (r.Ok? ==>
            var n := r.value;
            && offset <= n.payloadEnd < offset + length <= |f.data|
            && n.payloadEnd + (if IsChunkable(n.meta) then n.childCount * REF_SIZE + 4 else 0) + 1 == offset + length
            && n.childCount < U32
            && (n.childCount > 0 ==> IsChunkable(n.meta)))
      && (r == Err(Overflow) ==> length == 0 || offset + length >= U64)
  {
    if GetChunk(f, offset, length).Ok? && IsChunkable(GetChunk(f, offset, length).value.meta) {
      var count := f.data[offset + length - 5..offset + length - 1];
      Widths();
      FromLEBound(count);
    }
  }

  /** The children table of a parsed node is inside its extent, so a bad index is the
      only way to miss an entry. */
  lemma RefAtSafe(f: File, offset: nat, length: nat, i: nat)
    requires GetChunk(f, offset, length).Ok?
    ensures RefAt(f, GetChunk(f, offset, length).value, i).Ok? <==> i < GetChunk(f, offset, length).value.childCount
  {
    GetChunkSafe(f, offset, length);
  }

  // --- Framing round trip ---

  predicate FitsRef(r: ChildRef) {
    r.offset < U64 && r.length < U64
  }

  lemma RefRoundTrip(r: ChildRef)
    requires FitsRef(r)
    ensures RefFrom(RefBytes(r)) == r
  {
    Widths();
    LEPrefix(r.offset, 8, LE(r.length, 8));
    FromLERoundTrip(r.length, 8);
    assert RefBytes(r)[0..8] == LE(r.offset, 8);
    assert RefBytes(r)[8..16] == LE(r.length, 8);
  }

  lemma {:induction false} RefsBytesAt(refs: seq<ChildRef>, i: nat)
    requires i < |refs|
    ensures RefsBytes(refs)[i * REF_SIZE..i * REF_SIZE + REF_SIZE] == RefBytes(refs[i])
  {
    var head, tail := RefBytes(refs[0]), RefsBytes(refs[1..]);
    if i == 0 {
      assert (head + tail)[..REF_SIZE] == head;
    } else {
      RefsBytesAt(refs[1..], i - 1);
      DropHead(head, tail, (i - 1) * REF_SIZE, (i - 1) * REF_SIZE + REF_SIZE);
    }
  }

  lemma DropHead(a: bytes, b: bytes, lo: nat, hi: nat)
    requires lo <= hi <= |b|
    ensures (a + b)[|a| + lo..|a| + hi] == b[lo..hi]
  {
  }

  /** The extent at `offset` holds a framed chunk. */
  predicate FramedAt(f: File, offset: nat, packed: bytes, refs: seq<ChildRef>, id: nat) {
    var fr := Frame(packed, refs, id);
    offset + |fr| <= |f.data| && f.data[offset..offset + |fr|] == fr
  }

  lemma FrameEnds(packed: bytes, refs: seq<ChildRef>, id: nat)
    ensures |Frame(packed, refs, id)| == |packed| + |Footer(refs)| + 1
    ensures Frame(packed, refs, id)[|packed| + |Footer(refs)|] == MetaByte(refs != [], id)
    ensures Frame(packed, refs, id)[..|packed|] == packed
  {
  }

  lemma FrameTable(packed: bytes, refs: seq<ChildRef>, id: nat)
    requires refs != []
    ensures |Frame(packed, refs, id)| == |packed| + |RefsBytes(refs)| + 5
    ensures Frame(packed, refs, id)[|packed|..|packed| + |RefsBytes(refs)|] == RefsBytes(refs)
    ensures Frame(packed, refs, id)[|packed| + |RefsBytes(refs)|..|packed| + |RefsBytes(refs)| + 4]
      == LE(Sat32(|refs|), 4)
  {
    Parts(packed, RefsBytes(refs), LE(Sat32(|refs|), 4), [MetaByte(refs != [], id)]);
  }

  lemma FrameLength(packed: bytes, refs: seq<ChildRef>, id: nat)
    requires refs != []
    ensures |Frame(packed, refs, id)| == |packed| + REF_SIZE * |refs| + 5
  {
    FrameTable(packed, refs, id);
  }

  lemma Parts(a: bytes, b: bytes, c: bytes, d: bytes)
    ensures (a + (b + c) + d)[|a|..|a| + |b|] == b
    ensures (a + (b + c) + d)[|a| + |b|..|a| + |b| + |c|] == c
  {
  }

  lemma SubSlice(s: bytes, off: nat, fr: bytes, lo: nat, hi: nat)
    requires off + |fr| <= |s| && s[off..off + |fr|] == fr && lo <= hi <= |fr|
    ensures s[off + lo..off + hi] == fr[lo..hi]
    ensures lo < |fr| ==> s[off + lo] == fr[lo]
  {
    var inner := s[off..off + |fr|];
    assert forall k :: 0 <= k < |inner| ==> inner[k] == s[off + k];
    var x, y := s[off + lo..off + hi], fr[lo..hi];
    forall k | 0 <= k < |x|
      ensures x[k] == y[k]
    {
      assert inner[lo + k] == s[off + (lo + k)];
    }
  }

  lemma MetaRoundTrip(chunkable: bool, id: nat)
    ensures IsChunkable(MetaByte(chunkable, id)) == chunkable
    ensures CompressionMethod(MetaByte(chunkable, id)) == id <==> id < 8
  {
  }

  function NodeOf(offset: nat, packed: bytes, refs: seq<ChildRef>, id: nat): ChunkNode {
    ChunkNode(offset, |Frame(packed, refs, id)|, MetaByte(refs != [], id), |refs|, offset + |packed|)
  }

  /** Parsing a framed chunk gives back its parts. */
  lemma FrameRoundTrip(f: File, offset: nat, packed: bytes, refs: seq<ChildRef>, id: nat)
    requires FramedAt(f, offset, packed, refs, id) && |f.data| < U64 && |refs| < U32
    ensures GetChunk(f, offset, |Frame(packed, refs, id)|) == Ok(NodeOf(offset, packed, refs, id))
    ensures offset + |packed| <= |f.data| && f.data[offset..offset + |packed|] == packed
  {
    FramedEnds(f, offset, packed, refs, id);
    MetaRoundTrip(refs != [], id);
    if refs != [] {
      FramedCount(f, offset, packed, refs, id);
      FrameLength(packed, refs, id);
    }
  }

  lemma FramedEnds(f: File, offset: nat, packed: bytes, refs: seq<ChildRef>, id: nat)
    requires FramedAt(f, offset, packed, refs, id)
    ensures |Frame(packed, refs, id)| == |packed| + |Footer(refs)| + 1
    ensures offset + |Frame(packed, refs, id)| <= |f.data|
    ensures f.data[offset + |Frame(packed, refs, id)| - 1] == MetaByte(refs != [], id)
    ensures f.data[offset..offset + |packed|] == packed
  {
    FrameEnds(packed, refs, id);
    SubSlice(f.data, offset, Frame(packed, refs, id), |packed| + |Footer(refs)|, |Frame(packed, refs, id)|);
    SubSlice(f.data, offset, Frame(packed, refs, id), 0, |packed|);
  }

  lemma FramedCount(f: File, offset: nat, packed: bytes, refs: seq<ChildRef>, id: nat)
    requires FramedAt(f, offset, packed, refs, id) && refs != [] && |refs| < U32
    ensures FromLE(f.data[offset + |Frame(packed, refs, id)| - 5..offset + |Frame(packed, refs, id)| - 1]) == |refs|
  {
    var lo := CountField(packed, refs, id);
    StoredCount(f, offset, Frame(packed, refs, id), lo, |refs|,
                offset + |Frame(packed, refs, id)| - 5, offset + |Frame(packed, refs, id)| - 1);
  }

  lemma TableField(packed: bytes, refs: seq<ChildRef>, id: nat)
    requires refs != []
    ensures |packed| + |RefsBytes(refs)| <= |Frame(packed, refs, id)|
    ensures Frame(packed, refs, id)[|packed|..|packed| + |RefsBytes(refs)|] == RefsBytes(refs)
  {
    FrameTable(packed, refs, id);
  }

  lemma CountField(packed: bytes, refs: seq<ChildRef>, id: nat) returns (lo: nat)
    requires refs != []
    ensures lo + 5 == |Frame(packed, refs, id)|
    ensures Frame(packed, refs, id)[lo..lo + 4] == LE(Sat32(|refs|), 4)
  {
    FrameTable(packed, refs, id);
    lo := |packed| + |RefsBytes(refs)|;
  }

  lemma StoredCount(f: File, offset: nat, fr: bytes, lo: nat, count: nat, from: nat, to: nat)
    requires offset + |fr| <= |f.data| && f.data[offset..offset + |fr|] == fr && count < U32
    requires lo + 5 == |fr| && fr[lo..lo + 4] == LE(Sat32(count), 4)
    requires from == offset + lo && to == offset + (lo + 4)
    ensures FromLE(f.data[from..to]) == count
  {
    SubSlice(f.data, offset, fr, lo, lo + 4);
    Widths();
    FromLERoundTrip(count, 4);
  }

  lemma FramedRefAt(f: File, n: ChunkNode, packed: bytes, refs: seq<ChildRef>, id: nat, i: nat)
    requires n == NodeOf(n.offset, packed, refs, id) && FramedAt(f, n.offset, packed, refs, id)
    requires i < |refs| && FitsRef(refs[i])
    ensures RefAt(f, n, i) == Ok(refs[i])
  {
    FrameEntry(packed, refs, id, i);
    StoredEntry(f, n.offset, Frame(packed, refs, id), |packed| + i * REF_SIZE, refs[i], n.payloadEnd + i * REF_SIZE);
    RefAtIs(f, n, i, n.payloadEnd + i * REF_SIZE, refs[i]);
  }

  lemma StoredEntry(f: File, offset: nat, fr: bytes, lo: nat, r: ChildRef, at: nat)
    requires offset + |fr| <= |f.data| && f.data[offset..offset + |fr|] == fr
    requires lo + REF_SIZE <= |fr| && fr[lo..lo + REF_SIZE] == RefBytes(r) && at == offset + lo
    ensures at + REF_SIZE <= |f.data| && f.data[at..at + REF_SIZE] == RefBytes(r)
  {
    SubSlice(f.data, offset, fr, lo, lo + REF_SIZE);
    assert offset + (lo + REF_SIZE) == at + REF_SIZE;
  }

  lemma RefAtIs(f: File, n: ChunkNode, i: nat, at: nat, r: ChildRef)
    requires at == n.payloadEnd + i * REF_SIZE && i < n.childCount && FitsRef(r)
    requires at + REF_SIZE <= |f.data| && f.data[at..at + REF_SIZE] == RefBytes(r)
    ensures RefAt(f, n, i) == Ok(r)
  {
    RefRoundTrip(r);
  }

  lemma FrameEntry(packed: bytes, refs: seq<ChildRef>, id: nat, i: nat)
    requires i < |refs|
    ensures |packed| + i * REF_SIZE + REF_SIZE <= |Frame(packed, refs, id)|
    ensures Frame(packed, refs, id)[|packed| + i * REF_SIZE..|packed| + i * REF_SIZE + REF_SIZE] == RefBytes(refs[i])
  {
    TableField(packed, refs, id);
    RefsBytesAt(refs, i);
    EntryInside(Frame(packed, refs, id), |packed|, RefsBytes(refs), i * REF_SIZE, RefBytes(refs[i]));
  }

  lemma EntryInside(fr: bytes, start: nat, table: bytes, at: nat, entry: bytes)
    requires start + |table| <= |fr| && fr[start..start + |table|] == table
    requires at + |entry| <= |table| && table[at..at + |entry|] == entry
    ensures start + at + |entry| <= |fr| && fr[start + at..start + at + |entry|] == entry
  {
    SubSlice(fr, start, table, at, at + |entry|);
    assert start + (at + |entry|) == start + at + |entry|;
  }
}
