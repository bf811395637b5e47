/** The 26-byte global header at the tail of a file. */
module FileHeader {
  import opened Wrappers
  import opened Bytes
  import opened Format

  const MAGIC: bytes := [0x50, 0x41, 0x52, 0x34]
  const HEADER_SIZE: nat := 26
  const VERSION: nat := 4

  function Header(root: ChildRef): (bs: bytes)
    ensures |bs| == HEADER_SIZE
  {
    MAGIC + LE(VERSION, 2) + LE(root.offset, 8) + LE(root.length, 8) + LE(0, 4)
  }

  /** Opens a file held in memory. */
  function Open(data: bytes, reg: Registry): Result<File> {
    if |data| < HEADER_SIZE then Err(BadFormat)
    else
      var h := data[|data| - HEADER_SIZE..];
      if h[0..4] != MAGIC then Err(BadFormat)
      else if FromLE(h[4..6]) != VERSION then Err(BadFormat)
      else Ok(File(data, ChildRef(FromLE(h[6..14]), FromLE(h[14..22])), reg))
  }

  function RootNode(f: File): Result<ChunkNode> {
    GetChunk(f, f.root.offset, f.root.length)
  }

  lemma HeaderFields(root: ChildRef)
    requires FitsRef(root)
    ensures var h := Header(root);
      && h[0..4] == MAGIC && FromLE(h[4..6]) == VERSION
      && FromLE(h[6..14]) == root.offset && FromLE(h[14..22]) == root.length
  {
    var v, o, l, c := LE(VERSION, 2), LE(root.offset, 8), LE(root.length, 8), LE(0, 4);
    var h := MAGIC + v + o + l + c;
    assert h[4..6] == v && h[6..14] == o && h[14..22] == l;
    Widths();
    FromLERoundTrip(VERSION, 2);
    FromLERoundTrip(root.offset, 8);
    FromLERoundTrip(root.length, 8);
  }

  /** A written file opens, and opens at the root it was written with. */
  lemma OpenRoundTrip(chunks: bytes, root: ChildRef, reg: Registry)
    requires FitsRef(root)
    ensures Open(chunks + Header(root), reg) == Ok(File(chunks + Header(root), root, reg))
  {
    var data := chunks + Header(root);
    assert data[|data| - HEADER_SIZE..] == Header(root);
    HeaderFields(root);
  }
}
