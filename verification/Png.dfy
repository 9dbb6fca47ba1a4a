/** PNG framing (sections 3.2, 4.3 and 6 of RFC 2083): the chunk loop accepts exactly the byte strings
    that are the signature and a well-ordered sequence of chunks within the stated limits. */
module Png {
  import opened Texts
  import Crc32

  type Byte = Crc32.Byte

  const MAX_CHUNKS := 4096
  const MAX_CHUNK_LENGTH := 15 * 1024 * 1024
  const MAX_COMPRESSED := 15 * 1024 * 1024
  const MAX_ANCILLARY := 1024 * 1024
  const MAX_INFLATED := 64 * 1024 * 1024

  const SIGNATURE: seq<Byte> := [0x89, 0x50, 0x4e, 0x47, 0x0d, 0x0a, 0x1a, 0x0a]

  // ---- chunks and their bytes ----

  datatype Chunk = Chunk(kind: seq<Byte>, data: seq<Byte>)

  predicate Sized(c: Chunk) {
    |c.kind| == 4 && |c.data| <= 15_728_640
  }

  /** The big-endian word at the start. */
  function U32(s: seq<Byte>): (r: nat)
    requires |s| >= 4
    ensures r < 0x1_0000_0000
  {
    ((s[0] as int * 0x100 + s[1] as int) * 0x100 + s[2] as int) * 0x100 + s[3] as int
  }

  function U32Bytes(n: nat): (r: seq<Byte>)
    requires n < 0x1_0000_0000
    ensures |r| == 4
  {
    [n / 0x100 / 0x100 / 0x100, n / 0x100 / 0x100 % 0x100, n / 0x100 % 0x100, n % 0x100]
  }

  lemma U32Reads(n: nat, rest: seq<Byte>)
    requires n < 0x1_0000_0000
    ensures U32(U32Bytes(n) + rest) == n
  {
  }

  lemma U32Writes(s: seq<Byte>)
    requires |s| >= 4
    ensures U32Bytes(U32(s)) == s[..4]
  {
    Shifted(s[0], s[1]);
    Shifted(s[0] as int * 0x100 + s[1] as int, s[2]);
    Shifted((s[0] as int * 0x100 + s[1] as int) * 0x100 + s[2] as int, s[3]);
  }

  lemma Shifted(x: nat, d: Byte)
    ensures (x * 0x100 + d) / 0x100 == x && (x * 0x100 + d) % 0x100 == d
  {
  }

  function CheckValue(bytes: seq<Byte>): (r: nat)
    ensures r < 0x1_0000_0000
  {
    Crc32.Crc(bytes) as int
  }

  /** Length, type, data and the check value of type and data. */
  function Encode(c: Chunk): (r: seq<Byte>)
    requires Sized(c)
    ensures |r| == |c.data| + 12
  {
    U32Bytes(|c.data|) + c.kind + c.data + U32Bytes(CheckValue(c.kind + c.data))
  }

  function EncodeAll(chunks: seq<Chunk>): seq<Byte>
    requires forall c | c in chunks :: Sized(c)
  {
    if chunks == [] then [] else Encode(chunks[0]) + EncodeAll(chunks[1..])
  }

  /** The chunk at the start, when it is whole, within the limit and its check value is right. */
  function ReadChunk(s: seq<Byte>): (r: Option<Chunk>)
    ensures r.Some? ==> Sized(r.value) && |r.value.data| + 12 <= |s|
  {
    if |s| < 12 then None
    else
      var length := U32(s);
      if length > MAX_CHUNK_LENGTH || length + 12 > |s| then None
      else if CheckValue(s[4..8 + length]) != U32(s[8 + length..]) then None
      else Some(Chunk(s[4..8], s[8..8 + length]))
  }

  lemma Pieces(s: seq<Byte>, a: nat, b: nat, c: nat, d: nat)
    requires a <= b <= c <= d <= |s|
    ensures s == s[..a] + s[a..b] + s[b..c] + s[c..d] + s[d..]
    ensures s[a..c] == s[a..b] + s[b..c] && s[c..][..d - c] == s[c..d]
  {
  }

  lemma ReadIsEncoded(s: seq<Byte>)
    requires ReadChunk(s).Some?
    ensures var c := ReadChunk(s).value;
            s == Encode(c) + s[|c.data| + 12..]
  {
    var c := ReadChunk(s).value;
    var length := |c.data|;
    assert length == U32(s) && CheckValue(s[4..8 + length]) == U32(s[8 + length..]);
    U32Writes(s);
    U32Writes(s[8 + length..]);
    hide CheckValue, U32Bytes, U32, ReadChunk;
    Pieces(s, 4, 8, 8 + length, 12 + length);
  }

  lemma EncodedPieces(a: seq<Byte>, kind: seq<Byte>, data: seq<Byte>, b: seq<Byte>, rest: seq<Byte>)
    requires |a| == |kind| == |b| == 4
    ensures var s := a + kind + data + b + rest;
            && s == a + (kind + data + b + rest) && s[4..8 + |data|] == kind + data && s[4..8] == kind && s[8..8 + |data|] == data
            && s[8 + |data|..] == b + rest && s[12 + |data|..] == rest
  {
  }

  lemma EncodedReads(c: Chunk, rest: seq<Byte>)
    requires Sized(c)
    ensures ReadChunk(Encode(c) + rest) == Some(c)
    ensures (Encode(c) + rest)[|c.data| + 12..] == rest
  {
    var check := CheckValue(c.kind + c.data);
    var a, b := U32Bytes(|c.data|), U32Bytes(check);
    U32Reads(|c.data|, c.kind + c.data + b + rest);
    U32Reads(check, rest);
    hide CheckValue, U32Bytes, U32;
    EncodedPieces(a, c.kind, c.data, b, rest);
    assert Encode(c) + rest == a + c.kind + c.data + b + rest;
  }

  function Chunks(s: seq<Byte>): (r: Option<seq<Chunk>>)
    ensures r.Some? ==> forall c | c in r.value :: Sized(c)
    decreases |s|
  {
    if s == [] then Some([])
    else
      match ReadChunk(s)
      case None => None
      case Some(c) =>
        match Chunks(s[|c.data| + 12..])
        case None => None
        case Some(more) => Some([c] + more)
  }

  /** A byte string is framed in exactly one way, if at all. */
  lemma {:induction false} FramedOnce(s: seq<Byte>, chunks: seq<Chunk>)
    ensures Chunks(s) == Some(chunks) <==> (forall c | c in chunks :: Sized(c)) && s == EncodeAll(chunks)
    decreases |s| + |chunks|
  {
    hide Encode, ReadChunk;
    if s != [] && ReadChunk(s).Some? && chunks != [] {
      var c := ReadChunk(s).value;
      ReadIsEncoded(s);
      FramedOnce(s[|c.data| + 12..], chunks[1..]);
      assert chunks == [chunks[0]] + chunks[1..];
    }
    if chunks != [] && (forall c | c in chunks :: Sized(c)) && s == EncodeAll(chunks) {
      EncodedReads(chunks[0], EncodeAll(chunks[1..]));
    }
  }

  // ---- the order of chunks ----

  datatype Tag = IHDR | PLTE | IDAT | IEND | Ancillary | Critical

  function TagOf(kind: seq<Byte>): Tag
    requires |kind| == 4
  {
    if kind == [73, 72, 68, 82] then IHDR
    else if kind == [80, 76, 84, 69] then PLTE
    else if kind == [73, 68, 65, 84] then IDAT
    else if kind == [73, 69, 78, 68] then IEND
    else if kind[0] / 32 % 2 == 0 then Critical
    else Ancillary
  }

  /** A type that begins with a lower-case letter is ancillary, one with an upper-case letter never is. */
  lemma CaseTells(kind: seq<Byte>)
    requires |kind| == 4
    ensures 97 <= kind[0] <= 122 ==> TagOf(kind) == Ancillary
    ensures 65 <= kind[0] <= 90 ==> TagOf(kind) != Ancillary
  {
  }

  function T(c: Chunk): Tag
    requires Sized(c)
  {
    TagOf(c.kind)
  }

  datatype Header = Header(width: nat, height: nat, colorType: nat, bitsPerPixel: nat)

  function Channels(colorType: nat): nat {
    if colorType == 0 then 1 else if colorType == 2 then 3 else if colorType == 3 then 1
    else if colorType == 4 then 2 else if colorType == 6 then 4 else 0
  }

  predicate DepthAllowed(colorType: nat, depth: nat) {
    match colorType
    case 0 => depth in {1, 2, 4, 8, 16}
    case 2 => depth in {8, 16}
    case 3 => depth in {1, 2, 4, 8}
    case 4 => depth in {8, 16}
    case 6 => depth in {8, 16}
    case _ => false
  }

  /** The header of a supported image. */
  function ReadHeader(data: seq<Byte>): Option<Header> {
    if |data| != 13 then None
    else
      var (width, height, depth, colorType) := (U32(data), U32(data[4..]), data[8], data[9]);
      if width == 0 || height == 0 || width > 16_384 || height > 16_384 || width * height > 16_000_000
         || Channels(colorType) == 0 || !DepthAllowed(colorType, depth) || data[10] != 0 || data[11] != 0 || data[12] != 0
      then None else Some(Header(width, height, colorType, Channels(colorType) * depth))
  }

  /** The supported colour types and depths, with the bits that each pixel takes. */
  predicate Supported(colorType: nat, depth: nat, bits: nat) {
    (colorType, depth, bits) in {(0, 1, 1), (0, 2, 2), (0, 4, 4), (0, 8, 8), (0, 16, 16), (2, 8, 24), (2, 16, 48),
                                 (3, 1, 1), (3, 2, 2), (3, 4, 4), (3, 8, 8), (4, 8, 16), (4, 16, 32), (6, 8, 32), (6, 16, 64)}
  }

  predicate HeaderIs(data: seq<Byte>, width: nat, height: nat, colorType: Byte, depth: Byte) {
    && 1 <= width <= 16_384 && 1 <= height <= 16_384 && width * height <= 16_000_000
    && data == U32Bytes(width) + U32Bytes(height) + [depth, colorType, 0, 0, 0]
  }

  /** Exactly these headers are read, and as what they say. */
  lemma HeaderExactly(data: seq<Byte>, width: nat, height: nat, colorType: Byte, bits: nat)
    ensures ReadHeader(data) == Some(Header(width, height, colorType, bits))
            <==> exists depth: Byte :: Supported(colorType, depth, bits) && HeaderIs(data, width, height, colorType, depth)
  {
    if ReadHeader(data) == Some(Header(width, height, colorType, bits)) {
      U32Writes(data);
      U32Writes(data[4..]);
      hide U32, U32Bytes;
      assert data == data[..4] + data[4..][..4] + [data[8], colorType, 0, 0, 0];
      assert Supported(colorType, data[8], bits) && HeaderIs(data, width, height, colorType, data[8]);
    }
    if depth: Byte :| Supported(colorType, depth, bits) && HeaderIs(data, width, height, colorType, depth) {
      var rest: seq<Byte> := [depth, colorType, 0, 0, 0];
      U32Reads(width, U32Bytes(height) + rest);
      U32Reads(height, rest);
      hide U32, U32Bytes;
      assert data == U32Bytes(width) + (U32Bytes(height) + rest);
      assert data[4..] == U32Bytes(height) + rest;
    }
  }

  /** Total length of the data of the chunks with the tag. */
  function Total(chunks: seq<Chunk>, tag: Tag): nat
    requires forall i | 0 <= i < |chunks| :: Sized(chunks[i])
  {
    if chunks == [] then 0
    else Total(chunks[..|chunks| - 1], tag) + if T(chunks[|chunks| - 1]) == tag then |chunks[|chunks| - 1].data| else 0
  }

  predicate PaletteOk(colorType: nat, length: nat) {
    colorType != 0 && colorType != 4 && 3 <= length <= 768 && length % 3 == 0
  }

  ghost predicate AllSized(chunks: seq<Chunk>) {
    forall i | 0 <= i < |chunks| :: Sized(chunks[i])
  }

  ghost predicate At(chunks: seq<Chunk>, i: int, tag: Tag)
    requires AllSized(chunks)
  {
    0 <= i < |chunks| && T(chunks[i]) == tag
  }

  ghost predicate Among(chunks: seq<Chunk>, n: int, tag: Tag)
    requires AllSized(chunks)
  {
    exists j :: j < n && At(chunks, j, tag)
  }

  /** A supported header comes first and nowhere else. */
  ghost predicate HeaderFirst(chunks: seq<Chunk>)
    requires AllSized(chunks)
  {
    && (chunks != [] ==> At(chunks, 0, IHDR) && ReadHeader(chunks[0].data).Some?)
    && forall i :: At(chunks, i, IHDR) ==> i == 0
  }

  function ColorType(chunks: seq<Chunk>): nat {
    if chunks != [] && ReadHeader(chunks[0].data).Some? then ReadHeader(chunks[0].data).value.colorType else 0
  }

  /** At most one palette, before any image data, of a length that the colour type allows. */
  ghost predicate PaletteFits(chunks: seq<Chunk>)
    requires AllSized(chunks)
  {
    forall i :: At(chunks, i, PLTE) ==>
      PaletteOk(ColorType(chunks), |chunks[i].data|) && !Among(chunks, i, PLTE) && !Among(chunks, i, IDAT)
  }

  /** The image data is one unbroken run, after the palette that indexed colour needs. */
  ghost predicate OneRun(chunks: seq<Chunk>)
    requires AllSized(chunks)
  {
    && (forall i, j, k :: At(chunks, i, IDAT) && i < j < k && At(chunks, k, IDAT) ==> At(chunks, j, IDAT))
    && (forall i :: At(chunks, i, IDAT) && ColorType(chunks) == 3 ==> Among(chunks, i, PLTE))
  }

  /** An end marker is empty, follows image data and is the last chunk. */
  ghost predicate EndLast(chunks: seq<Chunk>)
    requires AllSized(chunks)
  {
    forall i :: At(chunks, i, IEND) ==> i == |chunks| - 1 && chunks[i].data == [] && Among(chunks, i, IDAT)
  }

  /** What every beginning of an accepted sequence of chunks satisfies. */
  ghost predicate Ordered(chunks: seq<Chunk>) {
    && AllSized(chunks) && |chunks| <= 4_096
    && HeaderFirst(chunks) && PaletteFits(chunks) && OneRun(chunks) && EndLast(chunks)
    && (forall i :: !At(chunks, i, Critical))
    && Total(chunks, IDAT) <= 15_728_640 && Total(chunks, Ancillary) <= 1_048_576
  }

  /** A whole image: header first, one run of image data, the end marker last. */
  ghost predicate Complete(chunks: seq<Chunk>) {
    Ordered(chunks) && At(chunks, |chunks| - 1, IEND)
  }

  // ---- one chunk at a time ----

  /** What the loop remembers of the chunks it has read. */
  datatype State = State(header: Option<Header>, sawPalette: bool, sawData: bool, endedData: bool, sawEnd: bool,
                         count: nat, ancillary: nat, compressed: nat, idat: seq<seq<Byte>>)

  const START := State(None, false, false, false, false, 0, 0, 0, [])

  /** The state after one more chunk, when the chunk is allowed there. */
  function Step(st: State, c: Chunk): Option<State>
    requires Sized(c)
  {
    var (tag, length) := (T(c), |c.data|);
    var next := st.(count := st.count + 1,
                    endedData := st.endedData || (st.sawData && tag != IDAT && tag != IEND));
    if st.sawEnd || next.count > MAX_CHUNKS || (st.header.None? && tag != IHDR) then None
    else
      match tag
      case IHDR =>
        if st.header.Some? || ReadHeader(c.data).None? then None else Some(next.(header := ReadHeader(c.data)))
      case PLTE =>
        if st.sawPalette || st.sawData || !PaletteOk(st.header.value.colorType, length) then None
        else Some(next.(sawPalette := true))
      case IDAT =>
        if st.endedData || (st.header.value.colorType == 3 && !st.sawPalette) || st.compressed + length > MAX_COMPRESSED then None
        else Some(next.(sawData := true, compressed := st.compressed + length, idat := st.idat + [c.data]))
      case IEND => if !st.sawData || length != 0 then None else Some(next.(sawEnd := true))
      case Critical => None
      case Ancillary =>
        if st.ancillary + length > MAX_ANCILLARY then None else Some(next.(ancillary := st.ancillary + length))
  }

  function Scan(chunks: seq<Chunk>): Option<State>
    requires forall i | 0 <= i < |chunks| :: Sized(chunks[i])
  {
    if chunks == [] then Some(START)
    else
      match Scan(chunks[..|chunks| - 1])
      case None => None
      case Some(st) => Step(st, chunks[|chunks| - 1])
  }

  /** The image data, chunk by chunk. */
  function DataOf(chunks: seq<Chunk>): seq<seq<Byte>>
    requires forall i | 0 <= i < |chunks| :: Sized(chunks[i])
  {
    if chunks == [] then []
    else DataOf(chunks[..|chunks| - 1]) + if T(chunks[|chunks| - 1]) == IDAT then [chunks[|chunks| - 1].data] else []
  }

  /** Something other than image data and the end marker has followed image data. */
  ghost predicate Interrupted(chunks: seq<Chunk>)
    requires AllSized(chunks)
  {
    exists i, j :: At(chunks, i, IDAT) && i < j < |chunks| && !At(chunks, j, IDAT) && !At(chunks, j, IEND)
  }

  ghost predicate Describes(chunks: seq<Chunk>, st: State)
    requires AllSized(chunks)
  {
    && st.count == |chunks| && (st.header.Some? <==> chunks != [])
    && (chunks != [] ==> st.header == ReadHeader(chunks[0].data))
    && (st.sawPalette <==> Among(chunks, |chunks|, PLTE))
    && (st.sawData <==> Among(chunks, |chunks|, IDAT))
    && (st.endedData <==> Interrupted(chunks))
    && (st.sawEnd <==> Among(chunks, |chunks|, IEND))
    && st.compressed == Total(chunks, IDAT) && st.ancillary == Total(chunks, Ancillary) && st.idat == DataOf(chunks)
  }

  lemma AtAppend(p: seq<Chunk>, c: Chunk)
    requires AllSized(p) && Sized(c)
    ensures AllSized(p + [c])
    ensures forall i, tag :: At(p + [c], i, tag) <==> At(p, i, tag) || (i == |p| && T(c) == tag)
    ensures p != [] ==> (p + [c])[0] == p[0] && ColorType(p + [c]) == ColorType(p)
  {
  }

  lemma AmongKeeps(p: seq<Chunk>, c: Chunk, n: int, tag: Tag)
    requires AllSized(p) && Sized(c) && n <= |p|
    ensures AllSized(p + [c])
    ensures Among(p + [c], n, tag) <==> Among(p, n, tag)
  {
    AtAppend(p, c);
    hide At, T;
    if Among(p + [c], n, tag) {
      var j :| j < n && At(p + [c], j, tag);
      assert At(p, j, tag);
    }
    if Among(p, n, tag) {
      var j :| j < n && At(p, j, tag);
      assert At(p + [c], j, tag);
    }
  }

  lemma AmongAppend(p: seq<Chunk>, c: Chunk, tag: Tag)
    requires AllSized(p) && Sized(c)
    ensures AllSized(p + [c])
    ensures Among(p + [c], |p + [c]|, tag) <==> Among(p, |p|, tag) || T(c) == tag
  {
    AtAppend(p, c);
    AmongKeeps(p, c, |p|, tag);
    hide T;
    if Among(p + [c], |p| + 1, tag) {
      var j :| j < |p| + 1 && At(p + [c], j, tag);
      assert j < |p| ==> Among(p + [c], |p|, tag);
    }
    if Among(p, |p|, tag) {
      var j :| j < |p| && At(p + [c], j, tag);
    }
    if T(c) == tag {
      assert At(p + [c], |p|, tag);
    }
  }

  lemma HeaderStep(p: seq<Chunk>, c: Chunk)
    requires AllSized(p) && Sized(c)
    ensures AllSized(p + [c])
    ensures HeaderFirst(p + [c]) <==> HeaderFirst(p) && (if p == [] then T(c) == IHDR && ReadHeader(c.data).Some? else T(c) != IHDR)
  {
    AtAppend(p, c);
    hide ReadHeader, T;
    var q := p + [c];
    assert At(q, |p|, IHDR) <==> T(c) == IHDR;
    if HeaderFirst(q) {
      assert p != [] ==> At(p, 0, IHDR);
      forall i | At(p, i, IHDR) ensures i == 0 { assert At(q, i, IHDR); }
    }
  }

  lemma PaletteStep(p: seq<Chunk>, c: Chunk)
    requires AllSized(p) && Sized(c) && p != []
    ensures AllSized(p + [c])
    ensures PaletteFits(p + [c]) <==>
              PaletteFits(p)
              && (T(c) == PLTE ==> PaletteOk(ColorType(p), |c.data|) && !Among(p, |p|, PLTE) && !Among(p, |p|, IDAT))
  {
    AtAppend(p, c);
    hide T, PaletteOk, ColorType;
    var q := p + [c];
    AmongKeeps(p, c, |p|, PLTE);
    AmongKeeps(p, c, |p|, IDAT);
    assert At(q, |p|, PLTE) <==> T(c) == PLTE;
    forall i | At(p, i, PLTE)
      ensures At(q, i, PLTE) && q[i] == p[i]
      ensures Among(q, i, PLTE) <==> Among(p, i, PLTE)
      ensures Among(q, i, IDAT) <==> Among(p, i, IDAT)
    {
      AmongKeeps(p, c, i, PLTE);
      AmongKeeps(p, c, i, IDAT);
    }
    hide Among;
  }

  lemma RunStep(p: seq<Chunk>, c: Chunk)
    requires AllSized(p) && Sized(c) && p != [] && !Among(p, |p|, IEND)
    ensures AllSized(p + [c])
    ensures OneRun(p + [c]) <==>
              OneRun(p) && (T(c) == IDAT ==> !Interrupted(p) && (ColorType(p) == 3 ==> Among(p, |p|, PLTE)))
  {
    AtAppend(p, c);
    var q := p + [c];
    AmongKeeps(p, c, |p|, PLTE);
    forall i | At(p, i, IDAT)
      ensures Among(q, i, PLTE) <==> Among(p, i, PLTE)
    {
      AmongKeeps(p, c, i, PLTE);
    }
    assert At(q, |p|, IDAT) <==> T(c) == IDAT;
    forall j ensures !At(p, j, IEND) { assert At(p, j, IEND) ==> j < |p|; }
    hide T, ColorType, Among;
    if OneRun(q) {
      forall i, j, k | At(p, i, IDAT) && i < j < k && At(p, k, IDAT) ensures At(p, j, IDAT) { assert At(q, j, IDAT); }
      forall i | At(p, i, IDAT) && ColorType(p) == 3 ensures Among(p, i, PLTE) { assert At(q, i, IDAT); }
    }
  }

  lemma EndStep(p: seq<Chunk>, c: Chunk)
    requires AllSized(p) && Sized(c)
    ensures AllSized(p + [c])
    ensures EndLast(p + [c]) <==> !Among(p, |p|, IEND) && (T(c) == IEND ==> c.data == [] && Among(p, |p|, IDAT))
  {
    AtAppend(p, c);
    var q := p + [c];
    AmongKeeps(p, c, |p|, IDAT);
    assert At(q, |p|, IEND) <==> T(c) == IEND;
    hide T, Among;
  }

  lemma TotalStep(p: seq<Chunk>, c: Chunk, tag: Tag)
    requires AllSized(p) && Sized(c)
    ensures AllSized(p + [c])
    ensures Total(p + [c], tag) == Total(p, tag) + if T(c) == tag then |c.data| else 0
    ensures DataOf(p + [c]) == DataOf(p) + if T(c) == IDAT then [c.data] else []
  {
    assert (p + [c])[..|p|] == p;
  }

  lemma InterruptedStep(p: seq<Chunk>, c: Chunk)
    requires AllSized(p) && Sized(c)
    ensures AllSized(p + [c])
    ensures Interrupted(p + [c]) <==> Interrupted(p) || (Among(p, |p|, IDAT) && T(c) != IDAT && T(c) != IEND)
  {
    AtAppend(p, c);
    var q := p + [c];
    assert At(q, |p|, IDAT) <==> T(c) == IDAT;
    assert At(q, |p|, IEND) <==> T(c) == IEND;
    if Among(p, |p|, IDAT) && T(c) != IDAT && T(c) != IEND {
      var i :| i < |p| && At(p, i, IDAT);
      assert At(q, i, IDAT) && !At(q, |p|, IDAT) && !At(q, |p|, IEND);
    }
    if Interrupted(p) {
      var i, j :| At(p, i, IDAT) && i < j < |p| && !At(p, j, IDAT) && !At(p, j, IEND);
      assert At(q, i, IDAT) && !At(q, j, IDAT) && !At(q, j, IEND);
    }
    if Interrupted(q) {
      var i, j :| At(q, i, IDAT) && i < j < |q| && !At(q, j, IDAT) && !At(q, j, IEND);
      assert At(p, i, IDAT);
      assert j == |p| ==> Among(p, |p|, IDAT);
    }
  }

  /** One more chunk keeps the order exactly when the loop takes it. */
  lemma StepMeans(p: seq<Chunk>, st: State, c: Chunk)
    requires AllSized(p) && Sized(c) && Describes(p, st) && Ordered(p)
    ensures AllSized(p + [c])
    ensures Step(st, c).Some? <==> Ordered(p + [c])
    ensures Step(st, c).Some? ==> Describes(p + [c], Step(st, c).value)
  {
    OrderStep(p, c);
    DescribeStep(p, st, c);
    if p != [] {
      assert st.header.value.colorType == ColorType(p);
    }
    hide T, Among, At, ReadHeader, PaletteOk, Interrupted, ColorType;
  }

  /** The conditions on one more chunk. */
  ghost predicate Continues(p: seq<Chunk>, c: Chunk)
    requires AllSized(p) && Sized(c)
  {
    && |p| < MAX_CHUNKS && T(c) != Critical && !Among(p, |p|, IEND)
    && (if p == [] then T(c) == IHDR && ReadHeader(c.data).Some? else T(c) != IHDR)
    && (T(c) == PLTE ==> PaletteOk(ColorType(p), |c.data|) && !Among(p, |p|, PLTE) && !Among(p, |p|, IDAT))
    && (T(c) == IDAT ==> !Interrupted(p) && (ColorType(p) == 3 ==> Among(p, |p|, PLTE)))
    && (T(c) == IEND ==> c.data == [] && Among(p, |p|, IDAT))
    && (T(c) == IDAT ==> Total(p, IDAT) + |c.data| <= MAX_COMPRESSED)
    && (T(c) == Ancillary ==> Total(p, Ancillary) + |c.data| <= MAX_ANCILLARY)
  }

  lemma OrderStep(p: seq<Chunk>, c: Chunk)
    requires AllSized(p) && Sized(c) && Ordered(p)
    ensures AllSized(p + [c])
    ensures Ordered(p + [c]) <==> Continues(p, c)
  {
    AtAppend(p, c);
    assert At(p + [c], |p|, Critical) <==> T(c) == Critical;
    HeaderStep(p, c);
    EndStep(p, c);
    TotalStep(p, c, IDAT);
    TotalStep(p, c, Ancillary);
    if p != [] {
      PaletteStep(p, c);
      if !Among(p, |p|, IEND) {
        RunStep(p, c);
      }
    } else {
      FirstChunk(c);
    }
    hide T, Among, ReadHeader, PaletteOk, Interrupted, ColorType, HeaderFirst, PaletteFits, OneRun, EndLast, Total;
  }

  lemma FirstChunk(c: Chunk)
    requires Sized(c)
    ensures AllSized([c])
    ensures T(c) == IHDR ==> PaletteFits([c]) && OneRun([c])
    ensures forall tag :: !Among([], 0, tag)
    ensures [] + [c] == [c]
  {
    forall i, tag | At([c], i, tag) ensures i == 0 && T(c) == tag {
    }
  }

  lemma DescribeStep(p: seq<Chunk>, st: State, c: Chunk)
    requires AllSized(p) && Sized(c) && Describes(p, st)
    ensures AllSized(p + [c])
    ensures Step(st, c).Some? ==> Describes(p + [c], Step(st, c).value)
  {
    AtAppend(p, c);
    AmongAppend(p, c, PLTE);
    AmongAppend(p, c, IDAT);
    AmongAppend(p, c, IEND);
    InterruptedStep(p, c);
    TotalStep(p, c, IDAT);
    TotalStep(p, c, Ancillary);
    hide T, Among, At, ReadHeader, PaletteOk, Interrupted, ColorType, Total, DataOf;
  }

  /** The loop goes through a sequence of chunks exactly when it is ordered. */
  lemma {:induction false} ScanMeans(chunks: seq<Chunk>)
    requires AllSized(chunks)
    ensures Scan(chunks).Some? <==> Ordered(chunks)
    ensures Scan(chunks).Some? ==> Describes(chunks, Scan(chunks).value)
    decreases |chunks|
  {
    if chunks == [] {
      assert forall i, tag :: !At(chunks, i, tag);
    } else {
      var p, c := chunks[..|chunks| - 1], chunks[|chunks| - 1];
      ScanMeans(p);
      assert p + [c] == chunks;
      if Scan(p).Some? {
        StepMeans(p, Scan(p).value, c);
      } else {
        if Ordered(chunks) {
          PrefixOrdered(p, c);
        }
      }
    }
  }

  lemma PrefixOrdered(p: seq<Chunk>, c: Chunk)
    requires AllSized(p) && Sized(c) && Ordered(p + [c])
    ensures Ordered(p)
  {
    if p == [] {
      assert forall i, tag :: !At(p, i, tag);
    } else {
      AtAppend(p, c);
      HeaderStep(p, c);
      EndStep(p, c);
      assert EndLast(p) by { NoEndYet(p); }
      PaletteStep(p, c);
      RunStep(p, c);
      TotalStep(p, c, IDAT);
      TotalStep(p, c, Ancillary);
      forall i ensures !At(p, i, Critical) { assert !At(p + [c], i, Critical); }
      hide T, Among, At, HeaderFirst, PaletteFits, OneRun, EndLast, Total, Interrupted;
    }
  }

  lemma NoEndYet(p: seq<Chunk>)
    requires AllSized(p) && !Among(p, |p|, IEND)
    ensures EndLast(p)
  {
    forall i ensures !At(p, i, IEND) { assert At(p, i, IEND) ==> i < |p|; }
  }

  // ---- the loop ----

  datatype Image = Image(header: Header, idat: seq<seq<Byte>>)

  function RowBytes(h: Header): nat {
    (h.width * h.bitsPerPixel + 7) / 8
  }

  /** The fewest bytes that hold the bits of a row. */
  lemma RowBytesExactly(h: Header)
    ensures 8 * RowBytes(h) >= h.width * h.bitsPerPixel && 8 * (RowBytes(h) - 1) < h.width * h.bitsPerPixel
  {
  }

  function ExpectedInflated(h: Header): nat {
    (RowBytes(h) + 1) * h.height
  }

  /** The image that a byte string frames, when its chunks are in order and it is not too large. */
  function Framed(bytes: seq<Byte>): Option<Image> {
    if !(SIGNATURE <= bytes) then None
    else
      match Chunks(bytes[8..])
      case None => None
      case Some(chunks) =>
        match Scan(chunks)
        case None => None
        case Some(st) =>
          if !st.sawEnd || st.header.None? || ExpectedInflated(st.header.value) > MAX_INFLATED then None
          else Some(Image(st.header.value, st.idat))
  }

  /** A byte string is accepted exactly when it is the signature followed by the chunks of a complete
      image that does not inflate beyond the limit; the image is that of those chunks. */
  lemma FramedExactly(bytes: seq<Byte>)
    ensures Framed(bytes).Some? <==>
              exists chunks: seq<Chunk> :: IsImage(bytes, chunks) && ExpectedInflated(ReadHeader(chunks[0].data).value) <= 67_108_864
    ensures forall chunks: seq<Chunk> :: IsImage(bytes, chunks) && Framed(bytes).Some? ==>
              Framed(bytes) == Some(Image(ReadHeader(chunks[0].data).value, DataOf(chunks)))
  {
    forall chunks: seq<Chunk> | IsImage(bytes, chunks)
      ensures SIGNATURE <= bytes && Chunks(bytes[8..]) == Some(chunks) && Scan(chunks).Some?
      ensures Scan(chunks).value.sawEnd && Scan(chunks).value.header == ReadHeader(chunks[0].data)
      ensures Scan(chunks).value.idat == DataOf(chunks)
    {
      ImageScans(bytes, chunks);
    }
    if Framed(bytes).Some? {
      FramedImage(bytes);
    }
  }

  lemma ImageScans(bytes: seq<Byte>, chunks: seq<Chunk>)
    requires IsImage(bytes, chunks)
    ensures SIGNATURE <= bytes && Chunks(bytes[8..]) == Some(chunks) && Scan(chunks).Some?
    ensures Describes(chunks, Scan(chunks).value) && Scan(chunks).value.sawEnd
  {
    assert bytes[8..] == EncodeAll(chunks);
    hide EncodeAll, Scan;
    FramedOnce(bytes[8..], chunks);
    ScanMeans(chunks);
    assert At(chunks, |chunks| - 1, IEND);
    hide HeaderFirst, PaletteFits, OneRun, EndLast, Total, Interrupted, T;
  }

  lemma ScannedIsComplete(chunks: seq<Chunk>)
    requires AllSized(chunks) && Scan(chunks).Some? && Scan(chunks).value.sawEnd
    ensures Complete(chunks) && Scan(chunks).value.header == ReadHeader(chunks[0].data)
  {
    ScanMeans(chunks);
    hide HeaderFirst, PaletteFits, OneRun, EndLast, Total, Interrupted, T;
    EndIsThere(chunks);
  }

  lemma FramedImage(bytes: seq<Byte>)
    requires Framed(bytes).Some?
    ensures var chunks := Chunks(bytes[8..]).value;
            IsImage(bytes, chunks) && ExpectedInflated(ReadHeader(chunks[0].data).value) <= 67_108_864
  {
    hide Scan, EncodeAll, ReadHeader, Ordered, At;
    var chunks := Chunks(bytes[8..]).value;
    FramedOnce(bytes[8..], chunks);
    ScannedIsComplete(chunks);
    assert bytes == SIGNATURE + bytes[8..];
  }

  lemma EndIsThere(chunks: seq<Chunk>)
    requires Ordered(chunks) && Among(chunks, |chunks|, IEND)
    ensures Complete(chunks)
  {
    var i :| i < |chunks| && At(chunks, i, IEND);
  }

  ghost predicate IsImage(bytes: seq<Byte>, chunks: seq<Chunk>) {
    Complete(chunks) && bytes == [137, 80, 78, 71, 13, 10, 26, 10] + EncodeAll(chunks)
  }

  lemma {:induction false} EncodedLength(chunks: seq<Chunk>)
    requires forall c | c in chunks :: Sized(c)
    ensures |EncodeAll(chunks)| >= 12 * |chunks|
    ensures chunks != [] ==> |EncodeAll(chunks)| >= 12 * |chunks| + |chunks[0].data|
  {
    hide Encode;
    if chunks != [] {
      EncodedLength(chunks[1..]);
    }
  }

  /** No image is shorter than 57 bytes. */
  lemma ShortestImage(bytes: seq<Byte>, chunks: seq<Chunk>)
    requires IsImage(bytes, chunks)
    ensures |bytes| >= 57
  {
    var n := |chunks| - 1;
    assert At(chunks, n, IEND);
    var j :| j < n && At(chunks, j, IDAT);
    assert At(chunks, 0, IHDR) && j != 0;
    EncodedLength(chunks);
  }

  lemma TooShort(bytes: seq<Byte>)
    requires |bytes| < 57
    ensures Framed(bytes).None?
  {
    FramedExactly(bytes);
    if Framed(bytes).Some? {
      var chunks: seq<Chunk> :| IsImage(bytes, chunks);
      ShortestImage(bytes, chunks);
    }
  }

  /** What the whole chunk sequence is, once `done` has been read and `rest` is left. */
  ghost predicate Reading(bytes: seq<Byte>, done: seq<Chunk>, rest: seq<Byte>) {
    && |bytes| >= 8 && AllSized(done)
    && match Chunks(rest)
       case None => Chunks(bytes[8..]).None?
       case Some(more) => Chunks(bytes[8..]) == Some(done + more)
  }

  lemma ReadOne(bytes: seq<Byte>, done: seq<Chunk>, rest: seq<Byte>, c: Chunk)
    requires Reading(bytes, done, rest) && rest != [] && ReadChunk(rest) == Some(c)
    ensures Reading(bytes, done + [c], rest[|c.data| + 12..])
  {
    hide ReadChunk;
    var tail := Chunks(rest[|c.data| + 12..]);
    if tail.Some? {
      assert done + ([c] + tail.value) == done + [c] + tail.value;
    }
  }

  lemma Refused(bytes: seq<Byte>, done: seq<Chunk>, rest: seq<Byte>)
    requires Reading(bytes, done, rest) && rest != [] && (ReadChunk(rest).None? || Scan(done + [ReadChunk(rest).value]).None?)
    ensures Framed(bytes).None?
  {
    if ReadChunk(rest).Some? {
      var c := ReadChunk(rest).value;
      ReadOne(bytes, done, rest, c);
      if Chunks(bytes[8..]).Some? {
        PrefixRefused(done + [c], Chunks(bytes[8..]).value[|done| + 1..]);
        assert Chunks(bytes[8..]).value == done + [c] + Chunks(bytes[8..]).value[|done| + 1..];
      }
    }
  }

  lemma {:induction false} PrefixRefused(p: seq<Chunk>, more: seq<Chunk>)
    requires AllSized(p) && AllSized(more) && Scan(p).None?
    ensures AllSized(p + more) && Scan(p + more).None?
    decreases |more|
  {
    if more == [] {
      assert p + more == p;
    } else {
      var m := |more| - 1;
      PrefixRefused(p, more[..m]);
      assert (p + more)[..|p + more| - 1] == p + more[..m];
    }
  }

  lemma ScanOne(done: seq<Chunk>, c: Chunk)
    requires AllSized(done) && Sized(c)
    ensures AllSized(done + [c])
    ensures Scan(done + [c]) == match Scan(done) case None => None case Some(st) => Step(st, c)
  {
    assert (done + [c])[..|done|] == done;
  }

  /** The chunk at the offset, as the loop takes it apart. */
  method TakeChunk(bytes: seq<Byte>, offset: nat, table: seq<bv32>) returns (chunk: Option<Chunk>)
    requires Crc32.IsTable(table) && offset < |bytes|
    ensures chunk == ReadChunk(bytes[offset..])
  {
    hide Crc32.Crc, Crc32.IsTable, U32;
    if |bytes| - offset < 12 {
      return None;
    }
    var s := bytes[offset..];
    var length := U32(s);
    if length > MAX_CHUNK_LENGTH || length + 12 > |bytes| - offset {
      return None;
    }
    var expectedCrc := U32(s[8 + length..]);
    var crc := Crc32.Compute(s[4..8 + length], table);
    if crc as int != expectedCrc {
      return None;
    }
    return Some(Chunk(s[4..8], s[8..8 + length]));
  }

  lemma StartReads(bytes: seq<Byte>)
    requires |bytes| >= 8
    ensures Reading(bytes, [], bytes[8..]) && Scan([]) == Some(START)
  {
    if Chunks(bytes[8..]).Some? {
      assert [] + Chunks(bytes[8..]).value == Chunks(bytes[8..]).value;
    }
  }

  lemma EndReads(bytes: seq<Byte>, done: seq<Chunk>)
    requires Reading(bytes, done, []) && SIGNATURE <= bytes
    ensures Chunks(bytes[8..]) == Some(done)
  {
    assert done + [] == done;
  }

  /** Nothing may follow the end marker. */
  lemma TrailingRefused(bytes: seq<Byte>, done: seq<Chunk>, rest: seq<Byte>)
    requires Reading(bytes, done, rest) && rest != [] && Scan(done).Some? && Scan(done).value.sawEnd
    ensures Framed(bytes).None?
  {
    if ReadChunk(rest).Some? {
      ScanOne(done, ReadChunk(rest).value);
    }
    Refused(bytes, done, rest);
  }

  /** The checks on one chunk, in the order of the source, updating what is remembered. */
  method TakeInOrder(before: State, c: Chunk) returns (after: Option<State>)
    requires Sized(c)
    ensures after == Step(before, c)
  {
    hide TagOf, ReadHeader, PaletteOk;
    var st := before.(count := before.count + 1);
    var length, tag := |c.data|, TagOf(c.kind);
    if st.sawEnd || st.count > MAX_CHUNKS || (st.header.None? && tag != IHDR) {
      return None;
    }
    if tag == IHDR {
      var header := ReadHeader(c.data);
      if st.header.Some? || header.None? {
        return None;
      }
      st := st.(header := header);
    } else if tag == PLTE {
      if st.sawPalette || st.sawData || !PaletteOk(st.header.value.colorType, length) {
        return None;
      }
      st := st.(sawPalette := true);
    } else if tag == IDAT {
      if st.endedData || (st.header.value.colorType == 3 && !st.sawPalette) {
        return None;
      }
      st := st.(sawData := true, compressed := st.compressed + length);
      if st.compressed > MAX_COMPRESSED {
        return None;
      }
      st := st.(idat := st.idat + [c.data]);
    } else if tag == IEND {
      if !st.sawData || length != 0 {
        return None;
      }
      st := st.(sawEnd := true);
    } else if tag == Critical {
      return None;
    } else {
      st := st.(ancillary := st.ancillary + length);
      if st.ancillary > MAX_ANCILLARY {
        return None;
      }
    }
    if st.sawData && tag != IDAT && tag != IEND {
      st := st.(endedData := true);
    }
    return Some(st);
  }

  /** The validator up to decompression: it accepts exactly what is framed as an image. */
  method ValidateFraming(bytes: seq<Byte>, table: seq<bv32>) returns (image: Option<Image>)
    requires Crc32.IsTable(table)
    ensures image == Framed(bytes)
  {
    if |bytes| < 57 {
      TooShort(bytes);
      return None;
    }
    if bytes[..8] != SIGNATURE {
      return None;
    }
    image := ReadAll(bytes, table);
  }

  /** The chunk loop. */
  method ReadAll(bytes: seq<Byte>, table: seq<bv32>) returns (image: Option<Image>)
    requires Crc32.IsTable(table) && |bytes| >= 8 && SIGNATURE <= bytes
    ensures image == Framed(bytes)
  {
    hide Scan, Reading, ReadChunk, Framed, Chunks, Crc32.IsTable, Step, SIGNATURE;
    StartReads(bytes);
    var offset, st := 8, START;
    ghost var done: seq<Chunk> := [];
    while offset < |bytes| && !st.sawEnd
      invariant 8 <= offset <= |bytes|
      invariant AllSized(done) && Reading(bytes, done, bytes[offset..]) && Scan(done) == Some(st)
      decreases |bytes| - offset
    {
      var chunk := TakeChunk(bytes, offset, table);
      if chunk.None? {
        Refused(bytes, done, bytes[offset..]);
        return None;
      }
      var c := chunk.value;
      ReadFits(bytes, offset, c);
      ScanOne(done, c);
      var next := TakeInOrder(st, c);
      if next.None? {
        Refused(bytes, done, bytes[offset..]);
        return None;
      }
      ReadOne(bytes, done, bytes[offset..], c);
      Skip(bytes, offset, |c.data| + 12);
      st, done, offset := next.value, done + [c], offset + |c.data| + 12;
    }
    if offset < |bytes| {
      TrailingRefused(bytes, done, bytes[offset..]);
      return None;
    }
    EndReads(bytes, done) by { assert bytes[offset..] == []; }
    image := Finish(bytes, done, st.header, st.sawEnd, st.idat);
  }

  lemma Skip(bytes: seq<Byte>, offset: nat, n: nat)
    requires offset + n <= |bytes|
    ensures bytes[offset..][n..] == bytes[offset + n..]
  {
  }

  lemma ReadFits(bytes: seq<Byte>, offset: nat, c: Chunk)
    requires offset < |bytes| && ReadChunk(bytes[offset..]) == Some(c)
    ensures Sized(c) && offset + |c.data| + 12 <= |bytes|
  {
  }

  method Finish(bytes: seq<Byte>, ghost done: seq<Chunk>, header: Option<Header>, sawEnd: bool, idat: seq<seq<Byte>>)
    returns (image: Option<Image>)
    requires SIGNATURE <= bytes && Chunks(bytes[8..]) == Some(done) && Scan(done).Some?
    requires Scan(done).value.header == header && Scan(done).value.sawEnd == sawEnd && Scan(done).value.idat == idat
    ensures image == Framed(bytes)
  {
    if !sawEnd || header.None? || ExpectedInflated(header.value) > MAX_INFLATED {
      return None;
    }
    return Some(Image(header.value, idat));
  }
}