/** The streaming check of the inflated image: rows of a filter byte and a fixed number of data bytes,
    arriving in pieces of any size. */
module Scanlines {
  import opened Texts
  import Crc32
  import Png

  type Byte = Png.Byte

  function Flatten(chunks: seq<seq<Byte>>): seq<Byte> {
    if chunks == [] then [] else Flatten(chunks[..|chunks| - 1]) + chunks[|chunks| - 1]
  }

  lemma {:induction false} FlattenLonger(chunks: seq<seq<Byte>>, k: nat)
    requires k <= |chunks|
    ensures |Flatten(chunks[..k])| <= |Flatten(chunks)|
    decreases |chunks|
  {
    if k < |chunks| {
      assert chunks[..|chunks| - 1][..k] == chunks[..k];
      FlattenLonger(chunks[..|chunks| - 1], k);
    } else {
      assert chunks[..k] == chunks;
    }
  }

  lemma {:induction false} FlattenPrefix(chunks: seq<seq<Byte>>, k: nat, i: nat)
    requires k <= |chunks| && i < |Flatten(chunks[..k])|
    ensures i < |Flatten(chunks)| && Flatten(chunks)[i] == Flatten(chunks[..k])[i]
    decreases |chunks|
  {
    FlattenLonger(chunks, k);
    if k < |chunks| {
      var p := chunks[..|chunks| - 1];
      assert p[..k] == chunks[..k];
      FlattenPrefix(p, k, i);
    } else {
      assert chunks[..k] == chunks;
    }
  }

  /** Where row r starts: every row is a filter byte and `rowBytes` data bytes. */
  function Start(rowBytes: nat, r: nat): nat {
    (rowBytes + 1) * r
  }

  lemma NextStart(rowBytes: nat, r: nat)
    ensures Start(rowBytes, r + 1) == Start(rowBytes, r) + rowBytes + 1 && Start(rowBytes, 0) == 0
  {
  }

  lemma {:induction false} StartsApart(rowBytes: nat, a: nat, b: nat)
    requires a < b
    ensures Start(rowBytes, a) + rowBytes + 1 <= Start(rowBytes, b)
  {
    hide Start;
    NextStart(rowBytes, b - 1);
    if a < b - 1 {
      StartsApart(rowBytes, a, b - 1);
    }
  }

  /** Exactly the declared rows, each starting with a known filter. */
  ghost predicate Accepted(inflated: seq<Byte>, rowBytes: nat, height: nat) {
    && |inflated| == Start(rowBytes, height)
    && forall r | 0 <= r < height :: RowStart(inflated, rowBytes, r) <= 4
  }

  /** The first byte of row r; no byte value when the row is missing. */
  function RowStart(inflated: seq<Byte>, rowBytes: nat, r: nat): int {
    if Start(rowBytes, r) < |inflated| then inflated[Start(rowBytes, r)] as int else 256
  }

  /** What has been checked once the first `read` bytes are in: every row that has begun. */
  ghost predicate Checked(inflated: seq<Byte>, read: nat, rowBytes: nat, rows: nat) {
    && read <= |inflated|
    && (rows > 0 ==> Start(rowBytes, rows - 1) < read)
    && forall r | 0 <= r < rows :: RowStart(inflated, rowBytes, r) <= 4
  }

  lemma CheckedAll(inflated: seq<Byte>, rowBytes: nat, height: nat, rows: nat)
    requires Checked(inflated, |inflated|, rowBytes, rows) && Start(rowBytes, rows) >= |inflated|
    ensures |inflated| == Start(rowBytes, height) ==> rows == height
    ensures |inflated| == Start(rowBytes, height) <==> Accepted(inflated, rowBytes, height)
  {
    hide Start, RowStart;
    if rows < height {
      StartsApart(rowBytes, rows, height);
    } else if rows - 1 > height {
      StartsApart(rowBytes, height, rows - 1);
    }
  }

  lemma BadRow(inflated: seq<Byte>, rowBytes: nat, height: nat, r: nat)
    requires Start(rowBytes, r) < |inflated| && inflated[Start(rowBytes, r)] > 4
    ensures !Accepted(inflated, rowBytes, height)
  {
    assert RowStart(inflated, rowBytes, r) > 4;
    hide Start, RowStart;
    if r > height {
      StartsApart(rowBytes, height, r);
    }
  }

  /** The answer depends on the inflated bytes alone, however they are cut into chunks; and the place
      that a filter byte is looked for is always inside the chunk at hand. */
  method CheckScanlines(chunks: seq<seq<Byte>>, rowBytes: nat, height: nat) returns (accepted: bool, outside: bool)
    ensures accepted <==> Accepted(Flatten(chunks), rowBytes, height)
    ensures !outside
  {
    ghost var all := Flatten(chunks);
    var expectedInflated := (rowBytes + 1) * height;
    assert expectedInflated == Start(rowBytes, height);
    var inflatedLength, nextFilterOffset := 0, 0;
    ghost var rows := 0;
    NextStart(rowBytes, 0);
    hide Start, Accepted;
    for k := 0 to |chunks|
      invariant inflatedLength == |Flatten(chunks[..k])| <= |all|
      invariant inflatedLength <= expectedInflated
      invariant nextFilterOffset == Start(rowBytes, rows) >= inflatedLength
      invariant Checked(all, inflatedLength, rowBytes, rows)
    {
      var chunk := chunks[k];
      var chunkStart := inflatedLength;
      inflatedLength := inflatedLength + |chunk|;
      assert chunks[..k + 1][..k] == chunks[..k];
      FlattenLonger(chunks, k + 1);
      if inflatedLength > expectedInflated {
        Exceeding(all, rowBytes, height);
        return false, false;
      }
      while nextFilterOffset < inflatedLength
        invariant nextFilterOffset == Start(rowBytes, rows) >= chunkStart
        invariant Checked(all, inflatedLength, rowBytes, rows)
        decreases inflatedLength - nextFilterOffset
      {
        var index := nextFilterOffset - chunkStart;
        if index < 0 || index >= |chunk| {
          return false, true;
        }
        FlattenPrefix(chunks, k + 1, nextFilterOffset);
        if chunk[index] > 4 {
          BadRow(all, rowBytes, height, rows);
          return false, false;
        }
        assert RowStart(all, rowBytes, rows) == chunk[index];
        NextStart(rowBytes, rows);
        nextFilterOffset := nextFilterOffset + rowBytes + 1;
        rows := rows + 1;
      }
    }
    assert chunks[..|chunks|] == chunks;
    CheckedAll(all, rowBytes, height, rows);
    if inflatedLength != expectedInflated || nextFilterOffset != expectedInflated {
      return false, false;
    }
    return true, false;
  }

  lemma Exceeding(inflated: seq<Byte>, rowBytes: nat, height: nat)
    requires |inflated| > Start(rowBytes, height)
    ensures !Accepted(inflated, rowBytes, height)
  {
  }

  /** The image that is accepted: framed as one, inflated by `inflate`, and made of its declared rows. */
  ghost predicate ValidImage(bytes: seq<Byte>, inflate: seq<seq<Byte>> -> Option<seq<seq<Byte>>>) {
    var image := Png.Framed(bytes);
    && image.Some? && inflate(image.value.idat).Some?
    && Accepted(Flatten(inflate(image.value.idat).value), Png.RowBytes(image.value.header), image.value.header.height)
  }

  /** The whole validator, with decompression as a given function of the compressed chunks. */
  method ValidatePng(bytes: seq<Byte>, inflate: seq<seq<Byte>> -> Option<seq<seq<Byte>>>) returns (size: Option<(nat, nat)>)
    ensures size.Some? <==> ValidImage(bytes, inflate)
    ensures size.Some? ==> size.value == (Png.Framed(bytes).value.header.width, Png.Framed(bytes).value.header.height)
  {
    var table := Crc32.BuildTable();
    var image := Png.ValidateFraming(bytes, table[..]);
    if image.None? {
      return None;
    }
    var header := image.value.header;
    var inflated := inflate(image.value.idat);
    if inflated.None? {
      return None;
    }
    var accepted, outside := CheckScanlines(inflated.value, Png.RowBytes(header), header.height);
    return if accepted then Some((header.width, header.height)) else None;
  }
}
