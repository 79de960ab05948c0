/**
 * PNG chunks, stored zlib streams and the one canonical 2x2 gray image
 * (bench/generated_media_external_format.py).
 */
module PngImage {
  import opened Bytes
  import opened Outbox
  import opened Checksums

  const PNG_SIGNATURE: Bytes := [137, 80, 78, 71, 13, 10, 26, 10]
  const MAXIMUM_ENCODED_BYTES := 4096
  const MAXIMUM_CHUNK_BYTES := 4096
  const MAXIMUM_RAW_BYTES := 4096
  const ZLIB_HEADER: Bytes := [120, 1]
  const STORED_BLOCK: Byte := 1

  const IHDR := Ascii("IHDR")
  const GAMA := Ascii("gAMA")
  const IDAT := Ascii("IDAT")
  const IEND := Ascii("IEND")

  datatype Chunk = Chunk(kind: Bytes, data: Bytes)

  // ---------------------------------------------------------------------------------------
  // Big-endian words
  // ---------------------------------------------------------------------------------------

  function Reverse(b: Bytes): (r: Bytes)
    ensures |r| == |b|
  {
    if b == [] then [] else Reverse(b[1..]) + [b[0]]
  }

  lemma {:induction false} ReverseAppend(b: Bytes, x: Byte)
    ensures Reverse(b + [x]) == [x] + Reverse(b)
  {
    if b != [] {
      assert (b + [x])[1..] == b[1..] + [x];
      ReverseAppend(b[1..], x);
    }
  }

  lemma {:induction false} ReverseTwice(b: Bytes)
    ensures Reverse(Reverse(b)) == b
  {
    if b != [] {
      ReverseAppend(Reverse(b[1..]), b[0]);
      ReverseTwice(b[1..]);
    }
  }

  function BE32(n: nat): (b: Bytes)
    ensures |b| == 4
  {
    Reverse(LittleEndian(n, 4))
  }

  function FromBE32(b: Bytes): nat
    requires |b| == 4
  {
    FromLittleEndian(Reverse(b))
  }

  lemma FourBytes()
    ensures Pow256(4) == 0x1_0000_0000
  {
  }

  lemma BE32Inverse(n: nat)
    requires n < 0x1_0000_0000
    ensures FromBE32(BE32(n)) == n
  {
    FourBytes();
    ReverseTwice(LittleEndian(n, 4));
    LittleEndianRoundTrip(n, 4);
  }

  lemma FromBE32Inverse(b: Bytes)
    requires |b| == 4
    ensures BE32(FromBE32(b)) == b && FromBE32(b) < 0x1_0000_0000
  {
    FourBytes();
    FromLittleEndianRoundTrip(Reverse(b));
    ReverseTwice(b);
  }

  // ---------------------------------------------------------------------------------------
  // Chunks
  // ---------------------------------------------------------------------------------------

  /** The four check bytes of a chunk. */
  function CrcBytes(data: Bytes): (b: Bytes)
    ensures |b| == 4
  {
    BE32(Crc32(data) as nat)
  }

  predicate ValidChunk(c: Chunk) {
    |c.kind| == 4 && |c.data| <= MAXIMUM_CHUNK_BYTES
  }

  function PrintChunk(c: Chunk): Bytes {
    BE32(|c.data|) + c.kind + c.data + CrcBytes(c.kind + c.data)
  }

  function PrintChunks(cs: seq<Chunk>): Bytes {
    if cs == [] then [] else PrintChunk(cs[0]) + PrintChunks(cs[1..])
  }

  /** The first chunk of `b`, if it is whole and its check bytes are right. */
  function ParseChunk(b: Bytes): (r: Option<Chunk>)
    ensures r.Some? ==> |b| >= 12 + |r.value.data| && ValidChunk(r.value)
  {
    if |b| < 12 then None
    else
      var n := FromBE32(b[..4]);
      if n > MAXIMUM_CHUNK_BYTES || |b| < 12 + n then None
      else
        var c := Chunk(b[4..8], b[8..8 + n]);
        if b[8 + n..12 + n] != CrcBytes(c.kind + c.data) then None else Some(c)
  }

  /** All chunks up to the one IEND that must end the bytes. */
  function ParseChunks(b: Bytes): Option<seq<Chunk>>
    decreases |b|
  {
    var first := ParseChunk(b);
    if first.None? then None
    else
      var c := first.value;
      var rest := b[12 + |c.data|..];
      if c.kind == IEND then if rest == [] then Some([c]) else None
      else
        var more := ParseChunks(rest);
        if more.None? then None else Some([c] + more.value)
  }

  function ParsePng(b: Bytes): Option<seq<Chunk>> {
    if !(|PNG_SIGNATURE| + 12 <= |b| <= MAXIMUM_ENCODED_BYTES) || b[..8] != PNG_SIGNATURE then None
    else ParseChunks(b[8..])
  }

  /** The loop over an offset accepts and yields exactly the same chunks. */
  method ParsePngNow(b: Bytes) returns (r: Option<seq<Chunk>>)
    ensures r == ParsePng(b)
  {
    hide ParseChunk, ParseChunks;
    if |b| < |PNG_SIGNATURE| + 12 || |b| > MAXIMUM_ENCODED_BYTES || b[..8] != PNG_SIGNATURE {
      return None;
    }
    var chunks: seq<Chunk> := [];
    var offset := 8;
    PrependNothing(ParseChunks(b[8..]));
    while offset < |b|
      invariant 8 <= offset <= |b|
      invariant ParseChunks(b[8..]) == Prepend(chunks, ParseChunks(b[offset..]))
      decreases |b| - offset
    {
      ChunksStep(b, offset);
      var first := ParseChunk(b[offset..]);
      if first.None? {
        return None;
      }
      var c := first.value;
      PrependMore(chunks, c, ParseChunks(b[offset + 12 + |c.data|..]));
      chunks := chunks + [c];
      offset := offset + 12 + |c.data|;
      if c.kind == IEND {
        return if offset == |b| then Some(chunks) else None;
      }
    }
    ChunksStep(b, offset);
    return None;
  }

  function Prepend(cs: seq<Chunk>, more: Option<seq<Chunk>>): Option<seq<Chunk>> {
    if more.None? then None else Some(cs + more.value)
  }

  lemma PrependNothing(more: Option<seq<Chunk>>)
    ensures Prepend([], more) == more
  {
    if more.Some? {
      assert [] + more.value == more.value;
    }
  }

  lemma PrependMore(cs: seq<Chunk>, c: Chunk, more: Option<seq<Chunk>>)
    ensures Prepend(cs, Prepend([c], more)) == Prepend(cs + [c], more)
  {
    if more.Some? {
      assert cs + ([c] + more.value) == (cs + [c]) + more.value;
    }
  }

  lemma ChunksStep(b: Bytes, offset: nat)
    requires offset <= |b|
    ensures var first := ParseChunk(b[offset..]);
            && (offset == |b| ==> first.None?)
            && (first.Some? ==> offset + 12 + |first.value.data| <= |b|)
            && ParseChunks(b[offset..])
               == if first.None? then None
                  else
                    var end := offset + 12 + |first.value.data|;
                    if first.value.kind == IEND then
                      if end == |b| then Some([first.value]) else None
                    else Prepend([first.value], ParseChunks(b[end..]))
  {
    hide CrcBytes, FromBE32;
    var first := ParseChunk(b[offset..]);
    if first.Some? {
      var end := 12 + |first.value.data|;
      assert b[offset..][end..] == b[offset + end..];
    }
  }

  /** A chunk list that a file may hold: IEND is there, last and only once. */
  predicate Terminated(cs: seq<Chunk>) {
    && cs != [] && cs[|cs| - 1].kind == IEND
    && (forall i | 0 <= i < |cs| :: ValidChunk(cs[i]))
    && (forall i | 0 <= i < |cs| - 1 :: cs[i].kind != IEND)
  }

  lemma ParsePrintChunk(c: Chunk, tail: Bytes)
    requires ValidChunk(c)
    ensures ParseChunk(PrintChunk(c) + tail) == Some(c)
    ensures (PrintChunk(c) + tail)[12 + |c.data|..] == tail
  {
    hide CrcBytes, BE32, FromBE32;
    var b := PrintChunk(c) + tail;
    var n := |c.data|;
    BE32Inverse(n);
    assert b[..4] == BE32(n) && b[4..8] == c.kind && b[8..8 + n] == c.data;
    assert b[8 + n..12 + n] == CrcBytes(c.kind + c.data);
  }

  /** Parsing inverts printing. */
  lemma {:induction false} ParsePrint(cs: seq<Chunk>)
    requires Terminated(cs)
    ensures ParseChunks(PrintChunks(cs)) == Some(cs)
  {
    hide ParseChunk, PrintChunk;
    ParsePrintChunk(cs[0], PrintChunks(cs[1..]));
    if |cs| > 1 {
      ParsePrint(cs[1..]);
      assert cs == [cs[0]] + cs[1..];
    } else {
      assert cs[1..] == [] && cs == [cs[0]];
    }
  }

  lemma PrintParseChunk(b: Bytes)
    requires ParseChunk(b).Some?
    ensures var c := ParseChunk(b).value;
            b == PrintChunk(c) + b[12 + |c.data|..]
  {
    hide CrcBytes, BE32, FromBE32;
    FromBE32Inverse(b[..4]);
    var n := FromBE32(b[..4]);
    assert b == b[..4] + b[4..8] + b[8..8 + n] + b[8 + n..12 + n] + b[12 + n..];
  }

  /** Accepted bytes are exactly the print of the chunks they parse to. */
  lemma {:induction false} PrintParse(b: Bytes)
    requires ParseChunks(b).Some?
    ensures PrintChunks(ParseChunks(b).value) == b && Terminated(ParseChunks(b).value)
    decreases |b|
  {
    hide ParseChunk, PrintChunk;
    PrintParseChunk(b);
    var c := ParseChunk(b).value;
    var rest := b[12 + |c.data|..];
    var cs := ParseChunks(b).value;
    if c.kind == IEND {
      assert cs[1..] == [];
    } else {
      PrintParse(rest);
      assert cs[1..] == ParseChunks(rest).value;
    }
  }

  // ---------------------------------------------------------------------------------------
  // Stored zlib streams
  // ---------------------------------------------------------------------------------------

  function LE16(n: nat): (b: Bytes)
    ensures |b| == 2
  {
    LittleEndian(n, 2)
  }

  /** A zlib stream of one stored block; the length's complement is 65535 less the length. */
  function StoredZlib(raw: Bytes): (b: Bytes)
    requires 0 < |raw| <= MAXIMUM_RAW_BYTES
    ensures |b| == 11 + |raw|
  {
    ZLIB_HEADER + [STORED_BLOCK] + LE16(|raw|) + LE16(65535 - |raw|) + raw + BE32(Adler32(raw))
  }

  function DecodeStoredZlib(b: Bytes, expected: nat): (r: Option<Bytes>)
    ensures r.Some? ==> |r.value| == expected
  {
    if !(0 < expected <= MAXIMUM_RAW_BYTES) || |b| != 11 + expected || b[..2] != ZLIB_HEADER
       || b[2] != STORED_BLOCK then None
    else if FromLittleEndian(b[3..5]) != expected
            || FromLittleEndian(b[5..7]) != 65535 - expected then None
    else
      var raw := b[7..7 + expected];
      if FromBE32(b[7 + expected..]) != Adler32(raw) then None else Some(raw)
  }

  lemma TwoBytes()
    ensures Pow256(2) == 65536
  {
  }

  lemma SixParts(b: Bytes, n: nat)
    requires |b| >= 7 + n
    ensures b == b[..2] + [b[2]] + b[3..5] + b[5..7] + b[7..7 + n] + b[7 + n..]
  {
  }

  /** The decoder accepts exactly the encoder's output for the expected length. */
  lemma StoredExact(b: Bytes, raw: Bytes)
    requires 0 < |raw| <= MAXIMUM_RAW_BYTES
    ensures DecodeStoredZlib(b, |raw|) == Some(raw) <==> b == StoredZlib(raw)
  {
    hide Adler32, BE32, FromBE32, LittleEndian, FromLittleEndian;
    TwoBytes();
    AdlerFits(raw);
    var n := |raw|;
    if b == StoredZlib(raw) {
      LittleEndianRoundTrip(n, 2);
      LittleEndianRoundTrip(65535 - n, 2);
      BE32Inverse(Adler32(raw));
      assert b[..2] == ZLIB_HEADER && b[3..5] == LE16(n) && b[5..7] == LE16(65535 - n);
      assert b[7..7 + n] == raw && b[7 + n..] == BE32(Adler32(raw));
    }
    if DecodeStoredZlib(b, n) == Some(raw) {
      FromLittleEndianRoundTrip(b[3..5]);
      FromLittleEndianRoundTrip(b[5..7]);
      FromBE32Inverse(b[7 + n..]);
      SixParts(b, n);
    }
  }

  // ---------------------------------------------------------------------------------------
  // The image
  // ---------------------------------------------------------------------------------------

  const IMAGE_PIXELS := 4

  function GrayHeader(): (b: Bytes)
    ensures |b| == 13
  {
    BE32(2) + BE32(2) + [8, 0, 0, 0, 0]
  }

  /** Two rows of two pixels, each behind a zero filter byte. */
  function Filtered(raw: Bytes): (b: Bytes)
    requires |raw| == IMAGE_PIXELS
    ensures |b| == 6
  {
    [0] + raw[..2] + [0] + raw[2..]
  }

  function Unfiltered(b: Bytes): Option<Bytes> {
    if |b| != 6 || b[0] != 0 || b[3] != 0 then None else Some(b[1..3] + b[4..6])
  }

  function ImageChunks(raw: Bytes): seq<Chunk>
    requires |raw| == IMAGE_PIXELS
  {
    [Chunk(IHDR, GrayHeader()), Chunk(GAMA, BE32(100000)),
     Chunk(IDAT, StoredZlib(Filtered(raw))), Chunk(IEND, [])]
  }

  function EncodeImage(raw: Bytes): Option<Bytes> {
    if |raw| != IMAGE_PIXELS then None
    else Some(PNG_SIGNATURE + PrintChunks(ImageChunks(raw)))
  }

  function DecodeImage(b: Bytes): Option<Bytes> {
    var chunks := ParsePng(b);
    if chunks.None? then None
    else
      var cs := chunks.value;
      if |cs| != 4 || cs[0].kind != IHDR || cs[1].kind != GAMA || cs[2].kind != IDAT
         || cs[3].kind != IEND || cs[0].data != GrayHeader() || cs[1].data != BE32(100000)
         || cs[3].data != [] then None
      else
        var filtered := DecodeStoredZlib(cs[2].data, 6);
        if filtered.None? then None else Unfiltered(filtered.value)
  }

  lemma FilterInverse(raw: Bytes, b: Bytes)
    requires |raw| == IMAGE_PIXELS
    ensures Unfiltered(b) == Some(raw) <==> b == Filtered(raw)
  {
    if b == Filtered(raw) {
      assert b[1..3] == raw[..2] && b[4..6] == raw[2..];
      assert raw == raw[..2] + raw[2..];
    }
    if Unfiltered(b) == Some(raw) {
      assert raw[..2] == b[1..3] && raw[2..] == b[4..6];
      assert b == [b[0]] + b[1..3] + [b[3]] + b[4..6];
    }
  }

  lemma UnfilteredLength(b: Bytes)
    ensures Unfiltered(b).Some? ==> |Unfiltered(b).value| == IMAGE_PIXELS
  {
  }

  lemma Kinds()
    ensures IHDR != IEND && GAMA != IEND && IDAT != IEND
    ensures |IHDR| == 4 && |GAMA| == 4 && |IDAT| == 4 && |IEND| == 4
  {
    assert IHDR[1] == 'H' as int % 256 && IEND[1] == 'E' as int % 256;
    assert GAMA[0] == 'g' as int % 256 && IEND[0] == 'I' as int % 256;
    assert IDAT[1] == 'D' as int % 256;
  }

  lemma ImageTerminated(raw: Bytes)
    requires |raw| == IMAGE_PIXELS
    ensures Terminated(ImageChunks(raw))
    ensures |PrintChunks(ImageChunks(raw))| == 82
  {
    hide CrcBytes, BE32, StoredZlib, Filtered;
    Kinds();
    var cs := ImageChunks(raw);
    assert cs[1..][1..] == cs[2..] && cs[2..][1..] == cs[3..] && cs[3..][1..] == [];
    assert PrintChunks(cs[3..]) == PrintChunk(cs[3]) + PrintChunks([]);
    assert PrintChunks(cs[2..]) == PrintChunk(cs[2]) + PrintChunks(cs[3..]);
    assert PrintChunks(cs[1..]) == PrintChunk(cs[1]) + PrintChunks(cs[2..]);
    assert |PrintChunk(cs[0])| == 25 && |PrintChunk(cs[1])| == 16;
    assert |PrintChunk(cs[2])| == 29 && |PrintChunk(cs[3])| == 12;
  }

  /** The decoder accepts exactly the encoder's outputs, and gives the pixels back. */
  lemma ImageExact(b: Bytes, raw: Bytes)
    ensures DecodeImage(b) == Some(raw) <==> EncodeImage(raw) == Some(b)
  {
    hide ParseChunks, PrintChunks, StoredZlib, DecodeStoredZlib, BE32, Filtered, Unfiltered,
      Terminated;
    if EncodeImage(raw) == Some(b) {
      ImageTerminated(raw);
      ParsePrint(ImageChunks(raw));
      assert b[8..] == PrintChunks(ImageChunks(raw)) && b[..8] == PNG_SIGNATURE;
      StoredExact(StoredZlib(Filtered(raw)), Filtered(raw));
      FilterInverse(raw, Filtered(raw));
    }
    if DecodeImage(b) == Some(raw) {
      PrintParse(b[8..]);
      var cs := ParsePng(b).value;
      var filtered := DecodeStoredZlib(cs[2].data, 6).value;
      UnfilteredLength(filtered);
      FilterInverse(raw, filtered);
      StoredExact(cs[2].data, filtered);
      assert cs == ImageChunks(raw);
      assert b == b[..8] + b[8..];
    }
  }
}
