/**
 PNG files: the chunk layout (section 3.2 of RFC 2083), the fixture encoder, and the
 decoder of the offline smoke.  Compression and the checksum are parameters.
 */
module PngFile {
  import opened Wrappers
  import opened PngFilters

  const MAGIC: seq<byte> := [0x89, 0x50, 0x4E, 0x47, 0x0D, 0x0A, 0x1A, 0x0A]
  const IHDR: seq<byte> := [0x49, 0x48, 0x44, 0x52]
  const IDAT: seq<byte> := [0x49, 0x44, 0x41, 0x54]
  const IEND: seq<byte> := [0x49, 0x45, 0x4E, 0x44]
  /** "WDRBPIX1" */
  const PIXEL_MAGIC: seq<byte> := [0x57, 0x44, 0x52, 0x42, 0x50, 0x49, 0x58, 0x31]
  const MAX_FILE: nat := 64 * 1024 * 1024

  // ----- big-endian words

  const WORD: nat := 0x1_0000_0000

  function U32(n: nat): (b: seq<byte>)
    requires n < WORD
    ensures |b| == 4
  {
    [n / 0x100_0000, n / 0x1_0000 % 256, n / 256 % 256, n % 256]
  }

  function FromU32(b: seq<byte>): nat
    requires |b| == 4
  {
    b[0] as int * 0x100_0000 + b[1] as int * 0x1_0000 + b[2] as int * 256 + b[3] as int
  }

  lemma WordRoundTrip(n: nat)
    requires n < WORD
    ensures FromU32(U32(n)) == n
  {
    assert n == n / 256 * 256 + n % 256;
    assert n / 256 == n / 0x1_0000 * 256 + n / 256 % 256;
    assert n / 0x1_0000 == n / 0x100_0000 * 256 + n / 0x1_0000 % 256;
  }

  // ----- header

  datatype Header = Header(
    width: nat, height: nat, depth: byte, color: byte, compression: byte, filtering: byte, interlace: byte)

  function HeaderOf(payload: seq<byte>): Header
    requires |payload| == 13
  {
    Header(FromU32(payload[0..4]), FromU32(payload[4..8]), payload[8], payload[9], payload[10], payload[11],
           payload[12])
  }

  /** Width and height are big-endian words, in this order, and the single bytes follow. */
  lemma HeaderBytes(payload: seq<byte>)
    requires |payload| == 13
    ensures var h := HeaderOf(payload);
            && h.width == ((payload[0] as int * 256 + payload[1]) * 256 + payload[2]) * 256 + payload[3]
            && h.height == ((payload[4] as int * 256 + payload[5]) * 256 + payload[6]) * 256 + payload[7]
            && [h.depth, h.color, h.compression, h.filtering, h.interlace] == payload[8..]
  {
    assert payload[0..4] == [payload[0], payload[1], payload[2], payload[3]];
    assert payload[4..8] == [payload[4], payload[5], payload[6], payload[7]];
  }

  function PrintHeader(h: Header): (payload: seq<byte>)
    requires h.width < WORD && h.height < WORD
    ensures |payload| == 13
  {
    U32(h.width) + U32(h.height) + [h.depth, h.color, h.compression, h.filtering, h.interlace]
  }

  lemma HeaderRoundTrip(h: Header)
    requires h.width < WORD && h.height < WORD
    ensures HeaderOf(PrintHeader(h)) == h
  {
    var payload := PrintHeader(h);
    assert payload[0..4] == U32(h.width) && payload[4..8] == U32(h.height);
    WordRoundTrip(h.width);
    WordRoundTrip(h.height);
  }

  // ----- chunks

  datatype Chunk = Chunk(kind: seq<byte>, payload: seq<byte>)

  predicate ChunkOk(c: Chunk) {
    |c.kind| == 4 && |c.payload| < WORD
  }

  type Checksum = seq<byte> -> nat

  function PrintChunk(c: Chunk, crc: Checksum): (b: seq<byte>)
    requires ChunkOk(c)
    ensures |b| == 12 + |c.payload|
  {
    U32(|c.payload|) + c.kind + c.payload + U32(crc(c.kind + c.payload) % WORD)
  }

  function PrintChunks(chunks: seq<Chunk>, crc: Checksum): seq<byte>
    requires forall c <- chunks :: ChunkOk(c)
  {
    if chunks == [] then [] else PrintChunk(chunks[0], crc) + PrintChunks(chunks[1..], crc)
  }

  /** Length, kind, payload and checksum, in this order. */
  lemma ChunkLayout(c: Chunk, crc: Checksum)
    requires ChunkOk(c)
    ensures var b, n := PrintChunk(c, crc), |c.payload|;
            && FromU32(b[..4]) == n && b[4..8] == c.kind && b[8..8 + n] == c.payload
            && FromU32(b[8 + n..]) == crc(c.kind + c.payload) % WORD
  {
    var b, n := PrintChunk(c, crc), |c.payload|;
    WordRoundTrip(n);
    WordRoundTrip(crc(c.kind + c.payload) % WORD);
    assert b[..4] == U32(n) && b[8 + n..] == U32(crc(c.kind + c.payload) % WORD);
  }

  datatype PngError =
    | NotBoundedPng
    | TruncatedChunk
    | InvalidHeader
    | NoImageData
    | UnsupportedFormat
    | CorruptData
    | InvalidScanlineLength
    | InvalidFilter
    | Degenerate

  /** The header and the image data, as far as they have been collected. */
  datatype Parts = Parts(header: Option<Header>, compressed: seq<byte>)

  /** What a chunk adds; `None` ends the walk. */
  function Absorb(parts: Parts, c: Chunk): Result<Option<Parts>, PngError> {
    if c.kind == IHDR then
      if parts.header.Some? || |c.payload| != 13 then Err(InvalidHeader)
      else Ok(Some(parts.(header := Some(HeaderOf(c.payload)))))
    else if c.kind == IDAT then Ok(Some(parts.(compressed := parts.compressed + c.payload)))
    else if c.kind == IEND then Ok(None)
    else Ok(Some(parts))
  }

  /** The parts of a list of chunks, up to the end chunk. */
  function Collect(chunks: seq<Chunk>, parts: Parts): Result<Parts, PngError> {
    if chunks == [] then Ok(parts)
    else
      match Absorb(parts, chunks[0])
      case Err(e) => Err(e)
      case Ok(None) => Ok(parts)
      case Ok(Some(next)) => Collect(chunks[1..], next)
  }

  /** The chunk at an offset of a file that has room for its frame. */
  function ChunkLength(data: seq<byte>, offset: nat): nat
    requires offset + 12 <= |data|
  {
    FromU32(data[offset..offset + 4])
  }

  function ChunkAt(data: seq<byte>, offset: nat): Chunk
    requires offset + 12 <= |data| && offset + 12 + ChunkLength(data, offset) <= |data|
  {
    Chunk(data[offset + 4..offset + 8], data[offset + 8..offset + 8 + ChunkLength(data, offset)])
  }

  /** The parts of a file from an offset on. */
  function Walk(data: seq<byte>, offset: nat, parts: Parts): Result<Parts, PngError>
    decreases |data| - offset
  {
    if offset + 12 > |data| then Ok(parts)
    else if offset + 12 + ChunkLength(data, offset) > |data| then Err(TruncatedChunk)
    else
      match Absorb(parts, ChunkAt(data, offset))
      case Err(e) => Err(e)
      case Ok(None) => Ok(parts)
      case Ok(Some(next)) => Walk(data, offset + 12 + ChunkLength(data, offset), next)
  }

  lemma CutPrefix(data: seq<byte>, offset: nat, a: seq<byte>, b: seq<byte>)
    requires offset <= |data| && data[offset..] == a + b
    ensures offset + |a| <= |data| && data[offset..offset + |a|] == a && data[offset + |a|..] == b
  {
  }

  /** A printed chunk is read back where it stands. */
  lemma ChunkReadBack(data: seq<byte>, offset: nat, c: Chunk, crc: Checksum, after: seq<byte>)
    requires ChunkOk(c) && offset <= |data| && data[offset..] == PrintChunk(c, crc) + after
    ensures offset + 12 + |c.payload| <= |data| && data[offset + 12 + |c.payload|..] == after
    ensures ChunkLength(data, offset) == |c.payload| && ChunkAt(data, offset) == c
  {
    CutPrefix(data, offset, PrintChunk(c, crc), after);
    var printed := PrintChunk(c, crc);
    assert printed[0..4] == U32(|c.payload|);
    assert printed[4..8] == c.kind;
    assert printed[8..8 + |c.payload|] == c.payload;
    assert forall i, j :: 0 <= i <= j <= |printed| ==> data[offset + i..offset + j] == printed[i..j];
    WordRoundTrip(|c.payload|);
  }

  /** The file from the offset on is exactly this list of chunks. */
  predicate Framed(data: seq<byte>, offset: nat, chunks: seq<Chunk>)
    decreases |chunks|
  {
    if chunks == [] then offset == |data|
    else
      var n := |chunks[0].payload|;
      && offset + 12 + n <= |data| && ChunkLength(data, offset) == n && ChunkAt(data, offset) == chunks[0]
      && Framed(data, offset + 12 + n, chunks[1..])
  }

  lemma {:induction false} PrintedIsFramed(data: seq<byte>, offset: nat, chunks: seq<Chunk>, crc: Checksum)
    requires forall c <- chunks :: ChunkOk(c)
    requires offset <= |data| && data[offset..] == PrintChunks(chunks, crc)
    ensures Framed(data, offset, chunks)
    decreases |chunks|
  {
    if chunks == [] {
    } else {
      var rest := chunks[1..];
      assert forall c <- rest :: c in chunks;
      ChunkReadBack(data, offset, chunks[0], crc, PrintChunks(rest, crc));
      PrintedIsFramed(data, offset + 12 + |chunks[0].payload|, rest, crc);
    }
  }

  lemma {:induction false} WalkFramed(data: seq<byte>, offset: nat, chunks: seq<Chunk>, parts: Parts)
    requires Framed(data, offset, chunks)
    ensures Walk(data, offset, parts) == Collect(chunks, parts)
    decreases |chunks|
  {
    if chunks == [] {
    } else {
      var step := Absorb(parts, chunks[0]);
      if step.Ok? && step.value.Some? {
        WalkFramed(data, offset + 12 + |chunks[0].payload|, chunks[1..], step.value.value);
      }
    }
  }

  /** Walking any printed list of chunks collects the parts of the list. */
  lemma WalkPrinted(before: seq<byte>, chunks: seq<Chunk>, crc: Checksum, parts: Parts)
    requires forall c <- chunks :: ChunkOk(c)
    ensures Walk(before + PrintChunks(chunks, crc), |before|, parts) == Collect(chunks, parts)
  {
    var data := before + PrintChunks(chunks, crc);
    assert data[|before|..] == PrintChunks(chunks, crc);
    PrintedIsFramed(data, |before|, chunks, crc);
    WalkFramed(data, |before|, chunks, parts);
  }

  /** The chunks before the end chunk. */
  function Body(chunks: seq<Chunk>): seq<Chunk> {
    if chunks == [] || chunks[0].kind == IEND then [] else [chunks[0]] + Body(chunks[1..])
  }

  function Headers(chunks: seq<Chunk>): seq<seq<byte>> {
    if chunks == [] then []
    else (if chunks[0].kind == IHDR then [chunks[0].payload] else []) + Headers(chunks[1..])
  }

  function ImageData(chunks: seq<Chunk>): seq<byte> {
    if chunks == [] then []
    else (if chunks[0].kind == IDAT then chunks[0].payload else []) + ImageData(chunks[1..])
  }

  /** What may come after a header has, or has not, been seen. */
  predicate HeadersFit(headers: seq<seq<byte>>, seen: bool) {
    headers == [] || (!seen && |headers| == 1 && |headers[0]| == 13)
  }

  function HeaderIn(c: Chunk): seq<seq<byte>> {
    if c.kind == IHDR then [c.payload] else []
  }

  function DataIn(c: Chunk): seq<byte> {
    if c.kind == IDAT then c.payload else []
  }

  lemma BodyStep(chunks: seq<Chunk>)
    requires chunks != [] && chunks[0].kind != IEND
    ensures Headers(Body(chunks)) == HeaderIn(chunks[0]) + Headers(Body(chunks[1..]))
    ensures ImageData(Body(chunks)) == DataIn(chunks[0]) + ImageData(Body(chunks[1..]))
  {
    assert Body(chunks)[1..] == Body(chunks[1..]);
  }

  /** These headers and this image data, added to the parts, give the result. */
  predicate Gives(parts: Parts, headers: seq<seq<byte>>, data: seq<byte>, result: Result<Parts, PngError>) {
    if HeadersFit(headers, parts.header.Some?)
    then
      var header := if headers == [] then parts.header else Some(HeaderOf(headers[0]));
      result == Ok(Parts(header, parts.compressed + data))
    else result == Err(InvalidHeader)
  }

  lemma AbsorbGives(parts: Parts, c: Chunk, headers: seq<seq<byte>>, data: seq<byte>, result: Result<Parts, PngError>)
    requires c.kind != IEND
    requires match Absorb(parts, c)
             case Err(e) => result == Err(e)
             case Ok(None) => false
             case Ok(Some(next)) => Gives(next, headers, data, result)
    ensures Gives(parts, HeaderIn(c) + headers, DataIn(c) + data, result)
  {
    assert IHDR[1] == 0x48 && IDAT[1] == 0x44;
    if c.kind == IHDR {
      assert DataIn(c) + data == data;
    } else {
      assert HeaderIn(c) + headers == headers;
      if c.kind == IDAT {
        assert parts.compressed + c.payload + data == parts.compressed + (DataIn(c) + data);
      } else {
        assert DataIn(c) + data == data;
      }
    }
  }

  /**
   Collecting is taking the one header of thirteen bytes and joining the image data, of the
   chunks before the end; it fails exactly on a second or ill-sized header.
   */
  lemma {:induction false} CollectIs(chunks: seq<Chunk>, parts: Parts)
    ensures Gives(parts, Headers(Body(chunks)), ImageData(Body(chunks)), Collect(chunks, parts))
    decreases |chunks|
  {
    if chunks == [] || chunks[0].kind == IEND {
      assert IHDR[1] == 0x48 && IDAT[1] == 0x44 && IEND[1] == 0x45;
      assert parts.compressed + [] == parts.compressed;
    } else {
      BodyStep(chunks);
      var step := Absorb(parts, chunks[0]);
      if step.Ok? {
        CollectIs(chunks[1..], step.value.value);
      }
      AbsorbGives(parts, chunks[0], Headers(Body(chunks[1..])), ImageData(Body(chunks[1..])), Collect(chunks, parts));
    }
  }

  // ----- accepted formats

  function Channels(color: byte): Option<nat> {
    match color
    case 0 => Some(1)
    case 2 => Some(3)
    case 4 => Some(2)
    case 6 => Some(4)
    case _ => None
  }

  /**
   Three samples for colour and one for grey, one more for alpha: the two upper bits of a
   colour type that has no palette.
   */
  lemma ChannelsOf(color: byte)
    ensures Channels(color).Some? <==> color == 0 || color == 2 || color == 4 || color == 6
    ensures Channels(color).Some? ==>
              Channels(color).value == (if color / 2 % 2 == 1 then 3 else 1) + (if color / 4 % 2 == 1 then 1 else 0)
  {
  }

  predicate Supported(h: Header) {
    && Channels(h.color).Some? && h.depth == 8
    && h.compression == 0 && h.filtering == 0 && h.interlace == 0
    && 32 <= h.width <= 8192 && 32 <= h.height <= 8192
  }

  // ----- decoding

  type Inflate = seq<byte> -> Option<seq<byte>>

  /** The pixel at an offset: `channels` bytes, or what is left of the raster. */
  function PixelAt(px: seq<byte>, channels: nat, offset: nat): seq<byte>
    requires offset < |px|
  {
    px[offset..if offset + channels < |px| then offset + channels else |px|]
  }

  /** The distinct pixels from an offset on. */
  function PixelSet(px: seq<byte>, channels: nat, offset: nat): set<seq<byte>>
    requires channels > 0
    decreases |px| - offset
  {
    if offset >= |px| then {} else {PixelAt(px, channels, offset)} + PixelSet(px, channels, offset + channels)
  }

  function Canonical(h: Header, channels: byte, px: seq<byte>): seq<byte>
    requires h.width < WORD && h.height < WORD
  {
    PIXEL_MAGIC + U32(h.width) + U32(h.height) + [channels] + px
  }

  function DecodeImage(h: Header, filtered: seq<byte>): Result<seq<byte>, PngError>
    requires Supported(h)
  {
    var channels := Channels(h.color).value;
    var stride := h.width * channels;
    if |filtered| != FilteredSize(stride, h.height) then Err(InvalidScanlineLength)
    else if !FiltersKnown(filtered, stride, h.height) then Err(InvalidFilter)
    else
      var px := Unfilter(filtered, stride, channels, stride * h.height);
      if |PixelSet(px, channels, 0)| >= 2 then Ok(Canonical(h, channels, px)) else Err(Degenerate)
  }

  /** What the decoder is to return for a file. */
  function Decode(data: seq<byte>, inflate: Inflate): Result<seq<byte>, PngError> {
    if !(MAGIC <= data) || |data| > MAX_FILE then Err(NotBoundedPng)
    else
      match Walk(data, 8, Parts(None, []))
      case Err(e) => Err(e)
      case Ok(parts) =>
        if parts.header.None? || parts.compressed == [] then Err(NoImageData)
        else
          var h := parts.header.value;
          if !Supported(h) then Err(UnsupportedFormat)
          else
            match inflate(parts.compressed)
            case None => Err(CorruptData)
            case Some(filtered) => DecodeImage(h, filtered)
  }

  /**
   The layout of what is returned for a file: a tag, the width and height of its header as
   big-endian words, the channel count of its colour type, and as many bytes of raster.
   */
  lemma DecodedLayout(data: seq<byte>, inflate: Inflate)
    requires Decode(data, inflate).Ok?
    ensures Walk(data, 8, Parts(None, [])).Ok? && Walk(data, 8, Parts(None, [])).value.header.Some?
    ensures var out, h := Decode(data, inflate).value, Walk(data, 8, Parts(None, [])).value.header.value;
            && |out| >= 17 && out[..8] == [0x57, 0x44, 0x52, 0x42, 0x50, 0x49, 0x58, 0x31]
            && FromU32(out[8..12]) == h.width && 32 <= h.width <= 8192
            && FromU32(out[12..16]) == h.height && 32 <= h.height <= 8192
            && Channels(h.color) == Some(out[16]) && h.depth == 8
            && |out| - 17 == h.width * out[16] * h.height
            && |data| <= 67_108_864
  {
    var out, h := Decode(data, inflate).value, Walk(data, 8, Parts(None, [])).value.header.value;
    var channels := Channels(h.color).value;
    var filtered := inflate(Walk(data, 8, Parts(None, [])).value.compressed).value;
    var px := Unfilter(filtered, h.width * channels, channels, h.width * channels * h.height);
    assert out == Canonical(h, channels, px);
    WordRoundTrip(h.width);
    WordRoundTrip(h.height);
    assert out[8..12] == U32(h.width) && out[12..16] == U32(h.height);
  }

  // ----- the decoder

  lemma SubsetSize<T>(a: set<T>, b: set<T>)
    requires a <= b
    ensures |a| <= |b|
  {
    assert b == a + (b - a);
  }

  /** Collects distinct pixels until it has seen enough of them. */
  method CountPixels(px: seq<byte>, channels: nat) returns (several: bool)
    requires channels > 0
    ensures several <==> |PixelSet(px, channels, 0)| >= 2
  {
    var unique: set<seq<byte>> := {};
    var offset := 0;
    while offset < |px|
      invariant PixelSet(px, channels, 0) == unique + PixelSet(px, channels, offset)
      decreases |px| - offset
    {
      unique := unique + {PixelAt(px, channels, offset)};
      if |unique| >= 16 {
        SubsetSize(unique, PixelSet(px, channels, 0));
        return true;
      }
      offset := offset + channels;
    }
    several := |unique| >= 2;
  }

  /** The chunk at an offset and where the next one starts, if the file holds all of it. */
  method TakeChunk(data: seq<byte>, offset: nat) returns (fits: bool, kind: seq<byte>, payload: seq<byte>, end: nat)
    requires offset + 12 <= |data|
    ensures end == offset + 12 + ChunkLength(data, offset) && (fits <==> end <= |data|)
    ensures fits ==> ChunkAt(data, offset) == Chunk(kind, payload)
  {
    var length := FromU32(data[offset..offset + 4]);
    end := offset + 12 + length;
    fits, kind, payload := end <= |data|, [], [];
    if fits {
      kind, payload := data[offset + 4..offset + 8], data[offset + 8..offset + 8 + length];
    }
  }

  /** What one chunk does to the collected parts; `None` ends the loop. */
  method AbsorbChunk(parts: Parts, kind: seq<byte>, payload: seq<byte>)
    returns (result: Result<Option<Parts>, PngError>)
    ensures result == Absorb(parts, Chunk(kind, payload))
  {
    if kind == IHDR {
      if parts.header.Some? || |payload| != 13 {
        return Err(InvalidHeader);
      }
      return Ok(Some(parts.(header := Some(HeaderOf(payload)))));
    } else if kind == IDAT {
      return Ok(Some(parts.(compressed := parts.compressed + payload)));
    } else if kind == IEND {
      return Ok(None);
    }
    return Ok(Some(parts));
  }

  /** The chunk loop of the decoder. */
  method WalkChunks(data: seq<byte>) returns (result: Result<Parts, PngError>)
    requires |data| >= 8
    ensures result == Walk(data, 8, Parts(None, []))
  {
    var offset, parts := 8, Parts(None, []);
    while offset + 12 <= |data|
      invariant 8 <= offset <= |data|
      invariant Walk(data, 8, Parts(None, [])) == Walk(data, offset, parts)
      decreases |data| - offset
    {
      var fits, kind, payload, end := TakeChunk(data, offset);
      if !fits {
        return Err(TruncatedChunk);
      }
      var absorbed := AbsorbChunk(parts, kind, payload);
      if absorbed.Err? {
        return Err(absorbed.error);
      }
      if absorbed.value.None? {
        return Ok(parts);
      }
      parts, offset := absorbed.value.value, end;
    }
    return Ok(parts);
  }

  /** `canonical_png_pixels` computes what `Decode` says. */
  method DecodePng(data: seq<byte>, inflate: Inflate) returns (result: Result<seq<byte>, PngError>)
    ensures result == Decode(data, inflate)
  {
    if !(MAGIC <= data) || |data| > MAX_FILE {
      return Err(NotBoundedPng);
    }
    var walked := WalkChunks(data);
    if walked.Err? {
      return Err(walked.error);
    }
    var parts := walked.value;
    if parts.header.None? || parts.compressed == [] {
      return Err(NoImageData);
    }
    var h := parts.header.value;
    if !Supported(h) {
      return Err(UnsupportedFormat);
    }
    var inflated := inflate(parts.compressed);
    if inflated.None? {
      return Err(CorruptData);
    }
    result := DecodeScanlines(h, inflated.value);
  }

  lemma RasterShape(width: nat, channels: nat, height: nat)
    requires width > 0 && channels > 0 && height > 0
    ensures var stride := width * channels;
            stride > 0 && stride * height > 0
  {
  }

  method DecodeScanlines(h: Header, filtered: seq<byte>) returns (result: Result<seq<byte>, PngError>)
    requires Supported(h)
    ensures result == DecodeImage(h, filtered)
  {
    var channels := Channels(h.color).value;
    var stride := h.width * channels;
    RasterShape(h.width, channels, h.height);
    if |filtered| != FilteredSize(stride, h.height) {
      return Err(InvalidScanlineLength);
    }
    var pixels := new byte[stride * h.height];
    var known := UnfilterInPlace(filtered, pixels, stride, channels, h.height);
    if !known {
      return Err(InvalidFilter);
    }
    var px := pixels[..];
    var several := CountPixels(px, channels);
    if !several {
      return Err(Degenerate);
    }
    return Ok(Canonical(h, channels, px));
  }
}
