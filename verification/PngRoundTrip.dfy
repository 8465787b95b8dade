/** The fixture encoder, and that the decoder gives back the pixels it was given. */
module PngRoundTrip {
  import opened Wrappers
  import opened PngFilters
  import opened PngFile

  type Deflate = seq<byte> -> seq<byte>

  /** The three chunks of an encoded image. */
  function ImageChunks(h: Header, compressed: seq<byte>): seq<Chunk>
    requires h.width < WORD && h.height < WORD
  {
    [Chunk(IHDR, PrintHeader(h)), Chunk(IDAT, compressed), Chunk(IEND, [])]
  }

  function Encode(h: Header, compressed: seq<byte>, crc: Checksum): seq<byte>
    requires h.width < WORD && h.height < WORD && |compressed| < WORD
  {
    MAGIC + PrintChunks(ImageChunks(h, compressed), crc)
  }

  lemma CollectImage(h: Header, compressed: seq<byte>)
    requires h.width < WORD && h.height < WORD
    ensures Collect(ImageChunks(h, compressed), Parts(None, [])) == Ok(Parts(Some(h), compressed))
  {
    var chunks := ImageChunks(h, compressed);
    HeaderRoundTrip(h);
    var headed := Parts(Some(h), []);
    var filled := Parts(Some(h), compressed);
    assert IDAT[1] != IHDR[1] && IEND[1] != IHDR[1] && IEND[1] != IDAT[1];
    assert Absorb(Parts(None, []), chunks[0]) == Ok(Some(headed));
    var rest := chunks[1..];
    assert rest[0] == Chunk(IDAT, compressed) && [] + compressed == compressed;
    assert Absorb(headed, rest[0]) == Ok(Some(filled));
    assert rest[1..][0] == Chunk(IEND, []);
    assert Collect(rest[1..], filled) == Ok(filled);
  }

  /** The walk over an encoded file recovers the header and the image data. */
  lemma EncodedParts(h: Header, compressed: seq<byte>, crc: Checksum)
    requires h.width < WORD && h.height < WORD && |compressed| < WORD
    ensures Walk(Encode(h, compressed, crc), 8, Parts(None, [])) == Ok(Parts(Some(h), compressed))
  {
    WalkPrinted(MAGIC, ImageChunks(h, compressed), crc, Parts(None, []));
    CollectImage(h, compressed);
  }

  lemma FilterIsKnown(px: seq<byte>, filters: seq<byte>, stride: nat, channels: nat)
    requires 0 < stride && 0 < channels && |px| == stride * |filters|
    requires forall f <- filters :: f <= 4
    ensures FiltersKnown(Filter(px, filters, stride, channels), stride, |filters|)
  {
    forall row | 0 <= row < |filters|
      ensures KnownFilter(Filter(px, filters, stride, channels), stride, row)
    {
      FilterCell(px, filters, stride, channels, row, 0, |filters|, FilterIndex(stride, row));
      assert filters[row] in filters;
    }
  }

  /** The pixels of a filtered image, whatever filters its rows use. */
  lemma DecodeFiltered(h: Header, px: seq<byte>, filters: seq<byte>, channels: nat)
    requires Supported(h) && Channels(h.color) == Some(channels)
    requires |filters| == h.height && |px| == h.width * channels * h.height
    requires (forall f <- filters :: f <= 4) && |PixelSet(px, channels, 0)| >= 2
    ensures DecodeImage(h, Filter(px, filters, h.width * channels, channels)) == Ok(Canonical(h, channels, px))
  {
    var stride := h.width * channels;
    assert stride > 0;
    FilterIsKnown(px, filters, stride, channels);
    UnfilterInvertsFilter(px, filters, stride, channels, |px|);
    assert px[..|px|] == px;
  }

  /**
   Decoding an encoded image gives back its pixels: for every accepted size and colour
   type and every choice of row filters, for a raster that is not one flat colour, and
   for any compressed form that inflates to the filtered rows.
   */
  lemma DecodeEncoded(h: Header, px: seq<byte>, filters: seq<byte>, channels: nat,
                      compressed: seq<byte>, inflate: Inflate, crc: Checksum)
    requires Supported(h) && Channels(h.color) == Some(channels)
    requires |filters| == h.height && |px| == h.width * channels * h.height
    requires (forall f <- filters :: f <= 4) && |PixelSet(px, channels, 0)| >= 2
    requires compressed != [] && |compressed| < WORD && |Encode(h, compressed, crc)| <= MAX_FILE
    requires inflate(compressed) == Some(Filter(px, filters, h.width * channels, channels))
    ensures Decode(Encode(h, compressed, crc), inflate) == Ok(Canonical(h, channels, px))
  {
    EncodedParts(h, compressed, crc);
    DecodeFiltered(h, px, filters, channels);
  }

  /** The filtered image spells this raster, by these known filters, and the raster is not one flat colour. */
  predicate Spells(h: Header, channels: nat, filtered: seq<byte>, px: seq<byte>, filters: seq<byte>) {
    && 0 < h.width && 0 < channels
    && |filters| == h.height && |px| == h.width * channels * h.height
    && (forall f <- filters :: f <= 4) && |PixelSet(px, channels, 0)| >= 2
    && filtered == Filter(px, filters, h.width * channels, channels)
  }

  /**
   The decoder's image stage accepts nothing but filtered rasters of two or more distinct
   pixels, and returns the raster: each acceptable input has exactly one reading.
   */
  lemma DecodesIffSpelled(h: Header, channels: nat, filtered: seq<byte>, out: seq<byte>)
    requires Supported(h) && Channels(h.color) == Some(channels)
    ensures DecodeImage(h, filtered) == Ok(out) <==>
            exists px, filters :: Spells(h, channels, filtered, px, filters) && out == Canonical(h, channels, px)
  {
    var stride := h.width * channels;
    assert stride > 0;
    if DecodeImage(h, filtered) == Ok(out) {
      var px := Unfilter(filtered, stride, channels, stride * h.height);
      var filters := FiltersOf(filtered, stride, h.height);
      FilterInvertsUnfilter(filtered, stride, channels, h.height);
      forall f <- filters
        ensures f <= 4
      {
        var row :| 0 <= row < h.height && filters[row] == f;
        assert KnownFilter(filtered, stride, row);
      }
      assert Spells(h, channels, filtered, px, filters);
    }
    if px, filters :| Spells(h, channels, filtered, px, filters) && out == Canonical(h, channels, px) {
      DecodeFiltered(h, px, filters, channels);
    }
  }

  // ----- the fixture encoder

  datatype Rgb = Rgb(red: byte, green: byte, blue: byte)

  function RowBytes(row: seq<Rgb>): (b: seq<byte>)
    ensures |b| == 3 * |row|
  {
    if row == [] then []
    else
      var last := row[|row| - 1];
      RowBytes(row[..|row| - 1]) + [last.red, last.green, last.blue]
  }

  /** The pixels of an image, row after row. */
  function Raster(image: seq<seq<Rgb>>): seq<byte> {
    if image == [] then [] else Raster(image[..|image| - 1]) + RowBytes(image[|image| - 1])
  }

  /** The rows with a zero filter byte before each. */
  function Scanlines(image: seq<seq<Rgb>>): seq<byte> {
    if image == [] then [] else Scanlines(image[..|image| - 1]) + ([0] + RowBytes(image[|image| - 1]))
  }

  predicate IsImage(image: seq<seq<Rgb>>, width: nat) {
    forall row <- image :: |row| == width
  }

  /** The row loop of `fixture_bytes`. */
  method FixtureRows(image: seq<seq<Rgb>>) returns (rows: seq<byte>)
    ensures rows == Scanlines(image)
  {
    rows := [];
    var i := 0;
    while i < |image|
      invariant 0 <= i <= |image| && rows == Scanlines(image[..i])
    {
      var row := image[i];
      ghost var before := rows;
      rows := rows + [0];
      var j := 0;
      while j < |row|
        invariant 0 <= j <= |row| && rows == before + [0] + RowBytes(row[..j])
      {
        assert row[..j + 1][..j] == row[..j];
        rows := rows + [row[j].red, row[j].green, row[j].blue];
        j := j + 1;
      }
      assert row[..j] == row;
      assert image[..i + 1][..i] == image[..i];
      i := i + 1;
    }
    assert image[..i] == image;
  }

  lemma OneRowMore(stride: nat, n: nat)
    ensures stride * (n + 1) == stride * n + stride
    ensures FilteredSize(stride, n + 1) == FilteredSize(stride, n) + stride + 1
    ensures FilterIndex(stride, n) == FilteredSize(stride, n) && n * stride == stride * n
  {
  }

  lemma {:induction false} RasterSize(image: seq<seq<Rgb>>, width: nat, stride: nat)
    requires IsImage(image, width) && stride == 3 * width
    ensures |Raster(image)| == stride * |image|
    ensures |Scanlines(image)| == FilteredSize(stride, |image|)
  {
    if image == [] {
    } else {
      var front := image[..|image| - 1];
      assert image[|image| - 1] in image && forall row <- front :: row in image;
      RasterSize(front, width, stride);
      OneRowMore(stride, |front|);
    }
  }

  lemma InLast(r: seq<byte>, row: seq<byte>, column: nat)
    requires column < |row|
    ensures (r + row)[|r| + column] == row[column]
  {
  }

  lemma {:induction false} RasterRow(image: seq<seq<Rgb>>, width: nat, stride: nat, row: nat, column: nat,
                                     rowStart: nat)
    requires IsImage(image, width) && stride == 3 * width && row < |image| && column < stride
    requires rowStart == RowStart(stride, row)
    ensures |RowBytes(image[row])| == stride && rowStart + column < |Raster(image)|
    ensures Raster(image)[rowStart + column] == RowBytes(image[row])[column]
  {
    var front, last := image[..|image| - 1], image[|image| - 1];
    assert last in image && forall r <- front :: r in image;
    if row < |front| {
      RasterRow(front, width, stride, row, column, rowStart);
    } else {
      RasterSize(front, width, stride);
      OneRowMore(stride, row);
      InLast(Raster(front), RowBytes(last), column);
    }
  }

  function Zeros(n: nat): (z: seq<byte>)
    ensures |z| == n && forall f <- z :: f == 0
  {
    seq(n, _ => 0)
  }

  /** The raster bytes from `rowStart` on are the plain row. */
  predicate RowAt(px: seq<byte>, rowStart: nat, plain: seq<byte>) {
    rowStart + |plain| <= |px| && forall c :: 0 <= c < |plain| ==> px[rowStart + c] == plain[c]
  }

  lemma RasterRowAt(image: seq<seq<Rgb>>, width: nat, stride: nat, row: nat, rowStart: nat)
    requires IsImage(image, width) && stride == 3 * width && width > 0 && row < |image|
    requires rowStart == RowStart(stride, row)
    ensures |RowBytes(image[row])| == stride && RowAt(Raster(image), rowStart, RowBytes(image[row]))
  {
    assert image[row] in image;
    RasterRow(image, width, stride, row, stride - 1, rowStart);
    forall c | 0 <= c < stride
      ensures Raster(image)[rowStart + c] == RowBytes(image[row])[c]
    {
      RasterRow(image, width, stride, row, c, rowStart);
    }
  }

  lemma ZeroCells(px: seq<byte>, stride: nat, height: nat, row: nat, rowStart: nat, plain: seq<byte>)
    requires 0 < stride && |px| == stride * height && row < height && rowStart == RowStart(stride, row)
    requires |plain| == stride && RowAt(px, rowStart, plain)
    ensures forall cell :: 0 <= cell <= stride ==>
              FilteredCell(px, Zeros(height), stride, 3, row, cell) == if cell == 0 then 0 else plain[cell - 1]
  {
  }

  lemma RowByCells(px: seq<byte>, filters: seq<byte>, stride: nat, row: nat, plain: seq<byte>)
    requires 0 < stride && |px| == stride * |filters| && row < |filters| && |plain| == stride
    requires forall cell :: 0 <= cell <= stride ==>
               FilteredCell(px, filters, stride, 3, row, cell) == if cell == 0 then 0 else plain[cell - 1]
    ensures FilteredRow(px, filters, stride, 3, row) == [0] + plain
  {
  }

  /** Filter 0 leaves a row as it is. */
  lemma ZeroFilteredRow(image: seq<seq<Rgb>>, width: nat, stride: nat, row: nat)
    requires IsImage(image, width) && stride == 3 * width && width > 0 && row < |image|
    requires |Raster(image)| == stride * |image|
    ensures FilteredRow(Raster(image), Zeros(|image|), stride, 3, row) == [0] + RowBytes(image[row])
  {
    var px, plain, rowStart := Raster(image), RowBytes(image[row]), RowStart(stride, row);
    RasterRowAt(image, width, stride, row, rowStart);
    ZeroCells(px, stride, |image|, row, rowStart, plain);
    RowByCells(px, Zeros(|image|), stride, row, plain);
  }

  lemma {:induction false} RowsOfPrefix(image: seq<seq<Rgb>>, px: seq<byte>, filters: seq<byte>, stride: nat, n: nat)
    requires 0 < stride && |px| == stride * |filters| && n <= |filters| == |image|
    requires forall row :: 0 <= row < |image| ==> FilteredRow(px, filters, stride, 3, row) == [0] + RowBytes(image[row])
    ensures Scanlines(image[..n]) == FilteredRows(px, filters, stride, 3, n)
  {
    if n == 0 {
    } else {
      RowsOfPrefix(image, px, filters, stride, n - 1);
      assert image[..n][..n - 1] == image[..n - 1];
      assert FilteredRow(px, filters, stride, 3, n - 1) == [0] + RowBytes(image[n - 1]);
    }
  }

  /** The fixture rows are the raster filtered with filter 0 throughout. */
  lemma ScanlinesAreFiltered(image: seq<seq<Rgb>>, width: nat, stride: nat)
    requires IsImage(image, width) && stride == 3 * width && width > 0
    ensures |Raster(image)| == stride * |image|
    ensures Scanlines(image) == Filter(Raster(image), Zeros(|image|), stride, 3)
  {
    RasterSize(image, width, stride);
    forall row | 0 <= row < |image|
      ensures FilteredRow(Raster(image), Zeros(|image|), stride, 3, row) == [0] + RowBytes(image[row])
    {
      ZeroFilteredRow(image, width, stride, row);
    }
    RowsOfPrefix(image, Raster(image), Zeros(|image|), stride, |image|);
    assert image[..|image|] == image;
  }

  /** `fixture_bytes` for an RGB image of any size. */
  function FixtureBytes(image: seq<seq<Rgb>>, width: nat, deflate: Deflate, crc: Checksum): seq<byte>
    requires width < WORD && |image| < WORD && |deflate(Scanlines(image))| < WORD
  {
    Encode(FixtureHeader(width, |image|), deflate(Scanlines(image)), crc)
  }

  /** Eight-bit RGB, deflate, adaptive filtering, no interlace. */
  function FixtureHeader(width: nat, height: nat): Header {
    Header(width, height, 8, 2, 0, 0, 0)
  }

  /** A fixture image that is not one flat colour decodes to its own pixels, zlib being an inverse pair. */
  lemma FixtureRoundTrip(image: seq<seq<Rgb>>, width: nat, deflate: Deflate, inflate: Inflate, crc: Checksum)
    requires IsImage(image, width) && 32 <= width <= 8192 && 32 <= |image| <= 8192
    requires |PixelSet(Raster(image), 3, 0)| >= 2
    requires deflate(Scanlines(image)) != [] && inflate(deflate(Scanlines(image))) == Some(Scanlines(image))
    requires |deflate(Scanlines(image))| < WORD && |FixtureBytes(image, width, deflate, crc)| <= MAX_FILE
    ensures Decode(FixtureBytes(image, width, deflate, crc), inflate) ==
            Ok(Canonical(FixtureHeader(width, |image|), 3, Raster(image)))
  {
    ScanlinesAreFiltered(image, width, width * 3);
    DecodeEncoded(FixtureHeader(width, |image|), Raster(image), Zeros(|image|), 3,
                  deflate(Scanlines(image)), inflate, crc);
  }
}
