/**
 PNG scanline filters (section 6 of RFC 2083) and the in-place reconstruction of the
 offline smoke's decoder.

 A raster is a flat sequence of bytes; position `p` is in row `p / stride`, column
 `p % stride`.  A filtered image has one filter byte before each row.
 */
module PngFilters {

  type byte = x: int | 0 <= x < 256

  function Abs(x: int): nat {
    if x < 0 then -x else x
  }

  /** The neighbour nearest to `left + up - upperLeft`; ties go to left, then up. */
  function PaethPredictor(left: int, up: int, upperLeft: int): (r: int)
    ensures r == left || r == up || r == upperLeft
    ensures var candidate := left + up - upperLeft;
            && Abs(candidate - r) <= Abs(candidate - left)
            && Abs(candidate - r) <= Abs(candidate - up)
            && Abs(candidate - r) <= Abs(candidate - upperLeft)
            && (r != left ==> Abs(candidate - r) < Abs(candidate - left))
            && (r != left && r != up ==> Abs(candidate - r) < Abs(candidate - up))
  {
    var candidate := left + up - upperLeft;
    var leftDistance := Abs(candidate - left);
    var upDistance := Abs(candidate - up);
    var upperLeftDistance := Abs(candidate - upperLeft);
    if leftDistance <= upDistance && leftDistance <= upperLeftDistance then left
    else if upDistance <= upperLeftDistance then up
    else upperLeft
  }

  // ----- neighbours of a position

  lemma ColumnBound(stride: nat, p: nat)
    requires 0 < stride
    ensures p % stride <= p
    ensures p >= stride ==> p % stride <= p - stride
  {
  }

  function Left(px: seq<byte>, stride: nat, channels: nat, p: nat): byte
    requires 0 < stride && 0 < channels && p <= |px|
  {
    ColumnBound(stride, p);
    if p % stride >= channels then px[p - channels] else 0
  }

  function Up(px: seq<byte>, stride: nat, p: nat): byte
    requires 0 < stride && p <= |px|
  {
    if p >= stride then px[p - stride] else 0
  }

  function UpperLeft(px: seq<byte>, stride: nat, channels: nat, p: nat): byte
    requires 0 < stride && 0 < channels && p <= |px|
  {
    ColumnBound(stride, p);
    if p >= stride && p % stride >= channels then px[p - stride - channels] else 0
  }

  /** The predictor of each filter type; the types above 4 do not exist. */
  function PredictFrom(filter: byte, left: byte, up: byte, upperLeft: byte): int {
    match filter
    case 1 => left
    case 2 => up
    case 3 => (left + up) / 2
    case 4 => PaethPredictor(left, up, upperLeft)
    case _ => 0
  }

  function Predict(filter: byte, px: seq<byte>, stride: nat, channels: nat, p: nat): int
    requires 0 < stride && 0 < channels && p <= |px|
  {
    PredictFrom(filter, Left(px, stride, channels, p), Up(px, stride, p), UpperLeft(px, stride, channels, p))
  }

  /** Prediction looks only at bytes before the position. */
  lemma PredictFromPrefix(filter: byte, px: seq<byte>, stride: nat, channels: nat, p: nat)
    requires 0 < stride && 0 < channels && p <= |px|
    ensures Predict(filter, px, stride, channels, p) == Predict(filter, px[..p], stride, channels, p)
  {
    ColumnBound(stride, p);
    assert Left(px, stride, channels, p) == Left(px[..p], stride, channels, p);
    assert Up(px, stride, p) == Up(px[..p], stride, p);
    assert UpperLeft(px, stride, channels, p) == UpperLeft(px[..p], stride, channels, p);
  }

  // ----- where things are in a filtered image

  function FilterIndex(stride: nat, row: nat): nat {
    row * (stride + 1)
  }

  function RowStart(stride: nat, row: nat): nat {
    row * stride
  }

  function FilteredSize(stride: nat, height: nat): nat {
    (stride + 1) * height
  }

  lemma RowFits(stride: nat, height: nat, row: nat)
    requires row < height
    ensures FilterIndex(stride, row) + stride < FilteredSize(stride, height)
    ensures row * stride + stride <= stride * height
  {
    assert (row + 1) * (stride + 1) <= height * (stride + 1);
    assert (row + 1) * stride <= height * stride;
  }

  lemma RowBefore(stride: nat, q: nat, r: nat, row: nat, column: nat)
    requires q < row && r < stride
    ensures q * stride + r < row * stride + column
  {
    assert (q + 1) * stride <= row * stride;
  }

  lemma RowOf(stride: nat, row: nat, column: nat)
    requires column < stride
    ensures (row * stride + column) / stride == row && (row * stride + column) % stride == column
  {
    var p := row * stride + column;
    var q, r := p / stride, p % stride;
    assert p == q * stride + r;
    if q < row {
      RowBefore(stride, q, r, row, column);
    } else if row < q {
      RowBefore(stride, row, column, q, r);
    }
  }

  lemma PositionFits(stride: nat, height: nat, p: nat)
    requires 0 < stride && p < stride * height
    ensures p / stride < height
    ensures p == (p / stride) * stride + p % stride
  {
  }

  // ----- filtering and reconstruction

  /** Cell 0 of a filtered row is its filter byte, cell `i + 1` its filtered column `i`. */
  function FilteredCell(px: seq<byte>, filters: seq<byte>, stride: nat, channels: nat, row: nat, cell: nat): byte
    requires 0 < stride && 0 < channels && |px| == stride * |filters| && row < |filters| && cell <= stride
  {
    if cell == 0 then filters[row]
    else
      RowFits(stride, |filters|, row);
      var p := row * stride + cell - 1;
      (px[p] - Predict(filters[row], px, stride, channels, p)) % 256
  }

  function FilteredRow(px: seq<byte>, filters: seq<byte>, stride: nat, channels: nat, row: nat): seq<byte>
    requires 0 < stride && 0 < channels && |px| == stride * |filters| && row < |filters|
  {
    seq(stride + 1, cell requires 0 <= cell < stride + 1 => FilteredCell(px, filters, stride, channels, row, cell))
  }

  function FilteredRows(px: seq<byte>, filters: seq<byte>, stride: nat, channels: nat, n: nat): (rows: seq<byte>)
    requires 0 < stride && 0 < channels && |px| == stride * |filters| && n <= |filters|
    ensures |rows| == FilterIndex(stride, n)
  {
    if n == 0 then []
    else
      NextRow(stride, n - 1);
      FilteredRows(px, filters, stride, channels, n - 1) + FilteredRow(px, filters, stride, channels, n - 1)
  }

  /** The filtered form of a raster, with a filter chosen for each row. */
  function Filter(px: seq<byte>, filters: seq<byte>, stride: nat, channels: nat): (filtered: seq<byte>)
    requires 0 < stride && 0 < channels && |px| == stride * |filters|
    ensures |filtered| == FilteredSize(stride, |filters|)
  {
    assert FilterIndex(stride, |filters|) == FilteredSize(stride, |filters|);
    FilteredRows(px, filters, stride, channels, |filters|)
  }

  /** Bytes past the end read as zero; a decoder checks the length first. */
  function ByteAt(s: seq<byte>, i: nat): byte {
    if i < |s| then s[i] else 0
  }

  /** The next byte of the raster, given the raster before it. */
  function Reconstruct(filtered: seq<byte>, px: seq<byte>, stride: nat, channels: nat): byte
    requires 0 < stride && 0 < channels
  {
    var at := FilterIndex(stride, |px| / stride);
    (ByteAt(filtered, at + 1 + |px| % stride) + Predict(ByteAt(filtered, at), px, stride, channels, |px|)) % 256
  }

  /** The first `n` bytes of the raster a filtered image stands for. */
  function Unfilter(filtered: seq<byte>, stride: nat, channels: nat, n: nat): (px: seq<byte>)
    requires 0 < stride && 0 < channels
    ensures |px| == n
  {
    if n == 0 then []
    else
      var before := Unfilter(filtered, stride, channels, n - 1);
      before + [Reconstruct(filtered, before, stride, channels)]
  }

  lemma {:induction false} FilterCell(px: seq<byte>, filters: seq<byte>, stride: nat, channels: nat,
                                      row: nat, cell: nat, n: nat, at: nat)
    requires 0 < stride && 0 < channels && |px| == stride * |filters| && row < n <= |filters| && cell <= stride
    requires at == FilterIndex(stride, row)
    ensures at + cell < |FilteredRows(px, filters, stride, channels, n)|
    ensures FilteredRows(px, filters, stride, channels, n)[at + cell] ==
            FilteredCell(px, filters, stride, channels, row, cell)
  {
    if row < n - 1 {
      FilterCell(px, filters, stride, channels, row, cell, n - 1, at);
    }
  }

  lemma FilterAt(px: seq<byte>, filters: seq<byte>, stride: nat, channels: nat, p: nat)
    requires 0 < stride && 0 < channels && |px| == stride * |filters| && p < |px|
    ensures var row, at := p / stride, FilterIndex(stride, p / stride);
            && row < |filters| && at + 1 + p % stride < FilteredSize(stride, |filters|)
            && Filter(px, filters, stride, channels)[at] == filters[row]
            && Filter(px, filters, stride, channels)[at + 1 + p % stride] ==
               (px[p] - Predict(filters[row], px, stride, channels, p)) % 256
  {
    PositionFits(stride, |filters|, p);
    var at := FilterIndex(stride, p / stride);
    FilterCell(px, filters, stride, channels, p / stride, 0, |filters|, at);
    FilterCell(px, filters, stride, channels, p / stride, 1 + p % stride, |filters|, at);
  }

  lemma UndoModulo(x: byte, prediction: int)
    ensures ((x - prediction) % 256 + prediction) % 256 == x
  {
  }

  lemma ReconstructInverts(px: seq<byte>, filters: seq<byte>, stride: nat, channels: nat, p: nat)
    requires 0 < stride && 0 < channels && |px| == stride * |filters| && p < |px|
    ensures Reconstruct(Filter(px, filters, stride, channels), px[..p], stride, channels) == px[p]
  {
    FilterAt(px, filters, stride, channels, p);
    PredictFromPrefix(filters[p / stride], px, stride, channels, p);
    UndoModulo(px[p], Predict(filters[p / stride], px, stride, channels, p));
  }

  /** Reconstruction undoes filtering for every size, channel count and choice of filters. */
  lemma {:induction false} UnfilterInvertsFilter(px: seq<byte>, filters: seq<byte>, stride: nat, channels: nat, n: nat)
    requires 0 < stride && 0 < channels && |px| == stride * |filters| && n <= |px|
    ensures Unfilter(Filter(px, filters, stride, channels), stride, channels, n) == px[..n]
  {
    if n == 0 {
    } else {
      UnfilterInvertsFilter(px, filters, stride, channels, n - 1);
      ReconstructInverts(px, filters, stride, channels, n - 1);
      assert px[..n] == px[..n - 1] + [px[n - 1]];
    }
  }

  // ----- and filtering undoes reconstruction

  /** The filter bytes of a filtered image. */
  function FiltersOf(filtered: seq<byte>, stride: nat, height: nat): (filters: seq<byte>)
    ensures |filters| == height
  {
    seq(height, row requires 0 <= row < height => ByteAt(filtered, FilterIndex(stride, row)))
  }

  lemma {:induction false} UnfilterPrefix(filtered: seq<byte>, stride: nat, channels: nat, p: nat, n: nat)
    requires 0 < stride && 0 < channels && p < n
    ensures Unfilter(filtered, stride, channels, n)[..p] == Unfilter(filtered, stride, channels, p)
    ensures Unfilter(filtered, stride, channels, n)[p] ==
            Reconstruct(filtered, Unfilter(filtered, stride, channels, p), stride, channels)
  {
    var before := Unfilter(filtered, stride, channels, n - 1);
    if p < n - 1 {
      UnfilterPrefix(filtered, stride, channels, p, n - 1);
      assert Unfilter(filtered, stride, channels, n)[..p] == before[..p];
    } else {
      assert Unfilter(filtered, stride, channels, n)[..p] == before;
    }
  }

  lemma RedoModulo(x: byte, prediction: int)
    ensures ((x + prediction) % 256 - prediction) % 256 == x
  {
  }

  /** A reconstructed byte, less its prediction, is the filtered byte again. */
  lemma ColumnRestored(filtered: seq<byte>, px: seq<byte>, stride: nat, channels: nat,
                       row: nat, column: nat, at: nat, p: nat)
    requires column < stride && 0 < channels && p == row * stride + column < |px| && at == FilterIndex(stride, row)
    requires at + 1 + column < |filtered| && px == Unfilter(filtered, stride, channels, |px|)
    ensures (px[p] - Predict(filtered[at], px, stride, channels, p)) % 256 == filtered[at + 1 + column]
  {
    UnfilterPrefix(filtered, stride, channels, p, |px|);
    var prediction := Predict(filtered[at], px[..p], stride, channels, p);
    assert px[p] == (filtered[at + 1 + column] + prediction) % 256 by {
      Reconstructed(filtered, px[..p], stride, channels, row, column);
    }
    PredictFromPrefix(filtered[at], px, stride, channels, p);
    RedoModulo(filtered[at + 1 + column], prediction);
  }

  lemma FilterByteOf(filtered: seq<byte>, stride: nat, height: nat, row: nat, at: nat)
    requires row < height && at == FilterIndex(stride, row) && at < |filtered|
    ensures FiltersOf(filtered, stride, height)[row] == filtered[at]
  {
  }

  lemma ColumnCell(px: seq<byte>, filters: seq<byte>, stride: nat, channels: nat, row: nat, cell: nat, p: nat)
    requires 0 < stride && 0 < channels && |px| == stride * |filters| && row < |filters| && 0 < cell <= stride
    requires p == row * stride + cell - 1
    ensures p < |px|
    ensures FilteredCell(px, filters, stride, channels, row, cell) ==
            (px[p] - Predict(filters[row], px, stride, channels, p)) % 256
  {
    RowFits(stride, |filters|, row);
  }

  lemma CellRestored(filtered: seq<byte>, px: seq<byte>, stride: nat, channels: nat, height: nat,
                     row: nat, cell: nat, at: nat)
    requires 0 < stride && 0 < channels && row < height && cell <= stride && at == FilterIndex(stride, row)
    requires at + stride < |filtered| && |px| == stride * height
    requires px == Unfilter(filtered, stride, channels, |px|)
    ensures FilteredCell(px, FiltersOf(filtered, stride, height), stride, channels, row, cell) == filtered[at + cell]
  {
    FilterByteOf(filtered, stride, height, row, at);
    if cell > 0 {
      var p := row * stride + cell - 1;
      ColumnCell(px, FiltersOf(filtered, stride, height), stride, channels, row, cell, p);
      ColumnRestored(filtered, px, stride, channels, row, cell - 1, at, p);
    }
  }

  lemma ByteRestored(filtered: seq<byte>, px: seq<byte>, stride: nat, channels: nat, height: nat, row: nat, cell: nat,
                     at: nat)
    requires 0 < stride && 0 < channels && row < height && cell <= stride && at == FilterIndex(stride, row)
    requires |filtered| == FilteredSize(stride, height) && |px| == stride * height
    requires px == Unfilter(filtered, stride, channels, |px|)
    ensures at + cell < |filtered|
    ensures Filter(px, FiltersOf(filtered, stride, height), stride, channels)[at + cell] == filtered[at + cell]
  {
    RowFits(stride, height, row);
    FilterCell(px, FiltersOf(filtered, stride, height), stride, channels, row, cell, height, at);
    CellRestored(filtered, px, stride, channels, height, row, cell, at);
  }

  lemma CellOf(stride: nat, height: nat, k: nat) returns (row: nat, cell: nat)
    requires k < FilteredSize(stride, height)
    ensures row < height && cell <= stride && k == FilterIndex(stride, row) + cell
  {
    PositionFits(stride + 1, height, k);
    row, cell := k / (stride + 1), k % (stride + 1);
  }

  /** Every filtered image is the filtered form of the raster it stands for, under its own filter bytes. */
  lemma FilterInvertsUnfilter(filtered: seq<byte>, stride: nat, channels: nat, height: nat)
    requires 0 < stride && 0 < channels && |filtered| == FilteredSize(stride, height)
    ensures Filter(Unfilter(filtered, stride, channels, stride * height), FiltersOf(filtered, stride, height),
            stride, channels) ==
            filtered
  {
    var px := Unfilter(filtered, stride, channels, stride * height);
    var again := Filter(px, FiltersOf(filtered, stride, height), stride, channels);
    forall k | 0 <= k < |filtered|
      ensures again[k] == filtered[k]
    {
      var row, cell := CellOf(stride, height, k);
      ByteRestored(filtered, px, stride, channels, height, row, cell, FilterIndex(stride, row));
    }
  }

  predicate FiltersKnown(filtered: seq<byte>, stride: nat, height: nat) {
    forall row :: 0 <= row < height ==> KnownFilter(filtered, stride, row)
  }

  predicate KnownFilter(filtered: seq<byte>, stride: nat, row: nat) {
    ByteAt(filtered, FilterIndex(stride, row)) <= 4
  }

  /** The neighbours the decoder reads from the buffer are those of the finished prefix. */
  lemma Neighbours(px: seq<byte>, stride: nat, channels: nat, row: nat, column: nat)
    requires column < stride && 0 < channels && |px| == row * stride + column
    ensures column >= channels ==> |px| >= channels && Left(px, stride, channels, |px|) == px[|px| - channels]
    ensures column < channels ==> Left(px, stride, channels, |px|) == 0
    ensures row > 0 ==> |px| >= stride && Up(px, stride, |px|) == px[|px| - stride]
    ensures row == 0 ==> Up(px, stride, |px|) == 0
    ensures row > 0 && column >= channels ==>
              |px| >= stride + channels && UpperLeft(px, stride, channels, |px|) == px[|px| - stride - channels]
    ensures row == 0 || column < channels ==> UpperLeft(px, stride, channels, |px|) == 0
  {
    RowOf(stride, row, column);
    ColumnBound(stride, |px|);
    if row > 0 {
      assert row * stride >= stride;
    }
  }

  /**
   What section 6 of RFC 2083 says of a reconstructed byte: sum modulo 256 with nothing, the
   left neighbour, the upper one, the floor of their mean, or whichever neighbour is
   nearest to `left + up - upperLeft`, ties going to left and then up.
   */
  predicate Rebuilds(filter: byte, encoded: byte, left: byte, up: byte, upperLeft: byte, value: byte) {
    match filter
    case 0 => value == encoded
    case 1 => value == (encoded + left) % 256
    case 2 => value == (encoded + up) % 256
    case 3 => exists mean :: 0 <= mean < 256 && 2 * mean <= left + up < 2 * mean + 2 && value == (encoded + mean) % 256
    case 4 => exists n :: n in [left, up, upperLeft] && Nearest(n, left, up, upperLeft) && value == (encoded + n) % 256
    case _ => false
  }

  predicate Nearest(n: int, left: int, up: int, upperLeft: int) {
    var target := left + up - upperLeft;
    var distance := Abs(target - n);
    && distance <= Abs(target - left) && distance <= Abs(target - up) && distance <= Abs(target - upperLeft)
    && (n != left ==> distance < Abs(target - left))
    && (n != left && n != up ==> distance < Abs(target - up))
  }

  lemma PredictionRebuilds(filter: byte, encoded: byte, left: byte, up: byte, upperLeft: byte)
    requires filter <= 4
    ensures Rebuilds(filter, encoded, left, up, upperLeft, (encoded + PredictFrom(filter, left, up, upperLeft)) % 256)
  {
    if filter == 3 {
      assert 2 * ((left + up) / 2) <= left + up < 2 * ((left + up) / 2) + 2;
    } else if filter == 4 {
      var n := PaethPredictor(left, up, upperLeft);
      assert n in [left, up, upperLeft] && Nearest(n, left, up, upperLeft);
    }
  }

  /** The byte `k` places before position `p`. */
  function BytesBefore(px: seq<byte>, p: nat, k: nat): byte {
    if k <= p < |px| then px[p - k] else 0
  }

  /**
   The raster a filtered image stands for, byte by byte: each is rebuilt, as its row's
   filter byte says, from the raster bytes one pixel to the left, one row up, and both,
   which count as zero outside the image.
   */
  lemma UnfilteredByte(filtered: seq<byte>, px: seq<byte>, stride: nat, channels: nat,
                       row: nat, column: nat, at: nat, p: nat)
    requires 0 < channels && column < stride && p == row * stride + column < |px|
    requires at == row * (stride + 1) && at + 1 + column < |filtered| && filtered[at] <= 4
    requires px == Unfilter(filtered, stride, channels, |px|)
    ensures Rebuilds(filtered[at], filtered[at + 1 + column],
                     if column >= channels then BytesBefore(px, p, channels) else 0,
                     if row > 0 then BytesBefore(px, p, stride) else 0,
                     if row > 0 && column >= channels then BytesBefore(px, p, stride + channels) else 0,
                     px[p])
  {
    UnfilterPrefix(filtered, stride, channels, p, |px|);
    var before := px[..p];
    Reconstructed(filtered, before, stride, channels, row, column);
    NeighbourBytes(px, stride, channels, row, column, p);
    PredictionRebuilds(filtered[at], filtered[at + 1 + column], Left(before, stride, channels, p),
                       Up(before, stride, p), UpperLeft(before, stride, channels, p));
  }

  lemma NeighbourBytes(px: seq<byte>, stride: nat, channels: nat, row: nat, column: nat, p: nat)
    requires 0 < channels && column < stride && p == row * stride + column < |px|
    ensures Left(px[..p], stride, channels, p) == if column >= channels then BytesBefore(px, p, channels) else 0
    ensures Up(px[..p], stride, p) == if row > 0 then BytesBefore(px, p, stride) else 0
    ensures UpperLeft(px[..p], stride, channels, p) ==
            if row > 0 && column >= channels then BytesBefore(px, p, stride + channels) else 0
  {
    Neighbours(px[..p], stride, channels, row, column);
  }

  /** The innermost step, by cases on the filter type. */
  method UnfilterByte(encoded: byte, filter: byte, left: byte, up: byte, upperLeft: byte) returns (value: byte)
    requires filter <= 4
    ensures value == (encoded + PredictFrom(filter, left, up, upperLeft)) % 256
    ensures Rebuilds(filter, encoded, left, up, upperLeft, value)
  {
    PredictionRebuilds(filter, encoded, left, up, upperLeft);
    if filter == 0 {
      value := encoded;
    } else if filter == 1 {
      value := (encoded + left) % 256;
    } else if filter == 2 {
      value := (encoded + up) % 256;
    } else if filter == 3 {
      value := (encoded + (left + up) / 2) % 256;
    } else {
      value := (encoded + PaethPredictor(left, up, upperLeft)) % 256;
    }
  }

  lemma Reconstructed(filtered: seq<byte>, px: seq<byte>, stride: nat, channels: nat, row: nat, column: nat)
    requires column < stride && 0 < channels && |px| == row * stride + column
    ensures var at := FilterIndex(stride, row);
            Reconstruct(filtered, px, stride, channels) ==
            (ByteAt(filtered, at + 1 + column) + Predict(ByteAt(filtered, at), px, stride, channels, |px|)) % 256
  {
    RowOf(stride, row, column);
  }

  lemma ReconstructFrom(filtered: seq<byte>, px: seq<byte>, stride: nat, channels: nat, row: nat, column: nat, at: nat,
                        left: byte, up: byte, upperLeft: byte)
    requires column < stride && 0 < channels && |px| == row * stride + column
    requires at == FilterIndex(stride, row) && at + 1 + column < |filtered|
    requires left == Left(px, stride, channels, |px|) && up == Up(px, stride, |px|)
    requires upperLeft == UpperLeft(px, stride, channels, |px|)
    ensures Reconstruct(filtered, px, stride, channels) ==
            (filtered[at + 1 + column] + PredictFrom(filtered[at], left, up, upperLeft)) % 256
  {
    Reconstructed(filtered, px, stride, channels, row, column);
  }

  /** The byte of one column of a row, from the finished prefix `pixels[..p]`. */
  method ReconstructColumn(filtered: seq<byte>, pixels: array<byte>, stride: nat, channels: nat,
                           row: nat, column: nat, at: nat, p: nat) returns (value: byte)
    requires column < stride && 0 < channels && p == row * stride + column < pixels.Length
    requires at == FilterIndex(stride, row) && at + 1 + column < |filtered| && filtered[at] <= 4
    ensures value == Reconstruct(filtered, pixels[..p], stride, channels)
  {
    ghost var px := pixels[..p];
    Neighbours(px, stride, channels, row, column);
    var left := if column >= channels then pixels[p - channels] else 0;
    var up := if row > 0 then pixels[p - stride] else 0;
    var upperLeft := if row > 0 && column >= channels then pixels[p - stride - channels] else 0;
    ReconstructFrom(filtered, px, stride, channels, row, column, at, left, up, upperLeft);
    value := UnfilterByte(filtered[at + 1 + column], filtered[at], left, up, upperLeft);
  }

  /** The raster a filtered image stands for. */
  ghost predicate IsRaster(raster: seq<byte>, filtered: seq<byte>, stride: nat, channels: nat)
    requires 0 < stride && 0 < channels
  {
    raster == Unfilter(filtered, stride, channels, |raster|)
  }

  method UnfilterColumn(filtered: seq<byte>, pixels: array<byte>, stride: nat, channels: nat,
                        row: nat, column: nat, at: nat, p: nat, ghost raster: seq<byte>)
    requires column < stride && 0 < channels && p == row * stride + column < pixels.Length
    requires at == FilterIndex(stride, row) && at + 1 + column < |filtered| && filtered[at] <= 4
    requires |raster| == pixels.Length && IsRaster(raster, filtered, stride, channels) && pixels[..p] == raster[..p]
    modifies pixels
    ensures pixels[..p + 1] == raster[..p + 1]
  {
    ghost var px := pixels[..p];
    var value := ReconstructColumn(filtered, pixels, stride, channels, row, column, at, p);
    UnfilterPrefix(filtered, stride, channels, p, |raster|);
    pixels[p] := value;
    assert pixels[..p + 1] == px + [value];
  }

  /** Where row `row` starts in the two buffers, as the decoder counts it. */
  predicate Located(stride: nat, row: nat, at: nat, rowStart: nat) {
    if row == 0 then at == 0 && rowStart == 0
    else at > stride && rowStart >= stride && Located(stride, row - 1, at - stride - 1, rowStart - stride)
  }

  lemma {:induction false} LocatedIs(stride: nat, row: nat, at: nat, rowStart: nat)
    requires Located(stride, row, at, rowStart)
    ensures at == FilterIndex(stride, row) && rowStart == row * stride
  {
    if row == 0 {
    } else {
      LocatedIs(stride, row - 1, at - stride - 1, rowStart - stride);
      NextRow(stride, row - 1);
    }
  }

  method UnfilterRow(filtered: seq<byte>, pixels: array<byte>, stride: nat, channels: nat,
                     row: nat, at: nat, rowStart: nat, ghost raster: seq<byte>) returns (ok: bool)
    requires 0 < stride && 0 < channels && Located(stride, row, at, rowStart)
    requires rowStart + stride <= pixels.Length == |raster| && at + stride < |filtered|
    requires IsRaster(raster, filtered, stride, channels) && pixels[..rowStart] == raster[..rowStart]
    modifies pixels
    ensures ok <==> filtered[at] <= 4
    ensures ok ==> pixels[..rowStart + stride] == raster[..rowStart + stride]
  {
    var column := 0;
    while column < stride
      invariant 0 <= column <= stride
      invariant column > 0 ==> filtered[at] <= 4
      invariant pixels[..rowStart + column] == raster[..rowStart + column]
    {
      if filtered[at] > 4 {
        return false;
      }
      LocatedIs(stride, row, at, rowStart);
      UnfilterColumn(filtered, pixels, stride, channels, row, column, at, rowStart + column, raster);
      column := column + 1;
    }
    return true;
  }

  /** Where the row is in the two buffers, and that it is inside them. */
  predicate RowInside(stride: nat, row: nat, filteredSize: nat, size: nat) {
    FilterIndex(stride, row) + stride < filteredSize && row * stride + stride <= size
  }

  lemma NextRow(stride: nat, row: nat)
    ensures (row + 1) * stride == row * stride + stride
    ensures FilterIndex(stride, row + 1) == FilterIndex(stride, row) + 1 + stride
  {
  }

  method UnfilterRows(filtered: seq<byte>, pixels: array<byte>, stride: nat, channels: nat, height: nat,
                      ghost raster: seq<byte>)
    returns (ok: bool)
    requires 0 < stride && 0 < channels && |raster| == pixels.Length && IsRaster(raster, filtered, stride, channels)
    requires forall row :: 0 <= row < height ==> RowInside(stride, row, |filtered|, pixels.Length)
    modifies pixels
    ensures ok <==> FiltersKnown(filtered, stride, height)
    ensures ok && height * stride <= pixels.Length ==> pixels[..height * stride] == raster[..height * stride]
  {
    var sourceOffset, rowStart, row := 0, 0, 0;
    while row < height
      invariant 0 <= row <= height && Located(stride, row, sourceOffset, rowStart)
      invariant rowStart <= pixels.Length
      invariant forall r :: 0 <= r < row ==> KnownFilter(filtered, stride, r)
      invariant pixels[..rowStart] == raster[..rowStart]
    {
      LocatedIs(stride, row, sourceOffset, rowStart);
      assert RowInside(stride, row, |filtered|, pixels.Length);
      ok := UnfilterRow(filtered, pixels, stride, channels, row, sourceOffset, rowStart, raster);
      assert ok <==> KnownFilter(filtered, stride, row);
      if !ok {
        return;
      }
      row, rowStart, sourceOffset := row + 1, rowStart + stride, sourceOffset + 1 + stride;
    }
    LocatedIs(stride, row, sourceOffset, rowStart);
    return true;
  }

  /**
   The decoder's nested loops, in place.  Every index is in bounds; the loops fail
   exactly on an unknown filter byte and otherwise leave the raster the filtered image
   stands for.
   */
  method UnfilterInPlace(filtered: seq<byte>, pixels: array<byte>, stride: nat, channels: nat, height: nat)
    returns (ok: bool)
    requires 0 < stride && 0 < channels
    requires |filtered| == FilteredSize(stride, height) && pixels.Length == stride * height
    modifies pixels
    ensures ok <==> FiltersKnown(filtered, stride, height)
    ensures ok ==> pixels[..] == Unfilter(filtered, stride, channels, pixels.Length)
  {
    forall row | 0 <= row < height
      ensures RowInside(stride, row, |filtered|, pixels.Length)
    {
      RowFits(stride, height, row);
    }
    assert height * stride == pixels.Length;
    ghost var raster := Unfilter(filtered, stride, channels, pixels.Length);
    ok := UnfilterRows(filtered, pixels, stride, channels, height, raster);
    assert pixels[..] == pixels[..pixels.Length] && raster == raster[..pixels.Length];
  }
}
