/**
 Searching a stream in pieces: the bounded capture with its sentinel scan, and the
 private-key scan of bundle files.
 */
module StreamScan {

  type Byte = b: int | 0 <= b < 256
  type Bytes = seq<Byte>

  predicate OccursAt(pattern: Bytes, data: Bytes, i: nat) {
    i + |pattern| <= |data| && data[i..i + |pattern|] == pattern
  }

  predicate Occurs(pattern: Bytes, data: Bytes) {
    exists i :: 0 <= i <= |data| && OccursAt(pattern, data, i)
  }

  predicate AnyOccurs(patterns: seq<Bytes>, data: Bytes) {
    exists p <- patterns :: Occurs(p, data)
  }

  function Concat(chunks: seq<Bytes>): Bytes {
    if chunks == [] then [] else Concat(chunks[..|chunks| - 1]) + chunks[|chunks| - 1]
  }

  /** Python's `data[-k:]`: the last `k` bytes, and everything when `k` is zero or too large. */
  function LastBytes(data: Bytes, k: nat): Bytes {
    if k == 0 || k >= |data| then data else data[|data| - k..]
  }

  predicate Suffix(tail: Bytes, data: Bytes) {
    |tail| <= |data| && data[|data| - |tail|..] == tail
  }

  /** The tail keeps enough that no pattern can straddle it unseen. */
  predicate GoodTail(tail: Bytes, data: Bytes, longest: nat) {
    Suffix(tail, data) && (|tail| == |data| || |tail| + 1 >= longest)
  }

  lemma OccursInSuffix(pattern: Bytes, tail: Bytes, data: Bytes)
    requires Suffix(tail, data) && Occurs(pattern, tail)
    ensures Occurs(pattern, data)
  {
    var i :| 0 <= i <= |tail| && OccursAt(pattern, tail, i);
    var shift := |data| - |tail|;
    assert data[shift + i..shift + i + |pattern|] == data[shift..][i..i + |pattern|];
    assert OccursAt(pattern, data, shift + i);
  }

  lemma OccursInPrefix(pattern: Bytes, data: Bytes, more: Bytes)
    requires Occurs(pattern, data)
    ensures Occurs(pattern, data + more)
  {
    var i :| 0 <= i <= |data| && OccursAt(pattern, data, i);
    assert (data + more)[i..i + |pattern|] == data[i..i + |pattern|];
    assert OccursAt(pattern, data + more, i);
  }

  /** An occurrence in the longer data was there before, or lies in the tail and the new piece. */
  lemma OccursSplit(pattern: Bytes, data: Bytes, tail: Bytes, more: Bytes, longest: nat)
    requires GoodTail(tail, data, longest) && |pattern| <= longest
    requires Occurs(pattern, data + more)
    ensures Occurs(pattern, data) || Occurs(pattern, tail + more)
  {
    var whole := data + more;
    var i :| 0 <= i <= |whole| && OccursAt(pattern, whole, i);
    var shift := |data| - |tail|;
    if i + |pattern| <= |data| {
      assert data[i..i + |pattern|] == whole[i..i + |pattern|];
      assert OccursAt(pattern, data, i);
    } else {
      assert i >= shift;
      assert tail + more == whole[shift..];
      assert whole[shift..][i - shift..i - shift + |pattern|] == whole[i..i + |pattern|];
      assert OccursAt(pattern, tail + more, i - shift);
    }
  }

  /** One step of a tail-carrying scan agrees with searching everything read so far. */
  lemma ScanStep(patterns: seq<Bytes>, data: Bytes, tail: Bytes, more: Bytes, longest: nat)
    requires GoodTail(tail, data, longest) && forall p <- patterns :: |p| <= longest
    ensures AnyOccurs(patterns, data + more) <==> AnyOccurs(patterns, data) || AnyOccurs(patterns, tail + more)
  {
    assert Suffix(tail + more, data + more) by {
      assert (data + more)[|data| - |tail|..] == tail + more;
    }
    if p :| p in patterns && Occurs(p, data + more) {
      OccursSplit(p, data, tail, more, longest);
    }
    if p :| p in patterns && Occurs(p, data) {
      OccursInPrefix(p, data, more);
    }
    if p :| p in patterns && Occurs(p, tail + more) {
      OccursInSuffix(p, tail + more, data + more);
    }
  }

  lemma TailStep(data: Bytes, tail: Bytes, more: Bytes, longest: nat, k: nat)
    requires GoodTail(tail, data, longest) && k + 1 >= longest
    ensures GoodTail(LastBytes(tail + more, k), data + more, longest)
  {
  }

  method Longest(patterns: seq<Bytes>) returns (longest: nat)
    ensures forall p <- patterns :: |p| <= longest
    ensures patterns != [] ==> exists p <- patterns :: |p| == longest
  {
    longest := 0;
    var i := 0;
    while i < |patterns|
      invariant 0 <= i <= |patterns|
      invariant forall j :: 0 <= j < i ==> |patterns[j]| <= longest
      invariant i > 0 ==> exists j :: 0 <= j < i && |patterns[j]| == longest
    {
      if i == 0 || |patterns[i]| > longest {
        longest := |patterns[i]|;
      }
      i := i + 1;
    }
  }

  datatype Capture = Capture(captured: Bytes, total: nat, truncated: bool)

  /** The capture of everything read so far. */
  predicate Captures(c: Capture, data: Bytes, limit: nat) {
    && c.total == |data|
    && (c.truncated <==> |data| > limit)
    && c.captured == data[..if |data| < limit then |data| else limit]
  }

  method CaptureChunk(c: Capture, chunk: Bytes, limit: nat, ghost data: Bytes) returns (c': Capture)
    requires Captures(c, data, limit)
    ensures Captures(c', data + chunk, limit)
  {
    var available := limit - |c.captured|;
    var captured := c.captured;
    if available > 0 {
      captured := captured + (if available < |chunk| then chunk[..available] else chunk);
    }
    c' := Capture(captured, c.total + |chunk|, c.truncated || |chunk| > available);
  }

  method ScanChunk(tail: Bytes, leaked: bool, chunk: Bytes, variants: seq<Bytes>, longest: nat, ghost data: Bytes)
    returns (tail': Bytes, leaked': bool)
    requires GoodTail(tail, data, longest) && forall v <- variants :: 0 < |v| <= longest
    requires leaked <==> AnyOccurs(variants, data)
    ensures GoodTail(tail', data + chunk, longest)
    ensures leaked' <==> AnyOccurs(variants, data + chunk)
  {
    var scanned := tail + chunk;
    leaked' := leaked || AnyOccurs(variants, scanned);
    ScanStep(variants, data, tail, chunk, longest);
    var keep := if longest > 0 then longest - 1 else 0;
    TailStep(data, tail, chunk, longest, keep);
    tail' := LastBytes(scanned, keep);
  }

  lemma NothingInNothing(patterns: seq<Bytes>)
    requires forall p <- patterns :: 0 < |p|
    ensures !AnyOccurs(patterns, [])
  {
  }

  /**
   The read loop of `run_bounded_command` over any chunking of the output: a leak is
   reported exactly when a sentinel variant occurs in the whole output, the capture is
   the longest prefix within the limit, and truncation is reported exactly when
   something was left out.
   */
  method RunBoundedCapture(chunks: seq<Bytes>, variants: seq<Bytes>, limit: nat) returns (c: Capture, leaked: bool)
    requires forall v <- variants :: 0 < |v|
    ensures leaked <==> AnyOccurs(variants, Concat(chunks))
    ensures c.total == |Concat(chunks)| && (c.truncated <==> c.total > limit)
    ensures c.captured == Concat(chunks)[..if c.total < limit then c.total else limit]
  {
    var longest := Longest(variants);
    var tail: Bytes := [];
    ghost var data: Bytes := [];
    c, leaked := Capture([], 0, false), false;
    NothingInNothing(variants);
    var i := 0;
    while i < |chunks|
      invariant 0 <= i <= |chunks|
      invariant data == Concat(chunks[..i])
      invariant Captures(c, data, limit)
      invariant GoodTail(tail, data, longest)
      invariant leaked <==> AnyOccurs(variants, data)
    {
      c := CaptureChunk(c, chunks[i], limit, data);
      tail, leaked := ScanChunk(tail, leaked, chunks[i], variants, longest, data);
      ConcatStep(chunks, i);
      data := data + chunks[i];
      i := i + 1;
    }
    assert chunks[..i] == chunks;
  }

  lemma ConcatStep(chunks: seq<Bytes>, i: nat)
    requires i < |chunks|
    ensures Concat(chunks[..i + 1]) == Concat(chunks[..i]) + chunks[i]
  {
    assert chunks[..i + 1][..i] == chunks[..i];
  }

  /** The overlap kept between two blocks of a bundle file. */
  const OVERLAP: nat := 64

  /** One block: a marker completed by it, or the overlap to carry on. */
  method ScanBlock(overlap: Bytes, block: Bytes, markers: seq<Bytes>, ghost data: Bytes)
    returns (found: bool, overlap': Bytes)
    requires forall m <- markers :: 0 < |m| <= OVERLAP + 1
    requires GoodTail(overlap, data, OVERLAP + 1) && !AnyOccurs(markers, data)
    ensures found <==> AnyOccurs(markers, data + block)
    ensures GoodTail(overlap', data + block, OVERLAP + 1)
  {
    var scanned := overlap + block;
    ScanStep(markers, data, overlap, block, OVERLAP + 1);
    TailStep(data, overlap, block, OVERLAP + 1, OVERLAP);
    return AnyOccurs(markers, scanned), LastBytes(scanned, OVERLAP);
  }

  /** The block loop of the bundle scan, which stops after the first block that completes a marker. */
  method ScanBlocks(blocks: seq<Bytes>, markers: seq<Bytes>) returns (found: bool, n: nat)
    requires forall m <- markers :: 0 < |m| <= OVERLAP + 1
    ensures n <= |blocks| && (found || n == |blocks|)
    ensures found <==> AnyOccurs(markers, Concat(blocks[..n]))
  {
    var overlap: Bytes := [];
    ghost var data: Bytes := [];
    NothingInNothing(markers);
    found, n := false, 0;
    while n < |blocks| && !found
      invariant 0 <= n <= |blocks|
      invariant data == Concat(blocks[..n])
      invariant GoodTail(overlap, data, OVERLAP + 1)
      invariant found <==> AnyOccurs(markers, data)
    {
      found, overlap := ScanBlock(overlap, blocks[n], markers, data);
      ConcatStep(blocks, n);
      data := data + blocks[n];
      n := n + 1;
    }
  }

  /** A bundle file is refused exactly when a marker occurs anywhere in it. */
  method MarkerInBlocks(blocks: seq<Bytes>, markers: seq<Bytes>) returns (found: bool)
    requires forall m <- markers :: 0 < |m| <= OVERLAP + 1
    ensures found <==> AnyOccurs(markers, Concat(blocks))
  {
    var n;
    found, n := ScanBlocks(blocks, markers);
    if found {
      RestKeepsMarkers(markers, blocks, n);
    } else {
      assert blocks[..n] == blocks;
    }
  }

  lemma {:induction false} RestKeepsMarkers(markers: seq<Bytes>, blocks: seq<Bytes>, i: nat)
    requires i <= |blocks| && AnyOccurs(markers, Concat(blocks[..i]))
    ensures AnyOccurs(markers, Concat(blocks))
    decreases |blocks| - i
  {
    if i == |blocks| {
      assert blocks[..i] == blocks;
    } else {
      var p :| p in markers && Occurs(p, Concat(blocks[..i]));
      ConcatStep(blocks, i);
      OccursInPrefix(p, Concat(blocks[..i]), blocks[i]);
      RestKeepsMarkers(markers, blocks, i + 1);
    }
  }
}
