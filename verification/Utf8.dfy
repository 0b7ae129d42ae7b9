/** UTF-8-safe splitting of output bytes (apps/bridge/src/domain/text.rs), against the definition
    of well-formed UTF-8 in section 4 of RFC 3629. */
module Utf8 {
  import opened Wrappers
  import OutputPages

  // ---------------------------------------------------------------------------
  // RFC 3629
  // ---------------------------------------------------------------------------

  predicate IsTail(b: bv8) {
    0x80 <= b <= 0xBF
  }

  /** The length of the well-formed character at the start of `s`, 0 if there is none. */
  function CharLength(s: Bytes): (n: nat)
    ensures n <= 4 && n <= |s|
  {
    if |s| >= 1 && s[0] <= 0x7F then 1
    else if |s| >= 2 && 0xC2 <= s[0] <= 0xDF && IsTail(s[1]) then 2
    else if |s| >= 3 && IsTail(s[2])
            && (if s[0] == 0xE0 then 0xA0 <= s[1] <= 0xBF
                else if s[0] == 0xED then 0x80 <= s[1] <= 0x9F
                else (0xE1 <= s[0] <= 0xEC || 0xEE <= s[0] <= 0xEF) && IsTail(s[1])) then 3
    else if |s| >= 4 && IsTail(s[2]) && IsTail(s[3])
            && (if s[0] == 0xF0 then 0x90 <= s[1] <= 0xBF
                else if s[0] == 0xF4 then 0x80 <= s[1] <= 0x8F
                else 0xF1 <= s[0] <= 0xF3 && IsTail(s[1])) then 4
    else 0
  }

  predicate Valid(s: Bytes)
    decreases |s|
  {
    s == [] || (CharLength(s) > 0 && Valid(s[CharLength(s)..]))
  }

  // ---------------------------------------------------------------------------
  // The split
  // ---------------------------------------------------------------------------

  predicate IsCharBoundary(bytes: Bytes, index: nat) {
    index == 0 || index >= |bytes| || bytes[index] & 0xC0 != 0x80
  }

  /** The largest boundary not above `cut`. */
  function BoundaryAtOrBelow(bytes: Bytes, cut: nat): (r: nat)
    ensures r <= cut
  {
    if cut > 0 && !IsCharBoundary(bytes, cut) then BoundaryAtOrBelow(bytes, cut - 1) else cut
  }

  lemma {:induction false} BoundaryIsLargest(bytes: Bytes, cut: nat)
    ensures IsCharBoundary(bytes, BoundaryAtOrBelow(bytes, cut))
    ensures forall k :: BoundaryAtOrBelow(bytes, cut) < k <= cut ==> !IsCharBoundary(bytes, k)
    decreases cut
  {
    if cut > 0 && !IsCharBoundary(bytes, cut) {
      BoundaryIsLargest(bytes, cut - 1);
    }
  }

  function Split(bytes: Bytes, max: nat): Option<(Bytes, Bytes)> {
    if bytes == [] || max == 0 then None
    else
      var cut := BoundaryAtOrBelow(bytes, Min(max, |bytes|));
      if cut == 0 then None else Some((bytes[..cut], bytes[cut..]))
  }

  method SplitUtf8Safe(bytes: Bytes, max: nat) returns (r: Option<(Bytes, Bytes)>)
    ensures r == Split(bytes, max)
  {
    if |bytes| == 0 || max == 0 {
      return None;
    }
    var cut := Min(max, |bytes|);
    ghost var limit := cut;
    while cut > 0 && !IsCharBoundary(bytes, cut)
      invariant 0 <= cut <= limit
      invariant BoundaryAtOrBelow(bytes, limit) == BoundaryAtOrBelow(bytes, cut)
    {
      cut := cut - 1;
    }
    if cut == 0 {
      return None;
    }
    return Some((bytes[..cut], bytes[cut..]));
  }

  // ---------------------------------------------------------------------------
  // Boundaries are exactly where valid text may be cut
  // ---------------------------------------------------------------------------

  lemma {:induction false} TailMask(b: bv8)
    ensures b & 0xC0 == 0x80 <==> IsTail(b)
  {
  }

  /** A character starts at a boundary and its other bytes are none. */
  lemma {:induction false} InsideCharacter(s: Bytes, k: nat)
    requires CharLength(s) > 0 && k < |s|
    ensures k < CharLength(s) ==> (IsCharBoundary(s, k) <==> k == 0)
    ensures !IsTail(s[0])
  {
    TailMask(s[k]);
  }

  lemma {:induction false} HeadOfCharacter(s: Bytes, cut: nat)
    requires CharLength(s) > 0 && cut <= |s|
    ensures CharLength(s[..cut]) == if cut < CharLength(s) then 0 else CharLength(s)
  {
  }

  /** In valid text a position is a boundary exactly if the bytes before it are valid text, and
      then so are the bytes after it. */
  lemma {:induction false} BoundaryIff(s: Bytes, cut: nat)
    requires Valid(s) && cut <= |s|
    ensures IsCharBoundary(s, cut) <==> Valid(s[..cut])
    ensures IsCharBoundary(s, cut) ==> Valid(s[cut..])
    decreases |s|
  {
    if cut == 0 {
      assert s[cut..] == s;
    } else {
      var n := CharLength(s);
      HeadOfCharacter(s, cut);
      if cut < n {
        InsideCharacter(s, cut);
      } else {
        var rest := s[n..];
        BoundaryIff(rest, cut - n);
        assert s[..cut][n..] == rest[..cut - n];
        assert s[cut..] == rest[cut - n..];
        if cut == n && rest != [] {
          InsideCharacter(rest, 0);
          TailMask(rest[0]);
        }
      }
    }
  }

  lemma {:induction false} FirstCharacterIsBoundary(s: Bytes)
    requires Valid(s) && s != []
    ensures 0 < CharLength(s) <= 4 && IsCharBoundary(s, CharLength(s))
  {
    var n := CharLength(s);
    assert Valid(s[..n]) by {
      HeadOfCharacter(s, n);
      assert s[..n][n..] == [];
    }
    BoundaryIff(s, n);
  }

  /** Valid text can be split exactly if its first character fits. */
  lemma {:induction false} SplitsExactlyWhen(s: Bytes, max: nat)
    requires Valid(s) && s != []
    ensures Split(s, max).Some? <==> CharLength(s) <= max
  {
    var limit := Min(max, |s|);
    var cut := BoundaryAtOrBelow(s, limit);
    BoundaryIsLargest(s, limit);
    FirstCharacterIsBoundary(s);
    if 0 < cut < |s| {
      InsideCharacter(s, cut);
    }
  }

  /** The head of a split of valid text is the longest non-empty valid prefix of at most `max`
      bytes; the rest is valid. */
  lemma {:induction false} SplitIsLongest(s: Bytes, max: nat)
    requires Valid(s) && Split(s, max).Some?
    ensures var (head, rest) := Split(s, max).value;
            && head + rest == s && 0 < |head| <= max && Valid(head) && Valid(rest)
            && forall k :: |head| < k <= |s| && k <= max ==> !Valid(s[..k])
  {
    var limit := Min(max, |s|);
    var cut := BoundaryAtOrBelow(s, limit);
    BoundaryIsLargest(s, limit);
    BoundaryIff(s, cut);
    forall k | cut < k <= |s| && k <= max ensures !Valid(s[..k]) {
      BoundaryIff(s, k);
    }
  }

  // ---------------------------------------------------------------------------
  // Repeated splitting
  // ---------------------------------------------------------------------------

  /** The pieces that splitting again and again yields. */
  function Chunks(text: Bytes, max: nat): seq<Bytes>
    decreases |text|
  {
    match Split(text, max)
    case None => []
    case Some((head, tail)) => [head] + Chunks(tail, max)
  }

  /** Splitting again and again never gets stuck before the end. */
  predicate Splittable(text: Bytes, max: nat)
    decreases |text|
  {
    text == [] || (Split(text, max).Some? && Splittable(Split(text, max).value.1, max))
  }

  function Concat(chunks: seq<Bytes>): Bytes {
    if chunks == [] then [] else Concat(chunks[..|chunks| - 1]) + chunks[|chunks| - 1]
  }

  /** The append events for pieces whose first one starts at `offset` of the item's output. */
  function Appends(offset: nat, chunks: seq<Bytes>): seq<OutputPages.OutputEvent> {
    if chunks == [] then []
    else
      var before := chunks[..|chunks| - 1];
      Appends(offset, before) + [OutputPages.OutputAppend(offset + |Concat(before)|, chunks[|chunks| - 1])]
  }

  lemma {:induction false} OneMore(start: nat, chunks: seq<Bytes>, c: Bytes, offset: nat)
    requires offset == start + |Concat(chunks)|
    ensures Concat(chunks + [c]) == Concat(chunks) + c
    ensures Appends(start, chunks + [c]) == Appends(start, chunks) + [OutputPages.OutputAppend(offset, c)]
  {
    assert (chunks + [c])[..|chunks|] == chunks;
  }

  lemma {:induction false} ConcatFirst(c: Bytes, chunks: seq<Bytes>)
    ensures Concat([c] + chunks) == c + Concat(chunks)
    decreases |chunks|
  {
    if chunks == [] {
      assert ([c] + chunks)[..0] == [];
    } else {
      var before := chunks[..|chunks| - 1];
      ConcatFirst(c, before);
      assert ([c] + chunks)[..|chunks|] == [c] + before;
    }
  }

  lemma {:induction false} ChunksStep(text: Bytes, max: nat) returns (head: Bytes, tail: Bytes)
    requires Valid(text) && Splittable(text, max) && text != []
    ensures Split(text, max) == Some((head, tail)) && Chunks(text, max) == [head] + Chunks(tail, max)
    ensures head + tail == text && 0 < |head| <= max && Valid(head) && Valid(tail) && Splittable(tail, max)
    ensures tail != [] ==> |head| + 3 >= max
  {
    SplitIsLongest(text, max);
    head, tail := Split(text, max).value.0, Split(text, max).value.1;
    if tail != [] {
      HeadIsFull(text, max);
    }
  }

  /** The mapper's loop (adapter/codex/mapper.rs `take_pending_output`). None stands for the panic on a
      text that cannot be split. */
  method TakePendingOutput(expectedOffset: nat, pending: Bytes, max: nat) returns (events: Option<seq<OutputPages.OutputEvent>>)
    ensures events == if Splittable(pending, max) then Some(Appends(expectedOffset, Chunks(pending, max))) else None
  {
    var out: seq<OutputPages.OutputEvent> := [];
    var offset: nat, rest := expectedOffset, pending;
    ghost var done: seq<Bytes>, all := [], Chunks(pending, max);
    while rest != []
      invariant Splittable(rest, max) <==> Splittable(pending, max)
      invariant Cutting(expectedOffset, all, done, Chunks(rest, max), out, offset)
      decreases |rest|
    {
      var r := SplitUtf8Safe(rest, max);
      if r.None? {
        return None;
      }
      var (chunk, tail) := r.value;
      CutNext(expectedOffset, all, done, Chunks(tail, max), out, offset, chunk);
      done := done + [chunk];
      out := out + [OutputPages.OutputAppend(offset, chunk)];
      offset, rest := offset + |chunk|, tail;
    }
    NoneLeft(max);
    assert done + [] == done;
    return Some(out);
  }

  lemma {:induction false} NoneLeft(max: nat)
    ensures Chunks([], max) == []
  {
  }

  /** The pieces `done` are out, the pieces `todo` remain. */
  ghost predicate Cutting(start: nat, all: seq<Bytes>, done: seq<Bytes>, todo: seq<Bytes>,
                          events: seq<OutputPages.OutputEvent>, offset: nat) {
    all == done + todo && events == Appends(start, done) && offset == start + |Concat(done)|
  }

  lemma {:induction false} CutNext(start: nat, all: seq<Bytes>, done: seq<Bytes>, others: seq<Bytes>,
                                   events: seq<OutputPages.OutputEvent>, offset: nat, c: Bytes)
    requires Cutting(start, all, done, [c] + others, events, offset)
    ensures Cutting(start, all, done + [c], others, events + [OutputPages.OutputAppend(offset, c)], offset + |c|)
  {
    OneMore(start, done, c, offset);
  }

  /** Splitting valid text again and again ends; the pieces concatenate to the text, each is
      non-empty, valid and at most `max` bytes, and each but the last is within three bytes of
      `max`. */
  lemma {:induction false} ChunksOfText(text: Bytes, max: nat)
    requires Valid(text) && Splittable(text, max)
    ensures Concat(Chunks(text, max)) == text
    ensures Fitting(Chunks(text, max), max) && Full(Chunks(text, max), max)
  {
    ChunksConcat(text, max);
    ChunksFit(text, max);
    ChunksAreFull(text, max);
  }

  lemma {:induction false} ChunksConcat(text: Bytes, max: nat)
    requires Valid(text) && Splittable(text, max)
    ensures Concat(Chunks(text, max)) == text
    decreases |text|
  {
    if text != [] {
      var head, tail := ChunksStep(text, max);
      ChunksConcat(tail, max);
      ConcatFirst(head, Chunks(tail, max));
    }
  }

  predicate Fitting(chunks: seq<Bytes>, max: nat) {
    forall i :: 0 <= i < |chunks| ==> Valid(chunks[i]) && 0 < |chunks[i]| <= max
  }

  lemma {:induction false} ChunksFit(text: Bytes, max: nat)
    requires Valid(text) && Splittable(text, max)
    ensures Fitting(Chunks(text, max), max)
    decreases |text|
  {
    if text != [] {
      var head, tail := ChunksStep(text, max);
      ChunksFit(tail, max);
      FirstFits(head, Chunks(tail, max), max);
    }
  }

  lemma {:induction false} FirstFits(c: Bytes, chunks: seq<Bytes>, max: nat)
    requires Fitting(chunks, max) && Valid(c) && 0 < |c| <= max
    ensures Fitting([c] + chunks, max)
  {
  }

  predicate Full(chunks: seq<Bytes>, max: nat) {
    forall i :: 0 <= i < |chunks| - 1 ==> |chunks[i]| + 3 >= max
  }

  lemma {:induction false} ChunksAreFull(text: Bytes, max: nat)
    requires Valid(text) && Splittable(text, max)
    ensures Full(Chunks(text, max), max)
    decreases |text|
  {
    if text != [] {
      var head, tail := ChunksStep(text, max);
      ChunksAreFull(tail, max);
      if tail != [] {
        FirstIsFull(head, Chunks(tail, max), max);
      } else {
        assert Chunks(tail, max) == [];
      }
    }
  }

  lemma {:induction false} FirstIsFull(c: Bytes, chunks: seq<Bytes>, max: nat)
    requires Full(chunks, max) && |c| + 3 >= max
    ensures Full([c] + chunks, max)
  {
  }

  /** After a boundary inside the text the next one is at most four bytes away. */
  lemma {:induction false} NextBoundary(s: Bytes, cut: nat) returns (next: nat)
    requires cut < |s| && Valid(s[..cut]) && Valid(s[cut..])
    ensures cut < next <= |s| && next <= cut + 4 && Valid(s[..next])
  {
    var head, rest := s[..cut], s[cut..];
    FirstCharacterIsBoundary(rest);
    var n := CharLength(rest);
    BoundaryIff(rest, n);
    ConcatValid(head, rest[..n]);
    next := cut + n;
    assert head + rest[..n] == s[..next];
  }

  /** A split that leaves something wastes at most three bytes. */
  lemma {:induction false} HeadIsFull(s: Bytes, max: nat)
    requires Valid(s) && Split(s, max).Some? && Split(s, max).value.1 != []
    ensures |Split(s, max).value.0| + 3 >= max
  {
    SplitIsLongest(s, max);
    var (head, rest) := Split(s, max).value;
    assert s[..|head|] == head && s[|head|..] == rest;
    var next := NextBoundary(s, |head|);
  }

  lemma {:induction false} ConcatValid(a: Bytes, b: Bytes)
    requires Valid(a) && Valid(b)
    ensures Valid(a + b)
    decreases |a|
  {
    if a == [] {
      assert a + b == b;
    } else {
      var n := CharLength(a);
      assert CharLength(a + b) == n;
      assert (a + b)[n..] == a[n..] + b;
      ConcatValid(a[n..], b);
    }
  }

  /** Every character is at most `max` bytes long. */
  predicate Narrow(s: Bytes, max: nat)
    decreases |s|
  {
    s == [] || (0 < CharLength(s) <= max && Narrow(s[CharLength(s)..], max))
  }

  lemma {:induction false} NarrowIfShort(s: Bytes, max: nat)
    requires Valid(s) && (|s| <= max || max >= 4)
    ensures Narrow(s, max)
    decreases |s|
  {
    if s != [] {
      NarrowIfShort(s[CharLength(s)..], max);
    }
  }

  lemma {:induction false} NarrowConcat(a: Bytes, b: Bytes, max: nat)
    requires Valid(a)
    ensures Narrow(a + b, max) <==> Narrow(a, max) && Narrow(b, max)
    decreases |a|
  {
    if a == [] {
      assert a + b == b;
    } else {
      var n := CharLength(a);
      assert CharLength(a + b) == n;
      assert (a + b)[n..] == a[n..] + b;
      NarrowConcat(a[n..], b, max);
    }
  }

  /** Valid text can be split to its end exactly if each of its characters fits; so it always can if the
      limit is four bytes or more. */
  lemma {:induction false} SplittableExactlyWhen(text: Bytes, max: nat)
    requires Valid(text)
    ensures Splittable(text, max) <==> Narrow(text, max)
    ensures max >= 4 ==> Splittable(text, max)
    decreases |text|
  {
    if text != [] {
      SplitsExactlyWhen(text, max);
      if Split(text, max).Some? {
        SplitIsLongest(text, max);
        var (head, tail) := Split(text, max).value;
        SplittableExactlyWhen(tail, max);
        NarrowIfShort(head, max);
        NarrowConcat(head, tail, max);
      }
      if max >= 4 {
        NarrowIfShort(text, max);
      }
    }
  }

  /** What fits into the buffer. */
  function Clip(data: Bytes): Bytes {
    data[..Min(|data|, OutputPages.OUTPUT_BUFFER_MAX)]
  }

  lemma {:induction false} NotedClips(data: Bytes, piece: Bytes)
    ensures OutputPages.Noted(Clip(data), OutputPages.OutputAppend(|data|, piece)) == Clip(data + piece)
  {
  }

  /** Applied to a buffer that ends where the pieces start, their events append exactly the
      concatenation, cut off at the buffer's bound: splitting loses nothing and repeats nothing. */
  lemma {:induction false} AppendsRestoreText(data: Bytes, chunks: seq<Bytes>)
    requires |data| <= OutputPages.OUTPUT_BUFFER_MAX
    ensures OutputPages.NotedAll(data, Appends(|data|, chunks)) == Clip(data + Concat(chunks))
    decreases |chunks|
  {
    if chunks == [] {
      assert data + Concat(chunks) == data;
    } else {
      var before, piece := chunks[..|chunks| - 1], chunks[|chunks| - 1];
      assert chunks == before + [piece];
      AppendsRestoreText(data, before);
      var text := data + Concat(before);
      OneMore(|data|, before, piece, |text|);
      NotedNext(data, Appends(|data|, before), text, |text|, piece);
      assert text + piece == data + Concat(chunks);
    }
  }

  lemma {:induction false} NotedNext(data: Bytes, events: seq<OutputPages.OutputEvent>, text: Bytes, offset: nat, piece: Bytes)
    requires OutputPages.NotedAll(data, events) == Clip(text) && offset == |text|
    ensures OutputPages.NotedAll(data, events + [OutputPages.OutputAppend(offset, piece)]) == Clip(text + piece)
  {
    var more := events + [OutputPages.OutputAppend(offset, piece)];
    assert more[..|more| - 1] == events;
    NotedClips(text, piece);
  }

  /** The mapper's pieces and the buffer together: a pending text that starts where the buffer ends is
      appended as it is. */
  lemma {:induction false} SplittingIsInvisible(data: Bytes, text: Bytes, max: nat)
    requires |data| <= OutputPages.OUTPUT_BUFFER_MAX && Valid(text) && Splittable(text, max)
    ensures OutputPages.NotedAll(data, Appends(|data|, Chunks(text, max))) == Clip(data + text)
  {
    AppendsRestoreText(data, Chunks(text, max));
    ChunksOfText(text, max);
  }
}
