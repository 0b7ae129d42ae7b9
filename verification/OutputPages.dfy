/** The bounded command-output buffer and its cursor paging (apps/bridge/src/runtime/mod.rs
    `note_event`, `query_command_output_page`). */
module OutputPages {
  import opened Wrappers
  import Decimal

  const OUTPUT_PAGE_MAX: nat := 256 * 1024
  const OUTPUT_BUFFER_MAX: nat := 8 * 1024 * 1024

  // ---------------------------------------------------------------------------
  // The buffer
  // ---------------------------------------------------------------------------

  datatype OutputEvent =
    | OutputAppend(expectedOffset: nat, bytes: Bytes)
    | OutputReplace(bytes: Bytes)

  function Noted(data: Bytes, e: OutputEvent): Bytes {
    match e
    case OutputAppend(expected, bytes) =>
      if expected == |data| && |data| < OUTPUT_BUFFER_MAX
      then data + bytes[..Min(OUTPUT_BUFFER_MAX - |data|, |bytes|)]
      else data
    case OutputReplace(bytes) => bytes[..Min(|bytes|, OUTPUT_BUFFER_MAX)]
  }

  function NotedAll(data: Bytes, events: seq<OutputEvent>): Bytes {
    if events == [] then data else Noted(NotedAll(data, events[..|events| - 1]), events[|events| - 1])
  }

  class OutputBuffer {
    var data: Bytes
    var isFinal: bool

    constructor ()
      ensures data == [] && !isFinal
    {
      data, isFinal := [], false;
    }

    method Append(expectedOffset: nat, bytes: Bytes)
      modifies this
      ensures data == Noted(old(data), OutputAppend(expectedOffset, bytes)) && isFinal == old(isFinal)
    {
      if expectedOffset == |data| && |data| < OUTPUT_BUFFER_MAX {
        var room := OUTPUT_BUFFER_MAX - |data|;
        var take := if room <= |bytes| then room else |bytes|;
        data := data + bytes[..take];
      }
    }

    method Replace(bytes: Bytes)
      modifies this
      ensures data == Noted(old(data), OutputReplace(bytes)) && isFinal == old(isFinal)
    {
      var take := if |bytes| <= OUTPUT_BUFFER_MAX then |bytes| else OUTPUT_BUFFER_MAX;
      data := bytes[..take];
    }

    method Finish()
      modifies this
      ensures data == old(data) && isFinal
    {
      isFinal := true;
    }

    method Query(cursor: string, pageSize: nat) returns (page: Page)
      ensures page == PageOf(data, isFinal, cursor, pageSize)
    {
      var parsed := Decimal.ParseU64(cursor);
      var offset := if parsed.Some? then parsed.value else 0;
      var limit := if pageSize == 0 || pageSize > OUTPUT_PAGE_MAX then OUTPUT_PAGE_MAX else pageSize;
      var start := if offset <= |data| then offset else |data|;
      var end := if start + limit <= |data| then start + limit else |data|;
      page := Page(data[start..end], if end < |data| then Decimal.Format(end) else "", isFinal && end >= |data|);
    }
  }

  /** Every append in the list is a piece of the item's true output, wherever it belongs. */
  predicate Pieces(truth: Bytes, events: seq<OutputEvent>) {
    forall i :: 0 <= i < |events| ==>
      && events[i].OutputAppend?
      && events[i].expectedOffset + |events[i].bytes| <= |truth|
      && truth[events[i].expectedOffset..events[i].expectedOffset + |events[i].bytes|] == events[i].bytes
  }

  /** However many appends are lost, repeated or reordered after a replacement (or after the
      start), the buffer stays a prefix of the item's true output. */
  lemma {:induction false} BufferIsPrefix(truth: Bytes, data: Bytes, events: seq<OutputEvent>)
    requires data <= truth && Pieces(truth, events)
    ensures NotedAll(data, events) <= truth
    ensures data <= NotedAll(data, events)
  {
    if events != [] {
      var before, last := events[..|events| - 1], events[|events| - 1];
      BufferIsPrefix(truth, data, before);
      OnePieceKeepsPrefix(truth, NotedAll(data, before), last);
    }
  }

  lemma {:induction false} OnePieceKeepsPrefix(truth: Bytes, held: Bytes, e: OutputEvent)
    requires held <= truth && e.OutputAppend? && e.expectedOffset + |e.bytes| <= |truth|
    requires truth[e.expectedOffset..e.expectedOffset + |e.bytes|] == e.bytes
    ensures held <= Noted(held, e) <= truth
  {
    if e.expectedOffset == |held| {
      assert held + e.bytes == truth[..|held| + |e.bytes|];
    }
  }

  /** Where an unbounded reader that accepts only the next piece stands. */
  function ChainEnd(events: seq<OutputEvent>): nat {
    if events == [] then 0
    else
      var r := ChainEnd(events[..|events| - 1]);
      var last := events[|events| - 1];
      if last.OutputAppend? && last.expectedOffset == r then r + |last.bytes| else r
  }

  /** No piece is missing: each one continues the chain or repeats what it has. */
  predicate Gapless(events: seq<OutputEvent>) {
    events == [] ||
    var before, last := events[..|events| - 1], events[|events| - 1];
    && Gapless(before) && last.OutputAppend?
    && (last.expectedOffset == ChainEnd(before) || last.expectedOffset + |last.bytes| <= ChainEnd(before))
  }

  /** ... and it holds as much as it can: the chain of pieces that fit together, up to the bound. */
  lemma {:induction false} BufferIsTheChain(truth: Bytes, events: seq<OutputEvent>)
    requires Pieces(truth, events)
    ensures ChainEnd(events) <= |truth|
    ensures NotedAll([], events) == truth[..Min(ChainEnd(events), OUTPUT_BUFFER_MAX)]
  {
    if events != [] {
      var before, last := events[..|events| - 1], events[|events| - 1];
      BufferIsTheChain(truth, before);
      var r := ChainEnd(before);
      if last.expectedOffset == r && r < OUTPUT_BUFFER_MAX {
        PieceExtends(truth, last.bytes, r, Min(OUTPUT_BUFFER_MAX - r, |last.bytes|));
      }
    }
  }

  lemma {:induction false} PieceExtends(truth: Bytes, piece: Bytes, r: nat, take: nat)
    requires r + |piece| <= |truth| && truth[r..r + |piece|] == piece && take <= |piece|
    ensures truth[..r] + piece[..take] == truth[..r + take]
  {
    assert piece[..take] == truth[r..r + take];
  }

  /** Without a gap the chain covers every piece that was sent. */
  lemma {:induction false} GaplessCoversAll(events: seq<OutputEvent>, i: nat)
    requires Gapless(events) && i < |events|
    ensures events[i].OutputAppend? && events[i].expectedOffset + |events[i].bytes| <= ChainEnd(events)
    decreases |events|
  {
    var before := events[..|events| - 1];
    if i < |before| {
      GaplessCoversAll(before, i);
    }
  }

  lemma {:induction false} BufferIsBounded(data: Bytes, events: seq<OutputEvent>)
    requires |data| <= OUTPUT_BUFFER_MAX
    ensures |NotedAll(data, events)| <= 8388608
  {
    if events != [] {
      BufferIsBounded(data, events[..|events| - 1]);
    }
  }

  lemma {:induction false} NotedAllAppend(data: Bytes, first: seq<OutputEvent>, second: seq<OutputEvent>)
    ensures NotedAll(data, first + second) == NotedAll(NotedAll(data, first), second)
    decreases |second|
  {
    if second == [] {
      assert first + second == first;
    } else {
      NotedAllAppend(data, first, second[..|second| - 1]);
      assert (first + second)[..|first + second| - 1] == first + second[..|second| - 1];
    }
  }

  /** A replacement with a prefix of the true output heals whatever went before: the buffer holds all of it
      that fits, and however the pieces after it are lost, repeated or reordered, a prefix of the output. */
  lemma {:induction false} ReplacementHeals(truth: Bytes, data: Bytes, before: seq<OutputEvent>, known: Bytes, pieces: seq<OutputEvent>)
    requires known <= truth && Pieces(truth, pieces)
    ensures var held := NotedAll(data, before + [OutputReplace(known)] + pieces);
            held <= truth && known[..Min(|known|, OUTPUT_BUFFER_MAX)] <= held
  {
    var replaced := before + [OutputReplace(known)];
    assert replaced[..|replaced| - 1] == before;
    NotedAllAppend(data, replaced, pieces);
    BufferIsPrefix(truth, known[..Min(|known|, OUTPUT_BUFFER_MAX)], pieces);
  }

  // ---------------------------------------------------------------------------
  // Paging
  // ---------------------------------------------------------------------------

  datatype Page = Page(bytes: Bytes, nextCursor: string, isFinal: bool)

  function Limit(pageSize: nat): nat {
    if pageSize == 0 then OUTPUT_PAGE_MAX else Min(pageSize, OUTPUT_PAGE_MAX)
  }

  function PageOf(data: Bytes, isFinal: bool, cursor: string, pageSize: nat): Page {
    var offset := match Decimal.ParseU64(cursor) case Some(n) => n case None => 0;
    var start := Min(offset, |data|);
    var end := Min(start + Limit(pageSize), |data|);
    Page(data[start..end], if end < |data| then Decimal.Format(end) else "", isFinal && end >= |data|)
  }

  /** What a client has after asking once per snapshot in `snapshots`, following cursors from the
      empty one and stopping at an empty one. */
  datatype Fetched = Fetched(bytes: Bytes, cursor: string)

  function Follow(snapshots: seq<Bytes>, isFinal: bool, pageSize: nat): Fetched {
    if snapshots == [] then Fetched([], "")
    else
      var n := |snapshots| - 1;
      var before := Follow(snapshots[..n], isFinal, pageSize);
      if n > 0 && before.cursor == "" then before
      else
        var page := PageOf(snapshots[n], isFinal, before.cursor, pageSize);
        Fetched(before.bytes + page.bytes, page.nextCursor)
  }

  /** Appends continue between the requests. */
  predicate Growing(snapshots: seq<Bytes>) {
    && (forall i :: 0 <= i < |snapshots| ==> |snapshots[i]| <= OUTPUT_BUFFER_MAX)
    && (forall i, j :: 0 <= i <= j < |snapshots| ==> snapshots[i] <= snapshots[j])
  }

  /** Where page k starts when every page before it was full. */
  function PageStart(k: nat, pageSize: nat): nat {
    if k == 0 then 0 else PageStart(k - 1, pageSize) + Limit(pageSize)
  }

  /** Page i reaches the end of snapshot i. */
  predicate Reaches(snapshots: seq<Bytes>, pageSize: nat, i: nat)
    requires i < |snapshots|
  {
    PageStart(i + 1, pageSize) >= |snapshots[i]|
  }

  predicate NoneReaches(snapshots: seq<Bytes>, pageSize: nat) {
    forall i :: 0 <= i < |snapshots| ==> !Reaches(snapshots, pageSize, i)
  }

  /** A page holds what was asked for and never more than 256 KiB; it is full unless the buffer ends, and
      exactly the page that reaches the end of a finished buffer is the last. A cursor that is no number
      starts over. */
  lemma {:induction false} PageIsBounded(data: Bytes, isFinal: bool, cursor: string, pageSize: nat)
    ensures var page := PageOf(data, isFinal, cursor, pageSize);
            && |page.bytes| <= 262144 && (pageSize > 0 ==> |page.bytes| <= pageSize)
            && (page.nextCursor != "" ==> |page.bytes| == if 0 < pageSize < 262144 then pageSize else 262144)
            && (page.isFinal <==> isFinal && page.nextCursor == "")
            && (Decimal.ParseU64(cursor).None? ==> page == PageOf(data, isFinal, "0", pageSize))
  {
    assert Decimal.Format(0) == "0";
    Decimal.ParseFormat(0);
  }

  lemma {:induction false} PageAt(data: Bytes, isFinal: bool, pos: nat, pageSize: nat)
    requires pos <= |data| <= OUTPUT_BUFFER_MAX
    ensures var page := PageOf(data, isFinal, Decimal.Format(pos), pageSize);
            var end := Min(pos + Limit(pageSize), |data|);
            && data[..pos] + page.bytes == data[..end]
            && page.nextCursor == (if end < |data| then Decimal.Format(end) else "")
            && (page.isFinal <==> isFinal && end == |data|)
  {
    Decimal.ParseFormat(pos);
  }

  lemma {:induction false} FirstPage(data: Bytes, isFinal: bool, pageSize: nat)
    ensures var page := PageOf(data, isFinal, "", pageSize);
            var end := Min(Limit(pageSize), |data|);
            page.bytes == data[..end] && page.nextCursor == (if end < |data| then Decimal.Format(end) else "")
  {
  }

  /** As long as no page reached the end of its snapshot, the pages are exactly the bytes before
      the next page's start, in the latest snapshot. */
  lemma {:induction false} FullPages(snapshots: seq<Bytes>, isFinal: bool, pageSize: nat)
    requires snapshots != [] && Growing(snapshots) && NoneReaches(snapshots, pageSize)
    ensures var n := |snapshots|;
            var pos := PageStart(n, pageSize);
            var got := Follow(snapshots, isFinal, pageSize);
            pos < |snapshots[n - 1]| && got.bytes == snapshots[n - 1][..pos] && got.cursor == Decimal.Format(pos)
    decreases |snapshots|, 1
  {
    var n := |snapshots| - 1;
    assert !Reaches(snapshots, pageSize, n);
    EarlierReaches(snapshots, n, pageSize);
    LastPage(snapshots, isFinal, pageSize);
  }

  lemma {:induction false} EarlierReaches(snapshots: seq<Bytes>, n: nat, pageSize: nat)
    requires n <= |snapshots|
    ensures NoneReaches(snapshots[..n], pageSize) <==> forall i :: 0 <= i < n ==> !Reaches(snapshots, pageSize, i)
  {
    assert forall i :: 0 <= i < n ==> Reaches(snapshots[..n], pageSize, i) == Reaches(snapshots, pageSize, i);
  }

  lemma {:induction false} LastPage(snapshots: seq<Bytes>, isFinal: bool, pageSize: nat)
    requires snapshots != [] && Growing(snapshots) && NoneReaches(snapshots[..|snapshots| - 1], pageSize)
    ensures var n := |snapshots| - 1;
            var end := Min(PageStart(n + 1, pageSize), |snapshots[n]|);
            var got := Follow(snapshots, isFinal, pageSize);
            got.bytes == snapshots[n][..end] && got.cursor == (if end < |snapshots[n]| then Decimal.Format(end) else "")
    decreases |snapshots|, 0
  {
    var n := |snapshots| - 1;
    if n == 0 {
      FirstPage(snapshots[n], isFinal, pageSize);
    } else {
      FullPages(snapshots[..n], isFinal, pageSize);
      NextPage(snapshots, isFinal, pageSize);
    }
  }

  lemma {:induction false} NextPage(snapshots: seq<Bytes>, isFinal: bool, pageSize: nat)
    requires |snapshots| > 1 && Growing(snapshots)
    requires var n := |snapshots| - 1;
             var pos := PageStart(n, pageSize);
             var before := Follow(snapshots[..n], isFinal, pageSize);
             pos < |snapshots[n - 1]| && before.bytes == snapshots[n - 1][..pos] && before.cursor == Decimal.Format(pos)
    ensures var n := |snapshots| - 1;
            var end := Min(PageStart(n + 1, pageSize), |snapshots[n]|);
            var got := Follow(snapshots, isFinal, pageSize);
            got.bytes == snapshots[n][..end] && got.cursor == (if end < |snapshots[n]| then Decimal.Format(end) else "")
  {
    var n := |snapshots| - 1;
    var pos := PageStart(n, pageSize);
    assert snapshots[n - 1] <= snapshots[n];
    assert snapshots[n - 1][..pos] == snapshots[n][..pos];
    PageAt(snapshots[n], isFinal, pos, pageSize);
  }

  /** What a client has that follows cursors while appends continue: always a prefix of the latest
      snapshot; at an empty cursor, met at its k-th page, the whole k-th snapshot. */
  ghost predicate HoldsPrefix(snapshots: seq<Bytes>, pageSize: nat, got: Fetched, k: nat)
    requires snapshots != []
  {
    && got.bytes <= snapshots[|snapshots| - 1]
    && (got.cursor == "" ==> k < |snapshots| && got.bytes == snapshots[k])
    && (got.cursor != "" ==> |got.bytes| == PageStart(|snapshots|, pageSize) < |snapshots[|snapshots| - 1]|)
    && (got.cursor != "" <==> NoneReaches(snapshots, pageSize))
  }

  lemma {:induction false} PagesAreThePrefix(snapshots: seq<Bytes>, isFinal: bool, pageSize: nat) returns (k: nat)
    requires snapshots != [] && Growing(snapshots)
    ensures HoldsPrefix(snapshots, pageSize, Follow(snapshots, isFinal, pageSize), k)
  {
    var n := |snapshots| - 1;
    EarlierReaches(snapshots, n, pageSize);
    if NoneReaches(snapshots[..n], pageSize) {
      k := n;
      StillAsking(snapshots, isFinal, pageSize);
    } else {
      assert n > 0;
      k := PagesAreThePrefix(snapshots[..n], isFinal, pageSize);
      StoppedEarlier(snapshots, isFinal, pageSize, k);
    }
  }

  lemma {:induction false} StillAsking(snapshots: seq<Bytes>, isFinal: bool, pageSize: nat)
    requires snapshots != [] && Growing(snapshots) && NoneReaches(snapshots[..|snapshots| - 1], pageSize)
    ensures HoldsPrefix(snapshots, pageSize, Follow(snapshots, isFinal, pageSize), |snapshots| - 1)
  {
    var n := |snapshots| - 1;
    EarlierReaches(snapshots, n, pageSize);
    LastPage(snapshots, isFinal, pageSize);
    assert NoneReaches(snapshots, pageSize) <==> !Reaches(snapshots, pageSize, n);
  }

  lemma {:induction false} StoppedEarlier(snapshots: seq<Bytes>, isFinal: bool, pageSize: nat, k: nat)
    requires |snapshots| > 1 && Growing(snapshots) && !NoneReaches(snapshots[..|snapshots| - 1], pageSize)
    requires var before := snapshots[..|snapshots| - 1];
             HoldsPrefix(before, pageSize, Follow(before, isFinal, pageSize), k)
    ensures HoldsPrefix(snapshots, pageSize, Follow(snapshots, isFinal, pageSize), k)
  {
    EarlierReaches(snapshots, |snapshots| - 1, pageSize);
    StoppedStays(snapshots, isFinal, pageSize);
    PrefixChain(snapshots, k);
  }

  /** A client that has met an empty cursor asks no more. */
  lemma {:induction false} StoppedStays(snapshots: seq<Bytes>, isFinal: bool, pageSize: nat)
    requires |snapshots| > 1 && Follow(snapshots[..|snapshots| - 1], isFinal, pageSize).cursor == ""
    ensures Follow(snapshots, isFinal, pageSize) == Follow(snapshots[..|snapshots| - 1], isFinal, pageSize)
  {
  }

  lemma {:induction false} PrefixChain(snapshots: seq<Bytes>, k: nat)
    requires Growing(snapshots) && k < |snapshots|
    ensures snapshots[k] <= snapshots[|snapshots| - 1]
  {
  }

  /** The client always stops: the buffer bound caps the number of pages, even while output keeps
      arriving. */
  lemma {:induction false} PagingTerminates(snapshots: seq<Bytes>, isFinal: bool, pageSize: nat)
    requires snapshots != [] && Growing(snapshots)
    requires PageStart(|snapshots|, pageSize) >= |snapshots[|snapshots| - 1]|
    ensures Follow(snapshots, isFinal, pageSize).cursor == ""
  {
    var k := PagesAreThePrefix(snapshots, isFinal, pageSize);
    assert Reaches(snapshots, pageSize, |snapshots| - 1);
  }

  lemma {:induction false} PagesAdvance(k: nat, pageSize: nat)
    ensures PageStart(k, pageSize) >= k
    decreases k
  {
    if k > 0 {
      PagesAdvance(k - 1, pageSize);
    }
  }

  /** Whatever the page size, a client that has asked as often as the buffer has room for bytes has met
      an empty cursor and holds the whole buffer of the request that answered it. */
  lemma {:induction false} PagingAlwaysEnds(snapshots: seq<Bytes>, isFinal: bool, pageSize: nat) returns (k: nat)
    requires Growing(snapshots) && |snapshots| >= OUTPUT_BUFFER_MAX
    ensures var got := Follow(snapshots, isFinal, pageSize);
            got.cursor == "" && k < |snapshots| && got.bytes == snapshots[k]
  {
    PagesAdvance(|snapshots|, pageSize);
    PagingTerminates(snapshots, isFinal, pageSize);
    k := PagesAreThePrefix(snapshots, isFinal, pageSize);
  }
}
