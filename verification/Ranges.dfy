/** Single HTTP ranges: the header a transfer offer is turned into (apps/bridge/src/runtime/transfers.rs),
    its parser and the slice that is served (apps/bridge/src/files/policy.rs). */
module Ranges {
  import opened Wrappers
  import opened Decimal

  const MAX_DOWNLOAD_BYTES: nat := 512 * 1024 * 1024
  const SNIFF_PREFIX_BYTES: nat := 8 * 1024
  const U64: nat := U64_MAX + 1

  datatype HttpRange = HttpRange(start: nat, endInclusive: nat)

  datatype FilesError = RangeInvalid | TooLarge | NotPreviewable

  // ---------------------------------------------------------------------------
  // Text
  // ---------------------------------------------------------------------------

  /** The characters with the Unicode property White_Space. */
  predicate IsSpace(c: char) {
    var n := c as nat;
    9 <= n <= 13 || n == 0x20 || n == 0x85 || n == 0xA0 || n == 0x1680 || 0x2000 <= n <= 0x200A
    || n == 0x2028 || n == 0x2029 || n == 0x202F || n == 0x205F || n == 0x3000
  }

  function TrimStart(s: string): string {
    if s != [] && IsSpace(s[0]) then TrimStart(s[1..]) else s
  }

  function TrimEnd(s: string): string {
    if s != [] && IsSpace(s[|s| - 1]) then TrimEnd(s[..|s| - 1]) else s
  }

  function Trim(s: string): string {
    TrimEnd(TrimStart(s))
  }

  const BYTES := "bytes="

  /** What precedes and what follows the first `-`. */
  function SplitOnce(s: string): Option<(string, string)>
    decreases |s|
  {
    if s == [] then None
    else if s[0] == '-' then Some(("", s[1..]))
    else match SplitOnce(s[1..])
      case None => None
      case Some((a, b)) => Some(([s[0]] + a, b))
  }

  // ---------------------------------------------------------------------------
  // Parsing and formatting
  // ---------------------------------------------------------------------------

  function SuffixRange(n: Option<nat>, total: nat): Option<HttpRange> {
    if n.None? || n.value == 0 || total == 0 then None
    else Some(HttpRange(if n.value <= total then total - n.value else 0, total - 1))
  }

  function BoundedRange(start: Option<nat>, end: Option<Option<nat>>, total: nat): Option<HttpRange> {
    if start.None? || start.value >= total then None
    else match end
      case None => Some(HttpRange(start.value, total - 1))
      case Some(None) => None
      case Some(Some(e)) => if e < start.value then None else Some(HttpRange(start.value, Min(e, total - 1)))
  }

  /** None stands for RangeInvalid. */
  function ParseSingleRange(header: string, total: nat): Option<HttpRange> {
    var trimmed := Trim(header);
    if !(BYTES <= trimmed) then None
    else
      var spec := trimmed[|BYTES|..];
      if ',' in spec then None
      else match SplitOnce(Trim(spec))
        case None => None
        case Some((a, b)) =>
          if a == "" then SuffixRange(ParseU64(Trim(b)), total)
          else BoundedRange(ParseU64(Trim(a)), if b == "" then None else Some(ParseU64(Trim(b))), total)
  }

  /** `end + 1` wraps in 64 bits. */
  function RangeHeaderOf(start: nat, end: Option<nat>, total: nat): Option<string> {
    if start == 0 && end.None? then None
    else if end.Some? then
      if start == 0 && (end.value + 1) % U64 >= total then None
      else Some(BYTES + Format(start) + "-" + Format(end.value))
    else Some(BYTES + Format(start) + "-")
  }

  // ---------------------------------------------------------------------------
  // Serving
  // ---------------------------------------------------------------------------

  datatype TransferMode = Preview | Download

  datatype FileSlice = FileSlice(body: Bytes, bodyLen: nat, contentRange: Option<HttpRange>, totalLen: nat)

  class OpenFile {
    const content: Bytes
    var pos: nat

    constructor (content: Bytes)
      ensures this.content == content && pos == 0
    {
      this.content := content;
      pos := 0;
    }

    method ReadExact(n: nat) returns (r: Bytes)
      requires pos + n <= |content|
      modifies this
      ensures r == content[old(pos)..old(pos) + n] && pos == old(pos) + n
    {
      r := content[pos..pos + n];
      pos := pos + n;
    }

    method SeekTo(p: nat)
      modifies this
      ensures pos == p
    {
      pos := p;
    }

    /** The bytes a reader limited to `n` will read from here. */
    method Take(n: nat) returns (r: Bytes)
      requires pos <= |content|
      ensures r == content[pos..Min(pos + n, |content|)]
    {
      r := content[pos..Min(pos + n, |content|)];
    }
  }

  /** `previewLimit` tells from a file's first bytes how large a file of its kind may be previewed, if it
      may at all. */
  predicate MayServe(content: Bytes, mode: TransferMode, previewLimit: Bytes -> Option<nat>) {
    mode.Preview? ==>
      var limit := previewLimit(content[..Min(SNIFF_PREFIX_BYTES, |content|)]);
      limit.Some? && |content| <= limit.value
  }

  /** The whole content without a header; with one, the range's bytes or an error. */
  method OpenSlice(file: OpenFile, mode: TransferMode, previewLimit: Bytes -> Option<nat>, header: Option<string>)
    returns (r: Result<FileSlice, FilesError>)
    requires file.pos == 0
    modifies file
    ensures r == SliceOf(file.content, mode, previewLimit, header)
  {
    var total := |file.content|;
    if total > MAX_DOWNLOAD_BYTES {
      return Err(TooLarge);
    }
    var want := Min(SNIFF_PREFIX_BYTES, total);
    var prefix := file.ReadExact(want);
    file.SeekTo(0);
    if mode == Preview {
      var limit := previewLimit(prefix);
      if limit.None? || total > limit.value {
        return Err(NotPreviewable);
      }
    }
    var contentRange := None;
    if header.Some? {
      contentRange := ParseSingleRange(header.value, total);
      if contentRange.None? {
        return Err(RangeInvalid);
      }
      ParsedIsInside(header.value, total);
    }
    var slice := ReadSlice(file, contentRange);
    return Ok(slice);
  }

  predicate Inside(r: Option<HttpRange>, total: nat) {
    r.Some? ==> r.value.start <= r.value.endInclusive < total
  }

  /** The slice of a range, or of the whole content. */
  function SliceAt(content: Bytes, r: Option<HttpRange>): FileSlice
    requires Inside(r, |content|)
  {
    match r
    case None => FileSlice(content, |content|, None, |content|)
    case Some(at) => FileSlice(content[at.start..at.endInclusive + 1], at.endInclusive + 1 - at.start, r, |content|)
  }

  /** From the start of the file. */
  method ReadSlice(file: OpenFile, r: Option<HttpRange>) returns (slice: FileSlice)
    requires file.pos == 0 && Inside(r, |file.content|)
    modifies file
    ensures slice == SliceAt(file.content, r)
  {
    var total := |file.content|;
    var offset := if r.Some? then r.value.start else 0;
    var bodyLen := if r.Some? then r.value.endInclusive - r.value.start + 1 else total;
    if offset > 0 {
      file.SeekTo(offset);
    }
    var body := file.Take(bodyLen);
    assert r.None? ==> body == file.content;
    slice := FileSlice(body, bodyLen, r, total);
  }

  function SliceOf(content: Bytes, mode: TransferMode, previewLimit: Bytes -> Option<nat>, header: Option<string>)
    : Result<FileSlice, FilesError>
  {
    if |content| > MAX_DOWNLOAD_BYTES then Err(TooLarge)
    else if !MayServe(content, mode, previewLimit) then Err(NotPreviewable)
    else if header.None? then Ok(SliceAt(content, None))
    else
      var r := ParseSingleRange(header.value, |content|);
      ParsedIsInside(header.value, |content|);
      if r.None? then Err(RangeInvalid) else Ok(SliceAt(content, r))
  }

  /** A file over 512 MiB is never served; a preview is refused exactly if its kind, told from its first 8 KiB,
      is not previewed or not at this size. Nothing else but the range is in the way. */
  lemma {:induction false} LimitsExactly(content: Bytes, mode: TransferMode, previewLimit: Bytes -> Option<nat>, header: Option<string>)
    ensures var served := SliceOf(content, mode, previewLimit, header);
            var limit := previewLimit(content[..if |content| < 8192 then |content| else 8192]);
            && (served == Err(TooLarge) <==> |content| > 536870912)
            && (served == Err(NotPreviewable) <==>
                  |content| <= 536870912 && mode.Preview? && (limit.None? || |content| > limit.value))
            && (served == Err(RangeInvalid) ==> header.Some? && ParseSingleRange(header.value, |content|).None?)
  {
  }

  /** Whatever the header, a parsed range is non-empty and lies inside the file. */
  lemma {:induction false} ParsedIsInside(header: string, total: nat)
    ensures Inside(ParseSingleRange(header, total), total)
  {
  }

  // ---------------------------------------------------------------------------
  // Reading back a formatted range
  // ---------------------------------------------------------------------------

  predicate Tight(s: string) {
    s != [] && !IsSpace(s[0]) && !IsSpace(s[|s| - 1])
  }

  lemma {:induction false} TrimTight(s: string)
    requires s == [] || Tight(s)
    ensures Trim(s) == s
  {
  }

  predicate Blank(s: string) {
    forall i :: 0 <= i < |s| ==> IsSpace(s[i])
  }

  lemma {:induction false} TrimStartSkips(blank: string, s: string)
    requires Blank(blank) && (s == [] || !IsSpace(s[0]))
    ensures TrimStart(blank + s) == s
    decreases |blank|
  {
    if blank == [] {
      assert blank + s == s;
    } else {
      assert (blank + s)[1..] == blank[1..] + s;
      TrimStartSkips(blank[1..], s);
    }
  }

  lemma {:induction false} TrimEndSkips(s: string, blank: string)
    requires Blank(blank) && (s == [] || !IsSpace(s[|s| - 1]))
    ensures TrimEnd(s + blank) == s
    decreases |blank|
  {
    if blank == [] {
      assert s + blank == s;
    } else {
      var n := |blank| - 1;
      assert (s + blank)[..|s| + n] == s + blank[..n];
      TrimEndSkips(s, blank[..n]);
    }
  }

  /** Blanks around a header do not matter. */
  lemma {:induction false} BlanksIgnored(before: string, header: string, after: string, total: nat)
    requires Blank(before) && Blank(after) && Tight(header)
    ensures ParseSingleRange(before + header + after, total) == ParseSingleRange(header, total)
  {
    assert before + header + after == before + (header + after);
    TrimStartSkips(before, header + after);
    TrimEndSkips(header, after);
    TrimTight(header);
  }

  lemma {:induction false} DigitsAreTight(n: nat)
    ensures Tight(Format(n)) && ',' !in Format(n) && '-' !in Format(n)
  {
    var s := Format(n);
    assert IsDigit(s[0]) && IsDigit(s[|s| - 1]);
  }

  lemma {:induction false} SplitAt(a: string, b: string)
    requires '-' !in a
    ensures SplitOnce(a + "-" + b) == Some((a, b))
    decreases |a|
  {
    var s := a + "-" + b;
    if a == "" {
      assert s[1..] == b;
    } else {
      assert s[1..] == a[1..] + "-" + b;
      SplitAt(a[1..], b);
      assert [a[0]] + a[1..] == a;
    }
  }

  /** Only the part after `bytes=` counts, and `a-b` without blanks is split at its dash. */
  lemma {:induction false} ParseSpec(a: string, b: string, total: nat)
    requires '-' !in a && ',' !in a && ',' !in b
    requires (a == "" || Tight(a)) && (b == "" || Tight(b))
    ensures ParseSingleRange(BYTES + a + "-" + b, total)
         == if a == "" then SuffixRange(ParseU64(b), total)
            else BoundedRange(ParseU64(a), if b == "" then None else Some(ParseU64(b)), total)
  {
    var spec := a + "-" + b;
    var header := BYTES + a + "-" + b;
    assert header == BYTES + spec;
    assert header[0] == 'b' && header[|header| - 1] == spec[|spec| - 1];
    assert spec[0] == if a == "" then '-' else a[0];
    assert spec[|spec| - 1] == if b == "" then '-' else b[|b| - 1];
    TrimTight(header);
    assert header[|BYTES|..] == spec;
    TrimTight(spec);
    SplitAt(a, b);
    TrimTight(a);
    TrimTight(b);
  }

  // ---------------------------------------------------------------------------
  // Main results
  // ---------------------------------------------------------------------------

  /** What an offer of `start` and, if given, an inclusive `end` asks for. */
  function Requested(content: Bytes, start: nat, end: Option<nat>): Option<Bytes> {
    var total := |content|;
    if start == 0 && end.None? then Some(content)
    else if start >= total || (end.Some? && end.value < start) then None
    else Some(content[start..if end.Some? && end.value < total then end.value + 1 else total])
  }

  /** Formatting an offer, parsing the header and slicing serves exactly the bytes that were asked for, and
      an unsatisfiable range is an error, for every 64-bit offer and every file up to the download limit;
      except that a range from 0 of an empty file, which no byte satisfies, is served as the empty file. */
  lemma {:induction false} OfferIsServedExactly(content: Bytes, start: nat, end: Option<nat>, mode: TransferMode,
                                                previewLimit: Bytes -> Option<nat>)
    requires start <= U64_MAX && (end.Some? ==> end.value <= U64_MAX)
    requires |content| <= MAX_DOWNLOAD_BYTES && MayServe(content, mode, previewLimit)
    ensures var served := SliceOf(content, mode, previewLimit, RangeHeaderOf(start, end, |content|));
            match Requested(content, start, end)
            case Some(bytes) => served.Ok? && served.value.body == bytes && served.value.bodyLen == |bytes|
            case None => if content == [] && start == 0 then served.Ok? && served.value.body == [] else served == Err(RangeInvalid)
  {
    var total := |content|;
    var header := RangeHeaderOf(start, end, total);
    if header.None? {
      assert SliceOf(content, mode, previewLimit, None) == Ok(FileSlice(content, total, None, total));
      WholeIsRequested(content, start, end);
    } else {
      OfferIsParsed(start, end, total);
      HeaderIsServed(content, mode, previewLimit, header.value);
      PartIsRequested(content, start, end);
    }
  }

  lemma {:induction false} PartIsRequested(content: Bytes, start: nat, end: Option<nat>)
    requires RangeHeaderOf(start, end, |content|).Some?
    ensures !(content == [] && start == 0)
    ensures Requested(content, start, end)
         == if start >= |content| || (end.Some? && end.value < start) then None
            else Some(content[start..(if end.Some? then Min(end.value, |content| - 1) else |content| - 1) + 1])
  {
  }

  lemma {:induction false} WholeIsRequested(content: Bytes, start: nat, end: Option<nat>)
    requires |content| <= MAX_DOWNLOAD_BYTES && (end.Some? ==> end.value <= U64_MAX)
    requires RangeHeaderOf(start, end, |content|).None?
    ensures start == 0 && (Requested(content, start, end) == Some(content)
                           || (Requested(content, start, end).None? && content == []))
  {
    assert content[0..|content|] == content;
  }

  lemma {:induction false} HeaderIsServed(content: Bytes, mode: TransferMode, previewLimit: Bytes -> Option<nat>, header: string)
    requires |content| <= MAX_DOWNLOAD_BYTES && MayServe(content, mode, previewLimit)
    ensures var served := SliceOf(content, mode, previewLimit, Some(header));
            match ParseSingleRange(header, |content|)
            case None => served == Err(RangeInvalid)
            case Some(r) => r.start <= r.endInclusive < |content|
                            && served == Ok(FileSlice(content[r.start..r.endInclusive + 1], r.endInclusive + 1 - r.start,
                                                      Some(r), |content|))
  {
    ParsedIsInside(header, |content|);
  }

  /** The header of an offer is read back as the offer, cut off at the end of the file. */
  lemma {:induction false} OfferIsParsed(start: nat, end: Option<nat>, total: nat)
    requires start <= U64_MAX && (end.Some? ==> end.value <= U64_MAX)
    requires RangeHeaderOf(start, end, total).Some?
    ensures ParseSingleRange(RangeHeaderOf(start, end, total).value, total)
         == if start >= total || (end.Some? && end.value < start) then None
            else Some(HttpRange(start, if end.Some? then Min(end.value, total - 1) else total - 1))
  {
    DigitsAreTight(start);
    ParseFormat(start);
    if end.Some? {
      DigitsAreTight(end.value);
      ParseFormat(end.value);
      ParseSpec(Format(start), Format(end.value), total);
    } else {
      ParseSpec(Format(start), "", total);
      assert BYTES + Format(start) + "-" + "" == BYTES + Format(start) + "-";
    }
  }

  /** A range request that no byte of the file satisfies fails exactly if the offer does not start at 0 in
      an empty file. */
  lemma {:induction false} UnsatisfiableFailsExactlyWhen(content: Bytes, start: nat, end: Option<nat>)
    requires start <= U64_MAX && (end.Some? ==> end.value <= U64_MAX)
    requires |content| <= MAX_DOWNLOAD_BYTES && Requested(content, start, end).None?
    ensures SliceOf(content, Download, _ => None, RangeHeaderOf(start, end, |content|)) == Err(RangeInvalid)
            <==> !(start == 0 && content == [])
  {
    OfferIsServedExactly(content, start, end, Download, _ => None);
  }

  /** A whole file is served without a partial answer only if the offer covers it. */
  lemma {:induction false} WholeFileExactlyWhen(start: nat, end: Option<nat>, total: nat)
    requires end.Some? ==> end.value < U64_MAX
    ensures RangeHeaderOf(start, end, total) ==
              if start == 0 && (end.None? || end.value + 1 >= total) then None
              else Some("bytes=" + Format(start) + "-" + if end.Some? then Format(end.value) else "")
  {
    assert BYTES + Format(start) + "-" == "bytes=" + Format(start) + "-" + "";
  }

  /** `-N` serves the last N bytes, all of them if there are fewer. */
  lemma {:induction false} SuffixIsServed(content: Bytes, n: nat)
    requires n <= U64_MAX && |content| <= MAX_DOWNLOAD_BYTES
    ensures var served := SliceOf(content, Download, _ => None, Some("bytes=-" + Format(n)));
            if n == 0 || content == [] then served == Err(RangeInvalid)
            else served.Ok? && served.value.body == content[|content| - Min(n, |content|)..]
  {
    DigitsAreTight(n);
    ParseFormat(n);
    ParseSpec("", Format(n), |content|);
    assert BYTES + "" + "-" + Format(n) == "bytes=-" + Format(n);
  }

  lemma {:induction false} TrimKeepsComma(s: string)
    requires ',' in s
    ensures ',' in Trim(s)
  {
    TrimStartKeepsComma(s);
    TrimEndKeepsComma(TrimStart(s));
  }

  lemma {:induction false} TrimStartKeepsComma(s: string)
    requires ',' in s
    ensures ',' in TrimStart(s)
    decreases |s|
  {
    if IsSpace(s[0]) {
      assert s == [s[0]] + s[1..];
      TrimStartKeepsComma(s[1..]);
    }
  }

  lemma {:induction false} TrimEndKeepsComma(s: string)
    requires ',' in s
    ensures ',' in TrimEnd(s)
    decreases |s|
  {
    if IsSpace(s[|s| - 1]) {
      assert s == s[..|s| - 1] + [s[|s| - 1]];
      TrimEndKeepsComma(s[..|s| - 1]);
    }
  }

  /** Several ranges are refused, never answered with the whole file or the first of them. */
  lemma {:induction false} MultipleRangesRefused(header: string, total: nat)
    requires ',' in header
    ensures ParseSingleRange(header, total).None?
  {
    TrimKeepsComma(header);
    var trimmed := Trim(header);
    if BYTES <= trimmed {
      assert trimmed == BYTES + trimmed[|BYTES|..];
    }
  }
}
