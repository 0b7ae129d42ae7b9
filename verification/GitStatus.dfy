/** The parser of NUL-separated `git status --porcelain=v1 -z` output (apps/bridge/src/git/mod.rs).
    Paths are the bytes between separators. */
module GitStatus {
  import opened Wrappers

  const NUL: bv8 := 0
  const SPACE: bv8 := 0x20
  const RENAMED: bv8 := 0x52
  const COPIED: bv8 := 0x43

  datatype FileEntry = FileEntry(path: Bytes, origPath: Option<Bytes>, indexStatus: bv8, worktreeStatus: bv8)

  datatype GitError = MalformedEntry | UnterminatedPath

  predicate HasOrigPath(indexStatus: bv8) {
    indexStatus == RENAMED || indexStatus == COPIED
  }

  // ---------------------------------------------------------------------------
  // Parsing
  // ---------------------------------------------------------------------------

  /** The field before the first NUL and what follows that NUL. */
  function ReadField(s: Bytes): Option<(Bytes, Bytes)>
    decreases |s|
  {
    if s == [] then None
    else if s[0] == NUL then Some(([], s[1..]))
    else match ReadField(s[1..])
      case None => None
      case Some((field, rest)) => Some(([s[0]] + field, rest))
  }

  function Prepend(entries: seq<FileEntry>, r: Result<seq<FileEntry>, GitError>): Result<seq<FileEntry>, GitError> {
    if r.Ok? then Ok(entries + r.value) else r
  }

  /** One entry and the bytes after it. */
  function ReadEntry(s: Bytes): Result<(FileEntry, Bytes), GitError>
    requires |s| >= 3
  {
    if s[2] != SPACE then Err(MalformedEntry)
    else match ReadField(s[3..])
      case None => Err(UnterminatedPath)
      case Some((path, rest)) =>
        if !HasOrigPath(s[0]) then Ok((FileEntry(path, None, s[0], s[1]), rest))
        else match ReadField(rest)
          case None => Err(UnterminatedPath)
          case Some((orig, rest)) => Ok((FileEntry(path, Some(orig), s[0], s[1]), rest))
  }

  function Parse(s: Bytes): Result<seq<FileEntry>, GitError>
    decreases |s|
  {
    if |s| < 3 then Ok([])
    else match ReadEntry(s)
      case Err(e) => Err(e)
      case Ok((entry, rest)) =>
        ReadEntryShrinks(s);
        Prepend([entry], Parse(rest))
  }

  lemma {:induction false} ReadFieldExact(s: Bytes)
    ensures match ReadField(s)
            case None => NUL !in s
            case Some((field, rest)) => NUL !in field && s == field + [NUL] + rest
    decreases |s|
  {
    if s != [] && s[0] != NUL {
      ReadFieldExact(s[1..]);
    }
  }

  lemma {:induction false} ReadEntryShrinks(s: Bytes)
    requires |s| >= 3
    ensures ReadEntry(s).Ok? ==> |ReadEntry(s).value.1| < |s|
  {
    ReadFieldExact(s[3..]);
    if ReadField(s[3..]).Some? {
      ReadFieldExact(ReadField(s[3..]).value.1);
    }
  }

  method ReadNulField(bytes: Bytes, start: nat) returns (r: Result<(Bytes, nat), GitError>)
    requires start <= |bytes|
    ensures match ReadField(bytes[start..])
            case None => r == Err(UnterminatedPath)
            case Some((field, rest)) => r.Ok? && r.value.0 == field && start < r.value.1 <= |bytes| && bytes[r.value.1..] == rest
  {
    var end := start;
    while end < |bytes| && bytes[end] != NUL
      invariant start <= end <= |bytes|
      invariant NUL !in bytes[start..end]
    {
      assert bytes[start..end + 1] == bytes[start..end] + [bytes[end]];
      end := end + 1;
    }
    if end == |bytes| {
      assert bytes[start..end] == bytes[start..];
      ReadFieldExact(bytes[start..]);
      assert ReadField(bytes[start..]).None?;
      return Err(UnterminatedPath);
    }
    assert bytes[start..] == bytes[start..end] + [NUL] + bytes[end + 1..];
    ReadFieldOf(bytes[start..end], bytes[end + 1..]);
    return Ok((bytes[start..end], end + 1));
  }

  method ParseStatusZ(bytes: Bytes) returns (r: Result<seq<FileEntry>, GitError>)
    ensures r == Parse(bytes)
  {
    var entries: seq<FileEntry> := [];
    var pos: nat := 0;
    assert bytes[pos..] == bytes;
    PrependNone(Parse(bytes));
    while pos + 3 <= |bytes|
      invariant pos <= |bytes|
      invariant Parse(bytes) == Prepend(entries, Parse(bytes[pos..]))
      decreases |bytes| - pos
    {
      ghost var here := bytes[pos..];
      ReadEntryShrinks(here);
      var x, y := bytes[pos], bytes[pos + 1];
      if bytes[pos + 2] != SPACE {
        return Err(MalformedEntry);
      }
      assert here[3..] == bytes[pos + 3..];
      var path := ReadNulField(bytes, pos + 3);
      if path.Err? {
        return Err(path.error);
      }
      pos := path.value.1;
      var origPath := None;
      if x == RENAMED || x == COPIED {
        var orig := ReadNulField(bytes, pos);
        if orig.Err? {
          return Err(orig.error);
        }
        pos := orig.value.1;
        origPath := Some(orig.value.0);
      }
      PrependMore(entries, FileEntry(path.value.0, origPath, x, y), Parse(bytes[pos..]));
      entries := entries + [FileEntry(path.value.0, origPath, x, y)];
    }
    assert entries + [] == entries;
    return Ok(entries);
  }

  lemma {:induction false} PrependMore(entries: seq<FileEntry>, e: FileEntry, r: Result<seq<FileEntry>, GitError>)
    ensures Prepend(entries, Prepend([e], r)) == Prepend(entries + [e], r)
  {
    if r.Ok? {
      assert entries + ([e] + r.value) == (entries + [e]) + r.value;
    }
  }

  lemma {:induction false} PrependNone(r: Result<seq<FileEntry>, GitError>)
    ensures Prepend([], r) == r
  {
    if r.Ok? {
      assert [] + r.value == r.value;
    }
  }

  // ---------------------------------------------------------------------------
  // Printing
  // ---------------------------------------------------------------------------

  /** Paths hold no NUL, and an entry has an old path exactly if its index status is R or C. */
  predicate WellFormed(e: FileEntry) {
    && 0 !in e.path
    && (e.origPath.Some? <==> e.indexStatus == 0x52 || e.indexStatus == 0x43)
    && (e.origPath.Some? ==> 0 !in e.origPath.value)
  }

  function PrintEntry(e: FileEntry): Bytes {
    [e.indexStatus, e.worktreeStatus, 0x20] + e.path + [0] + if e.origPath.Some? then e.origPath.value + [0] else []
  }

  function Print(entries: seq<FileEntry>): Bytes
    decreases |entries|
  {
    if entries == [] then [] else PrintEntry(entries[0]) + Print(entries[1..])
  }

  lemma {:induction false} ReadFieldOf(field: Bytes, rest: Bytes)
    requires NUL !in field
    ensures ReadField(field + [NUL] + rest) == Some((field, rest))
    decreases |field|
  {
    var s := field + [NUL] + rest;
    if field != [] {
      assert s[1..] == field[1..] + [NUL] + rest;
      ReadFieldOf(field[1..], rest);
      assert [field[0]] + field[1..] == field;
    } else {
      assert s[1..] == rest;
    }
  }

  lemma {:induction false} ReadEntryOf(e: FileEntry, rest: Bytes)
    requires WellFormed(e)
    ensures var s := PrintEntry(e) + rest; |s| >= 3 && ReadEntry(s) == Ok((e, rest))
  {
    var s := PrintEntry(e) + rest;
    if e.origPath.Some? {
      var more := e.origPath.value + [NUL] + rest;
      assert s[3..] == e.path + [NUL] + more;
      ReadFieldOf(e.path, more);
      ReadFieldOf(e.origPath.value, rest);
    } else {
      assert s[3..] == e.path + [NUL] + rest;
      ReadFieldOf(e.path, rest);
    }
  }

  /** Printed entries are parsed back whatever follows them. */
  lemma {:induction false} ParsePrint(entries: seq<FileEntry>, rest: Bytes)
    requires forall i :: 0 <= i < |entries| ==> WellFormed(entries[i])
    ensures Parse(Print(entries) + rest) == Prepend(entries, Parse(rest))
    decreases |entries|
  {
    if entries == [] {
      assert Print(entries) + rest == rest;
      PrependNone(Parse(rest));
    } else {
      var e, tail := entries[0], entries[1..];
      assert Print(entries) + rest == PrintEntry(e) + (Print(tail) + rest);
      ReadEntryOf(e, Print(tail) + rest);
      ParsePrint(tail, rest);
      assert entries == [e] + tail;
      if Parse(rest).Ok? {
        assert [e] + (tail + Parse(rest).value) == entries + Parse(rest).value;
      }
    }
  }

  /** Printing and parsing is the identity; up to two bytes may follow the last entry. */
  lemma {:induction false} RoundTrip(entries: seq<FileEntry>, tail: Bytes)
    requires forall i :: 0 <= i < |entries| ==> WellFormed(entries[i])
    requires |tail| < 3
    ensures Parse(Print(entries) + tail) == Ok(entries)
  {
    ParsePrint(entries, tail);
    assert entries + [] == entries;
  }

  lemma {:induction false} ReadEntryExact(s: Bytes)
    requires |s| >= 3
    ensures match ReadEntry(s)
            case Ok((e, rest)) => WellFormed(e) && s == PrintEntry(e) + rest
            case Err(MalformedEntry) => s[2] != SPACE
            case Err(UnterminatedPath) => s[2] == SPACE && Unterminated(s)
  {
    ReadFieldExact(s[3..]);
    if ReadField(s[3..]).Some? {
      var (path, rest) := ReadField(s[3..]).value;
      ReadFieldExact(rest);
      assert s == [s[0], s[1], s[2]] + path + [NUL] + rest;
    }
  }

  /** The entry at the start of `s` lacks the separator after a path it must have. */
  ghost predicate Unterminated(s: Bytes)
    requires |s| >= 3
  {
    NUL !in s[3..]
    || (HasOrigPath(s[0]) && exists path, orig :: s[3..] == path + [NUL] + orig && NUL !in path && NUL !in orig)
  }

  /** Every input is well-formed entries followed by a rest, and the rest decides: fewer than three bytes
      are ignored, three or more start with an entry that is malformed or cut off. The entries before a
      bad one are not reported. */
  lemma {:induction false} ParseExplained(bytes: Bytes) returns (entries: seq<FileEntry>, rest: Bytes)
    ensures bytes == Print(entries) + rest
    ensures forall i :: 0 <= i < |entries| ==> WellFormed(entries[i])
    ensures match Parse(bytes)
            case Ok(parsed) => parsed == entries && |rest| < 3
            case Err(MalformedEntry) => |rest| >= 3 && rest[2] != SPACE
            case Err(UnterminatedPath) => |rest| >= 3 && rest[2] == SPACE && Unterminated(rest)
    decreases |bytes|
  {
    entries, rest := [], bytes;
    if |bytes| >= 3 {
      ReadEntryExact(bytes);
      if ReadEntry(bytes).Ok? {
        var (e, tail) := ReadEntry(bytes).value;
        ReadEntryShrinks(bytes);
        var more;
        more, rest := ParseExplained(tail);
        entries := [e] + more;
        assert entries[1..] == more;
      }
    }
  }
}
