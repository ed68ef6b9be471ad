/** The incremental JSONL scanner of `activity_scan.rs`: one file's refresh. */
module ActivityScan {
  import opened Text
  import opened Json
  import opened ActivityLog
  import opened ActivityFold

  newtype Byte = b: int | 0 <= b < 256
  const NEWLINE: Byte := 10

  /** A provider's reading of its logs. `parse` is `serde_json::from_slice`: `None` for a line that is not JSON. */
  datatype Reader = Reader(format: Format, clock: Clock, parse: seq<Byte> -> Option<Value>)

  datatype Metadata = Metadata(size: nat, mtimeMs: nat)

  /** What one refresh finds at a path: the metadata first, then whatever an open and a read give. */
  datatype Sight =
    | Missing
    | MissingAfterStat(meta: Metadata)
    | Unreadable(meta: Metadata)
    | Seen(meta: Metadata, data: seq<Byte>)

  datatype Error = ScanError | ReadError | CacheWriteError
  datatype Result<+T> = Ok(value: T) | Err(error: Error)

  // Complete lines.

  function NextNewline(data: seq<Byte>, from: nat): (n: nat)
    requires from <= |data|
    ensures from <= n <= |data|
    ensures forall k :: from <= k < n ==> data[k] != NEWLINE
    ensures n < |data| ==> data[n] == NEWLINE
    decreases |data| - from
  {
    if from == |data| || data[from] == NEWLINE then from else NextNewline(data, from + 1)
  }

  /** The newline-terminated lines of `data`, terminators included; an incomplete last line is not one of them. */
  function CompleteLines(data: seq<Byte>): seq<seq<Byte>>
    decreases |data|
  {
    var n := NextNewline(data, 0);
    if n == |data| then [] else [data[..n + 1]] + CompleteLines(data[n + 1..])
  }

  /** Bytes up to and including the last newline. */
  function Boundary(data: seq<Byte>): (n: nat)
    ensures n <= |data|
    ensures n > 0 ==> data[n - 1] == NEWLINE
    ensures forall k :: n <= k < |data| ==> data[k] != NEWLINE
  {
    if data == [] || data[|data| - 1] == NEWLINE then |data| else Boundary(data[..|data| - 1])
  }

  function Glued(lines: seq<seq<Byte>>): seq<Byte> { if lines == [] then [] else lines[0] + Glued(lines[1..]) }

  predicate IsPrefix(head: seq<Byte>, data: seq<Byte>) { |head| <= |data| && data[..|head|] == head }

  lemma LongerPrefix(data: seq<Byte>, n: nat, head: seq<Byte>)
    requires n <= |data| && IsPrefix(head, data[n..])
    ensures IsPrefix(data[..n] + head, data)
    ensures forall k :: n + |head| <= k < |data| ==> data[k] == data[n..][k - n]
  {
    assert data[..n + |head|] == data[..n] + data[n..][..|head|];
  }

  predicate IsLine(line: seq<Byte>) {
    line != [] && line[|line| - 1] == 10 && forall k :: 0 <= k < |line| - 1 ==> line[k] != 10
  }

  lemma {:induction false} CompleteLinesEnd(data: seq<Byte>)
    ensures forall i :: 0 <= i < |CompleteLines(data)| ==> IsLine(CompleteLines(data)[i])
    decreases |data|
  {
    var n := NextNewline(data, 0);
    if n < |data| {
      CompleteLinesEnd(data[n + 1..]);
      assert IsLine(data[..n + 1]);
    }
  }

  /** Complete lines end in a line feed and hold no other; together they are the bytes up to the last one. */
  lemma {:induction false} CompleteLinesAre(data: seq<Byte>)
    ensures forall i :: 0 <= i < |CompleteLines(data)| ==> IsLine(CompleteLines(data)[i])
    ensures IsPrefix(Glued(CompleteLines(data)), data)
    ensures forall k :: |Glued(CompleteLines(data))| <= k < |data| ==> data[k] != 10
    decreases |data|
  {
    var n := NextNewline(data, 0);
    CompleteLinesEnd(data);
    if n < |data| {
      var rest := data[n + 1..];
      CompleteLinesAre(rest);
      assert CompleteLines(data)[1..] == CompleteLines(rest);
      LongerPrefix(data, n + 1, Glued(CompleteLines(rest)));
    }
  }

  predicate EndsLine(data: seq<Byte>) { data == [] || data[|data| - 1] == NEWLINE }

  lemma NextNewlineIs(data: seq<Byte>, n: nat)
    requires n < |data| && data[n] == NEWLINE && forall k :: 0 <= k < n ==> data[k] != NEWLINE
    ensures NextNewline(data, 0) == n
  {
  }

  lemma FirstLine(head: seq<Byte>, rest: seq<Byte>)
    requires head != [] && NextNewline(head, 0) == |head| - 1 && EndsLine(head)
    ensures CompleteLines(head + rest) == [head] + CompleteLines(rest)
  {
    var data, n := head + rest, |head| - 1;
    assert forall k :: 0 <= k <= n ==> data[k] == head[k];
    NextNewlineIs(data, n);
    assert data[..n + 1] == head && data[n + 1..] == rest;
  }

  lemma {:induction false} CompleteLinesConcat(a: seq<Byte>, b: seq<Byte>)
    requires EndsLine(a)
    ensures CompleteLines(a + b) == CompleteLines(a) + CompleteLines(b)
    decreases |a|
  {
    if a == [] {
      assert a + b == b;
    } else {
      var n := NextNewline(a, 0);
      assert n < |a|;
      var head, rest := a[..n + 1], a[n + 1..];
      NextNewlineIs(head, n);
      CutThenAppend(a, b, n + 1);
      FirstLine(head, rest);
      FirstLine(head, rest + b);
      CompleteLinesConcat(rest, b);
      AppendAssoc([head], CompleteLines(rest), CompleteLines(b));
    }
  }

  lemma CutThenAppend(a: seq<Byte>, b: seq<Byte>, n: nat)
    requires n <= |a|
    ensures a == a[..n] + a[n..] && a + b == a[..n] + (a[n..] + b)
  {
  }

  lemma OneLine(line: seq<Byte>)
    requires line != [] && NextNewline(line, 0) == |line| - 1
    ensures CompleteLines(line) == [line]
  {
    var n := |line| - 1;
    assert line[..n + 1] == line && line[n + 1..] == [];
    assert NextNewline(line[n + 1..], 0) == 0;
  }

  lemma BoundaryIs(data: seq<Byte>, n: nat)
    requires n <= |data| && EndsLine(data[..n]) && forall k :: n <= k < |data| ==> data[k] != NEWLINE
    ensures Boundary(data) == n
  {
    var m := Boundary(data);
    assert n > 0 ==> data[..n][n - 1] == data[n - 1];
  }

  lemma NoNewlineNoLines(data: seq<Byte>)
    requires forall k :: 0 <= k < |data| ==> data[k] != NEWLINE
    ensures CompleteLines(data) == []
  {
  }

  /** Nothing past the boundary is a complete line. */
  lemma CompleteLinesOfPrefix(data: seq<Byte>)
    ensures EndsLine(data[..Boundary(data)])
    ensures CompleteLines(data) == CompleteLines(data[..Boundary(data)])
  {
    var n := Boundary(data);
    var rest := data[n..];
    assert forall k :: 0 <= k < |rest| ==> rest[k] == data[n + k];
    NoNewlineNoLines(rest);
    assert data == data[..n] + rest;
    CompleteLinesConcat(data[..n], rest);
  }

  // Records and their fold.

  function Records(reader: Reader, lines: seq<seq<Byte>>): seq<Value> {
    if lines == [] then []
    else
      var record := reader.parse(lines[0]);
      (if record.Some? then [record.value] else []) + Records(reader, lines[1..])
  }

  lemma {:induction false} RecordsConcat(reader: Reader, a: seq<seq<Byte>>, b: seq<seq<Byte>>)
    ensures Records(reader, a + b) == Records(reader, a) + Records(reader, b)
  {
    if a == [] {
      assert a + b == b;
    } else {
      assert (a + b)[1..] == a[1..] + b;
      RecordsConcat(reader, a[1..], b);
    }
  }

  /** `t` after the complete lines of `data`. */
  function Extended(reader: Reader, t: Tally, data: seq<Byte>): Tally {
    Fold(reader.format, reader.clock, t, Records(reader, CompleteLines(data)))
  }

  /** A parse from scratch. */
  function Parsed(reader: Reader, data: seq<Byte>): Tally { Extended(reader, EMPTY, data) }

  lemma ExtendedConcat(reader: Reader, t: Tally, a: seq<Byte>, b: seq<Byte>)
    requires EndsLine(a)
    ensures Extended(reader, t, a + b) == Extended(reader, Extended(reader, t, a), b)
  {
    CompleteLinesConcat(a, b);
    RecordsConcat(reader, CompleteLines(a), CompleteLines(b));
    FoldConcat(reader.format, reader.clock, t, Records(reader, CompleteLines(a)), Records(reader, CompleteLines(b)));
  }

  /** `t` after one complete line, which counts if it parses. */
  function ByLine(reader: Reader, t: Tally, line: seq<Byte>): Tally {
    var record := reader.parse(line);
    if record.Some? then Step(reader.format, reader.clock, t, record.value) else t
  }

  lemma ExtendedByLine(reader: Reader, t: Tally, done: seq<Byte>, line: seq<Byte>)
    requires EndsLine(done) && line != [] && NextNewline(line, 0) == |line| - 1
    ensures Extended(reader, t, done + line) == ByLine(reader, Extended(reader, t, done), line)
  {
    var before, record := Extended(reader, t, done), reader.parse(line);
    ExtendedConcat(reader, t, done, line);
    OneLine(line);
    assert [line][1..] == [];
    assert Records(reader, [line][1..]) == [];
    if record.Some? {
      assert Records(reader, [line]) == [record.value];
      FoldOne(reader.format, reader.clock, before, record.value);
    }
  }

  lemma ExtendedByNothing(reader: Reader, t: Tally, data: seq<Byte>)
    ensures EndsLine(data[..0]) && Extended(reader, t, data[..0]) == t
  {
    assert data[..0] == [] && CompleteLines(data[..0]) == [];
  }

  /** Reading on by one line. */
  lemma ExtendedToNewline(reader: Reader, t: Tally, data: seq<Byte>, at: nat, n: nat)
    requires at <= n < |data| && data[n] == NEWLINE && EndsLine(data[..at])
    requires forall k :: at <= k < n ==> data[k] != NEWLINE
    ensures EndsLine(data[..n + 1])
    ensures Extended(reader, t, data[..n + 1]) == ByLine(reader, Extended(reader, t, data[..at]), data[at..n + 1])
  {
    var line := data[at..n + 1];
    NextNewlineIs(line, n - at);
    ExtendedByLine(reader, t, data[..at], line);
    assert data[..at] + line == data[..n + 1];
  }

  /** Nothing more to read: the rest holds no newline. */
  lemma ExtendedToEnd(reader: Reader, t: Tally, data: seq<Byte>, at: nat)
    requires at <= |data| && EndsLine(data[..at]) && forall k :: at <= k < |data| ==> data[k] != NEWLINE
    ensures Boundary(data) == at && Extended(reader, t, data) == Extended(reader, t, data[..at])
  {
    BoundaryIs(data, at);
    CompleteLinesOfPrefix(data);
  }

  // Refreshing one file.

  datatype Snapshot = Snapshot(consumed: nat, mtimeMs: nat, size: nat, tally: Tally)

  const FROM_SCRATCH := Snapshot(0, 0, 0, EMPTY)

  function Snap(e: FileEntry): Snapshot
    reads e
  {
    Snapshot(e.consumedOffset, e.mtimeMs, e.size, e.Tallied())
  }

  predicate Unchanged(cached: Snapshot, meta: Metadata) {
    cached.consumed == meta.size && cached.mtimeMs == meta.mtimeMs
  }

  /** Whether what was parsed so far still stands: the same file with a tail to retry, or one that grew. */
  predicate Trusted(cached: Snapshot, meta: Metadata) {
    || (cached.size == meta.size && cached.mtimeMs == meta.mtimeMs)
    || (meta.size > cached.size && meta.size > cached.consumed)
  }

  function Start(cached: Option<Snapshot>, meta: Metadata): Snapshot {
    if cached.Some? && Trusted(cached.value, meta) then cached.value else FROM_SCRATCH
  }

  /** Reading on from a snapshot's offset to the end of `data`. */
  function Resume(reader: Reader, start: Snapshot, meta: Metadata, data: seq<Byte>): Snapshot {
    if start.consumed >= |data| then Snapshot(start.consumed, meta.mtimeMs, meta.size, start.tally)
    else
      var tail := data[start.consumed..];
      Snapshot(start.consumed + Boundary(tail), meta.mtimeMs, meta.size, Extended(reader, start.tally, tail))
  }

  function Refreshed(reader: Reader, sight: Sight, cached: Option<Snapshot>): Result<Option<Snapshot>> {
    if sight.Missing? then Ok(None)
    else if cached.Some? && Unchanged(cached.value, sight.meta) then Ok(cached)
    else
      match sight
      case MissingAfterStat(_) => Ok(None)
      case Unreadable(_) => Err(ReadError)
      case Seen(meta, data) => Ok(Some(Resume(reader, Start(cached, meta), meta, data)))
  }

  method CountLine(reader: Reader, line: seq<Byte>, entry: FileEntry)
    modifies entry
    ensures entry.mtimeMs == old(entry.mtimeMs) && entry.size == old(entry.size)
    ensures entry.consumedOffset == old(entry.consumedOffset) + |line|
    ensures entry.Tallied() == ByLine(reader, old(entry.Tallied()), line)
  {
    entry.consumedOffset := entry.consumedOffset + |line|;
    var record := reader.parse(line);
    if record.Some? {
      CountRecord(reader.format, reader.clock, record.value, entry);
    }
  }

  /** Consume every complete line from the entry's offset on. */
  method ReadLines(reader: Reader, data: seq<Byte>, entry: FileEntry)
    modifies entry
    ensures entry.mtimeMs == old(entry.mtimeMs) && entry.size == old(entry.size)
    ensures Snap(entry) == Resume(reader, old(Snap(entry)), Metadata(entry.size, entry.mtimeMs), data)
  {
    if entry.consumedOffset >= |data| {
      return;
    }
    var start := entry.consumedOffset;
    var unread := data[start..];
    ghost var t := entry.Tallied();
    var pos: nat := 0;
    ExtendedByNothing(reader, t, unread);
    while pos < |unread|
      invariant pos <= |unread| && entry.consumedOffset == start + pos
      invariant entry.mtimeMs == old(entry.mtimeMs) && entry.size == old(entry.size)
      invariant EndsLine(unread[..pos]) && entry.Tallied() == Extended(reader, t, unread[..pos])
    {
      var newline := NextNewline(unread, pos);
      if newline == |unread| {
        break;
      }
      ExtendedToNewline(reader, t, unread, pos, newline);
      var line := unread[pos..newline + 1];
      CountLine(reader, line, entry);
      pos := pos + |line|;
    }
    ExtendedToEnd(reader, t, unread, pos);
  }

  function SnapOf(e: FileEntry?): Option<Snapshot>
    reads e
  {
    if e == null then None else Some(Snap(e))
  }

  /** A copy of what is trusted, or an empty entry. */
  method StartingEntry(cached: FileEntry?, meta: Metadata) returns (entry: FileEntry)
    ensures fresh(entry) && Snap(entry) == Start(SnapOf(cached), meta)
  {
    if cached != null && cached.size == meta.size && cached.mtimeMs == meta.mtimeMs {
      entry := new FileEntry.Clone(cached);
    } else if cached != null && meta.size > cached.size && meta.size > cached.consumedOffset {
      entry := new FileEntry.Clone(cached);
    } else {
      entry := new FileEntry.Default();
    }
  }

  method RefreshFile(reader: Reader, sight: Sight, cached: FileEntry?) returns (r: Result<FileEntry?>)
    ensures match Refreshed(reader, sight, SnapOf(cached))
            case Err(e) => r == Err(e)
            case Ok(None) => r == Ok(null)
            case Ok(Some(s)) => r.Ok? && r.value != null && fresh(r.value) && Snap(r.value) == s
  {
    if sight.Missing? {
      return Ok(null);
    }
    var meta := sight.meta;
    if cached != null && cached.consumedOffset == meta.size && cached.mtimeMs == meta.mtimeMs {
      var entry := new FileEntry.Clone(cached);
      return Ok(entry);
    }
    var entry := StartingEntry(cached, meta);
    match sight {
      case MissingAfterStat(_) => return Ok(null);
      case Unreadable(_) => return Err(ReadError);
      case Seen(_, data) =>
        ReadLines(reader, data, entry);
        entry.size := meta.size;
        entry.mtimeMs := meta.mtimeMs;
        return Ok(entry);
    }
  }

  // Incremental equals full.

  predicate IsParseOf(reader: Reader, s: Snapshot, data: seq<Byte>) {
    s.consumed == Boundary(data) && s.tally == Parsed(reader, data)
  }

  lemma ResumeFromScratch(reader: Reader, meta: Metadata, data: seq<Byte>)
    ensures IsParseOf(reader, Resume(reader, FROM_SCRATCH, meta, data), data)
  {
    if data == [] {
      assert CompleteLines(data) == [];
    } else {
      assert data[0..] == data;
    }
  }

  lemma BoundaryConcat(head: seq<Byte>, tail: seq<Byte>)
    requires EndsLine(head)
    ensures Boundary(head + tail) == |head| + Boundary(tail)
  {
    var data, m := head + tail, Boundary(tail);
    assert forall k :: |head| <= k < |data| ==> data[k] == tail[k - |head|];
    assert data[..|head| + m] == head + tail[..m];
    BoundaryIs(data, |head| + m);
  }

  /** Resuming a parse of `before` on a file that extends it gives the parse of the whole file. */
  lemma ResumeIsParse(reader: Reader, s: Snapshot, meta: Metadata, before: seq<Byte>, data: seq<Byte>)
    requires IsParseOf(reader, s, before) && before <= data
    ensures IsParseOf(reader, Resume(reader, s, meta, data), data)
  {
    var n := Boundary(before);
    var head, tail := data[..n], data[n..];
    assert head == before[..n] && data == head + tail;
    assert EndsLine(head) && s.tally == Extended(reader, EMPTY, head) by {
      CompleteLinesOfPrefix(before);
    }
    ExtendedConcat(reader, EMPTY, head, tail);
    BoundaryConcat(head, tail);
    if tail == [] {
      assert data == head;
    }
  }

  /** One successful look at a file: its metadata, and the bytes the read then finds. */
  datatype Observation = Observation(meta: Metadata, data: seq<Byte>)

  /** Between the stat and the read a log can only grow. */
  predicate WellTimed(ob: Observation) { ob.meta.size <= |ob.data| }

  /** The file was appended to, and nothing else. */
  predicate Appended(prev: Observation, next: Observation) {
    prev.data <= next.data && |prev.data| <= next.meta.size
  }

  /** The file was replaced, its clock moved, and it is no longer than it was recorded to be. */
  predicate DetectableRewrite(prev: Observation, next: Observation) {
    prev.meta.mtimeMs != next.meta.mtimeMs && next.meta.size <= prev.meta.size
  }

  /** The snapshot is a parse of what was read or, where metadata alone settled it, of what the metadata measured. */
  predicate Current(reader: Reader, s: Snapshot, ob: Observation) {
    && s.mtimeMs == ob.meta.mtimeMs && WellTimed(ob)
    && (|| (s.size == ob.meta.size && IsParseOf(reader, s, ob.data))
        || (s.size <= ob.meta.size == s.consumed && IsParseOf(reader, s, ob.data[..ob.meta.size])))
  }

  lemma FirstLookIsCurrent(reader: Reader, ob: Observation)
    requires WellTimed(ob)
    ensures var r := Refreshed(reader, Seen(ob.meta, ob.data), None);
            r.Ok? && r.value.Some? && Current(reader, r.value.value, ob)
  {
    ResumeFromScratch(reader, ob.meta, ob.data);
  }

  /** What the snapshot parsed is a prefix of what was read. */
  lemma CurrentParsesPrefix(reader: Reader, s: Snapshot, ob: Observation) returns (c: seq<Byte>)
    requires Current(reader, s, ob)
    ensures c <= ob.data && ob.meta.size <= |c| && IsParseOf(reader, s, c) && s.consumed <= |c|
  {
    c := if IsParseOf(reader, s, ob.data) then ob.data else ob.data[..ob.meta.size];
  }

  lemma RewrittenLookIsCurrent(reader: Reader, s: Snapshot, prev: Observation, next: Observation)
    requires Current(reader, s, prev) && WellTimed(next) && DetectableRewrite(prev, next)
    ensures var r := Refreshed(reader, Seen(next.meta, next.data), Some(s));
            r.Ok? && r.value.Some? && Current(reader, r.value.value, next)
  {
    var c := CurrentParsesPrefix(reader, s, prev);
    assert !Unchanged(s, next.meta) && !Trusted(s, next.meta);
    ResumeFromScratch(reader, next.meta, next.data);
  }

  lemma AppendedLookIsCurrent(reader: Reader, s: Snapshot, prev: Observation, next: Observation)
    requires Current(reader, s, prev) && WellTimed(next) && Appended(prev, next)
    ensures var r := Refreshed(reader, Seen(next.meta, next.data), Some(s));
            r.Ok? && r.value.Some? && Current(reader, r.value.value, next)
  {
    var c := CurrentParsesPrefix(reader, s, prev);
    if Unchanged(s, next.meta) {
      assert c == next.data[..next.meta.size];
    } else {
      assert c <= next.data;
      ResumeFromScratch(reader, next.meta, next.data);
      ResumeIsParse(reader, s, next.meta, c, next.data);
    }
  }

  lemma NextLookIsCurrent(reader: Reader, s: Snapshot, prev: Observation, next: Observation)
    requires Current(reader, s, prev) && WellTimed(next)
    requires Appended(prev, next) || DetectableRewrite(prev, next)
    ensures var r := Refreshed(reader, Seen(next.meta, next.data), Some(s));
            r.Ok? && r.value.Some? && Current(reader, r.value.value, next)
  {
    if DetectableRewrite(prev, next) {
      RewrittenLookIsCurrent(reader, s, prev, next);
    } else {
      AppendedLookIsCurrent(reader, s, prev, next);
    }
  }

  /** Successive looks at one file, each refreshing the entry the last one left. */
  function Chained(reader: Reader, looks: seq<Observation>): Option<Snapshot> {
    if looks == [] then None
    else
      var last := looks[|looks| - 1];
      var r := Refreshed(reader, Seen(last.meta, last.data), Chained(reader, looks[..|looks| - 1]));
      if r.Ok? then r.value else None
  }

  ghost predicate IsHistory(looks: seq<Observation>) {
    && (forall i :: 0 <= i < |looks| ==> WellTimed(looks[i]))
    && (forall i :: 0 < i < |looks| ==> Appended(looks[i - 1], looks[i]) || DetectableRewrite(looks[i - 1], looks[i]))
  }

  lemma {:induction false} ChainIsCurrent(reader: Reader, looks: seq<Observation>)
    requires looks != [] && IsHistory(looks)
    ensures var s := Chained(reader, looks);
            s.Some? && Current(reader, s.value, looks[|looks| - 1])
    decreases |looks|
  {
    var n := |looks| - 1;
    if n == 0 {
      assert looks[..0] == [];
      FirstLookIsCurrent(reader, looks[0]);
    } else {
      ChainIsCurrent(reader, looks[..n]);
      NextLookIsCurrent(reader, Chained(reader, looks[..n]).value, looks[n - 1], looks[n]);
    }
  }

  /**
   * Incremental scanning refines a full parse: however the file was appended to and looked at,
   * and through any detectable rewrite, a look that finds the file at rest leaves the entry
   * exactly as one parse from scratch would.
   */
  lemma IncrementalIsFull(reader: Reader, looks: seq<Observation>)
    requires looks != [] && IsHistory(looks)
    requires var last := looks[|looks| - 1]; last.meta.size == |last.data|
    ensures var data, s := looks[|looks| - 1].data, Chained(reader, looks);
            s.Some? && s.value.consumed == Boundary(data) && s.value.tally == Parsed(reader, data)
  {
    ChainIsCurrent(reader, looks);
    var last := looks[|looks| - 1];
    assert last.data[..last.meta.size] == last.data;
  }

  /**
   * A moved clock on a file that did not outgrow its recorded size forces a parse from the first
   * byte, whatever was cached.
   */
  lemma MovedClockReparses(reader: Reader, cached: Snapshot, meta: Metadata, data: seq<Byte>)
    requires cached.mtimeMs != meta.mtimeMs && meta.size <= cached.size
    ensures var r := Refreshed(reader, Seen(meta, data), Some(cached));
            r.Ok? && r.value.Some? && IsParseOf(reader, r.value.value, data) && r.value.value.size == meta.size
  {
    ResumeFromScratch(reader, meta, data);
  }

  lemma NoNewlineParses(reader: Reader, data: seq<Byte>)
    requires forall k :: 0 <= k < |data| ==> data[k] != NEWLINE
    ensures Boundary(data) == 0 && Parsed(reader, data) == EMPTY
  {
    assert data[..0] == [] && CompleteLines(data[..0]) == [];
    ExtendedToEnd(reader, EMPTY, data, 0);
  }

  /**
   * The blind spot: a rewrite that also makes the file longer passes for growth. The replaced
   * bytes are never read and the offset is no longer a line boundary of the file.
   */
  lemma RewriteByGrowthGoesUnseen(reader: Reader)
    ensures var prev, next := Observation(Metadata(2, 1), [65, NEWLINE]), Observation(Metadata(3, 2), [66, 66, 66]);
            var s := Chained(reader, [prev, next]);
            s.Some? && s.value.consumed == 2 && Boundary(next.data) == 0
  {
    var prev, next := Observation(Metadata(2, 1), [65, NEWLINE]), Observation(Metadata(3, 2), [66, 66, 66]);
    assert [prev, next][..1] == [prev] && [prev][..0] == [];
    BoundaryIs(prev.data, 2);
    var first := Resume(reader, FROM_SCRATCH, prev.meta, prev.data);
    assert prev.data[0..] == prev.data;
    assert first.consumed == 2 && first.size == 2;
    assert Refreshed(reader, Seen(prev.meta, prev.data), None) == Ok(Some(first));
    assert Chained(reader, [prev]) == Some(first);
    assert Refreshed(reader, Seen(next.meta, next.data), Some(first))
        == Ok(Some(Resume(reader, first, next.meta, next.data)));
    NoNewlineParses(reader, next.data[2..]);
    NoNewlineParses(reader, next.data);
  }

  /** A file whose end was reached and whose clock stands still is not read: its entry stands. */
  lemma NothingNewIsNotRead(reader: Reader, cached: Snapshot, sight: Sight)
    requires !sight.Missing? && cached.consumed == sight.meta.size && cached.mtimeMs == sight.meta.mtimeMs
    ensures Refreshed(reader, sight, Some(cached)) == Ok(Some(cached))
  {
  }

  lemma TailResumes(reader: Reader, s: Snapshot, meta: Metadata, head: seq<Byte>, tail: seq<Byte>)
    requires |head| == s.consumed
    ensures Resume(reader, s, meta, head + tail)
         == Snapshot(s.consumed + Boundary(tail), meta.mtimeMs, meta.size, Extended(reader, s.tally, tail))
  {
    if tail == [] {
      ExtendedByNothing(reader, s.tally, tail);
      assert tail[..0] == tail;
    } else {
      assert (head + tail)[|head|..] == tail;
    }
  }

  /**
   * A file that has an unfinished line, or that grew, is read on from the offset and nowhere else:
   * what stands before it makes no difference.
   */
  lemma OnlyTheTailIsRead(reader: Reader, cached: Snapshot, meta: Metadata, head: seq<Byte>, tail: seq<Byte>)
    requires |head| == cached.consumed && !(cached.consumed == meta.size && cached.mtimeMs == meta.mtimeMs)
    requires (cached.size == meta.size && cached.mtimeMs == meta.mtimeMs)
             || (meta.size > cached.size && meta.size > cached.consumed)
    ensures Refreshed(reader, Seen(meta, head + tail), Some(cached))
         == Ok(Some(Snapshot(cached.consumed + Boundary(tail), meta.mtimeMs, meta.size,
                             Extended(reader, cached.tally, tail))))
  {
    TailResumes(reader, cached, meta, head, tail);
  }

  /** A file that vanishes loses its entry, one that cannot be read fails the scan, unless there was nothing to read. */
  lemma NothingReadIsNoEntry(reader: Reader, cached: Option<Snapshot>, meta: Metadata)
    requires cached.Some? ==> !(cached.value.consumed == meta.size && cached.value.mtimeMs == meta.mtimeMs)
    ensures Refreshed(reader, Missing, cached) == Refreshed(reader, MissingAfterStat(meta), cached) == Ok(None)
    ensures Refreshed(reader, Unreadable(meta), cached) == Err(ReadError)
  {
  }

  /**
   * Exactly when a refresh is right about a file it knows nothing about: the metadata was not
   * trusted, or nothing had been consumed to trust.
   */
  lemma ExactWhateverTheBytesIff(reader: Reader, s: Snapshot, meta: Metadata)
    ensures (forall data: seq<Byte> :: |data| == meta.size ==>
               var r := Refreshed(reader, Seen(meta, data), Some(s));
               r.Ok? && r.value.Some? && IsParseOf(reader, r.value.value, data))
            <==> (&& !(s.consumed == meta.size && s.mtimeMs == meta.mtimeMs)
                  && !(s.size == meta.size && s.mtimeMs == meta.mtimeMs)
                  && !(meta.size > s.size && meta.size > s.consumed))
                 || (s.consumed == 0 && s.tally == EMPTY)
  {
    if (!Unchanged(s, meta) && !Trusted(s, meta)) || (s.consumed == 0 && s.tally == EMPTY) {
      forall data: seq<Byte> | |data| == meta.size
        ensures var r := Refreshed(reader, Seen(meta, data), Some(s));
                r.Ok? && r.value.Some? && IsParseOf(reader, r.value.value, data)
      {
        ResumeFromScratch(reader, meta, data);
        if data == [] {
          NoNewlineParses(reader, data);
        }
      }
    } else {
      var data: seq<Byte> := seq(meta.size, _ => 65);
      NoNewlineParses(reader, data);
      if s.consumed < |data| {
        NoNewlineResumes(reader, s, meta, data);
      }
    }
  }

  lemma NoNewlineResumes(reader: Reader, s: Snapshot, meta: Metadata, data: seq<Byte>)
    requires forall k :: 0 <= k < |data| ==> data[k] != NEWLINE
    ensures var r := Resume(reader, s, meta, data); r.consumed == s.consumed && r.tally == s.tally
  {
    if s.consumed < |data| {
      var tail := data[s.consumed..];
      assert tail[..0] == [] && CompleteLines(tail[..0]) == [];
      ExtendedToEnd(reader, s.tally, tail, 0);
    }
  }
}
