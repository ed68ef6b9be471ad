/** The whole scan of `activity_scan.rs`: refreshing every listed log, and adding the files up. */
module ActivityTotals {
  import opened Text
  import opened ActivityLog
  import opened ActivityFold
  import opened ActivityScan
  import opened Order

  datatype DayActivity = DayActivity(date: string, counts: DayCounts)

  datatype SessionSummary = SessionSummary(
    sessionId: string,
    cwd: string,
    title: Option<string>,
    promptPreview: Option<string>,
    gitBranch: Option<string>,
    lastActiveMs: nat)

  datatype ActivityStats = ActivityStats(daily: seq<DayActivity>, recentSessions: seq<SessionSummary>)

  // Aggregation.

  function Plus(a: DayCounts, b: DayCounts): DayCounts { DayCounts(a.turns + b.turns, a.tokens + b.tokens) }

  function Total(counts: seq<DayCounts>): DayCounts {
    if counts == [] then DayCounts(0, 0) else Plus(Total(counts[..|counts| - 1]), counts[|counts| - 1])
  }

  lemma TotalSnoc(counts: seq<DayCounts>, last: DayCounts)
    ensures Total([]) == DayCounts(0, 0)
    ensures Total(counts + [last])
         == DayCounts(Total(counts).turns + last.turns, Total(counts).tokens + last.tokens)
  {
    assert (counts + [last])[..|counts|] == counts;
  }

  /** One date over the listed files. */
  function SumDay(files: map<string, Tally>, keys: seq<string>, date: string): DayCounts
    requires ListedIn(keys, files)
  {
    Total(seq(|keys|, i requires 0 <= i < |keys| => DayOf(files[keys[i]], date)))
  }

  predicate ListedIn<T>(keys: seq<string>, files: map<string, T>) { forall i :: 0 <= i < |keys| ==> keys[i] in files }

  function SummaryOf(t: Tally): seq<SessionSummary> {
    if t.sessionId.Some? && t.cwd.Some? && t.lastActiveMs.Some? then
      [SessionSummary(t.sessionId.value, t.cwd.value, t.title, t.promptPreview, t.gitBranch,
                      if t.lastActiveMs.value > 0 then t.lastActiveMs.value else 0)]
    else []
  }

  function Summaries(files: map<string, Tally>, keys: seq<string>): seq<SessionSummary>
    requires ListedIn(keys, files)
  {
    if keys == [] then []
    else
      var n := |keys| - 1;
      Summaries(files, keys[..n]) + SummaryOf(files[keys[n]])
  }

  /** A file whose session can be shown: it has an id, a directory and a last activity. */
  predicate Complete(t: Tally) { t.sessionId.Some? && t.cwd.Some? && t.lastActiveMs.Some? }

  /** A file's summary repeats its fields; a time before the epoch counts as the epoch. */
  predicate Summarizes(s: SessionSummary, t: Tally) {
    && Complete(t)
    && s.sessionId == t.sessionId.value && s.cwd == t.cwd.value
    && s.title == t.title && s.promptPreview == t.promptPreview && s.gitBranch == t.gitBranch
    && s.lastActiveMs >= 0 && s.lastActiveMs >= t.lastActiveMs.value
    && (s.lastActiveMs == 0 || s.lastActiveMs == t.lastActiveMs.value)
  }

  predicate SummaryFor(files: map<string, Tally>, path: string, s: SessionSummary) {
    path in files && Summarizes(s, files[path])
  }

  /** `summaries` are one each of the complete files among `keys`, in their order, which `shown` lists. */
  ghost predicate AreSummaries(
        files: map<string, Tally>, keys: seq<string>, summaries: seq<SessionSummary>, shown: seq<string>) {
    && Ascending(shown) && |shown| == |summaries|
    && (forall p :: p in shown <==> p in keys && p in files && Complete(files[p]))
    && (forall i :: 0 <= i < |shown| ==> SummaryFor(files, shown[i], summaries[i]))
  }

  lemma OneMoreSummary(
        files: map<string, Tally>, keys: seq<string>, last: string, summaries: seq<SessionSummary>, shown: seq<string>)
    requires AreSummaries(files, keys, summaries, shown) && Ascending(keys + [last]) && last in files
    ensures AreSummaries(files, keys + [last], summaries + SummaryOf(files[last]),
                         shown + if Complete(files[last]) then [last] else [])
  {
    var all := keys + [last];
    assert forall p :: p in all <==> p in keys || p == last;
    assert all[|keys|] == last;
    if Complete(files[last]) {
      forall i | 0 <= i < |shown| ensures Less(shown[i], last) {
        assert shown[i] in keys;
        var k :| 0 <= k < |keys| && keys[k] == shown[i];
        assert all[k] == shown[i];
      }
    } else {
      assert summaries + [] == summaries && shown + [] == shown;
    }
  }

  lemma {:induction false} SummariesMean(files: map<string, Tally>, keys: seq<string>) returns (shown: seq<string>)
    requires ListedIn(keys, files) && Ascending(keys)
    ensures AreSummaries(files, keys, Summaries(files, keys), shown)
  {
    shown := [];
    if keys != [] {
      var n := |keys| - 1;
      shown := SummariesMean(files, keys[..n]);
      SplitLast(keys);
      OneMoreSummary(files, keys[..n], keys[n], Summaries(files, keys[..n]), shown);
      shown := shown + if Complete(files[keys[n]]) then [keys[n]] else [];
    }
  }

  /** The recent sessions are one summary each of the complete files, in the order of their paths, and of no other. */
  lemma RecentSessionsMean(files: map<string, Tally>, stats: ActivityStats) returns (shown: seq<string>)
    requires IsAggregate(files, stats)
    ensures Ascending(shown) && |shown| == |stats.recentSessions|
    ensures forall p :: p in shown <==> p in files && Complete(files[p])
    ensures forall i :: 0 <= i < |shown| ==> SummaryFor(files, shown[i], stats.recentSessions[i])
  {
    var keys :| Lists(keys, files) && IsAggregateIn(files, keys, stats);
    assert forall p :: p in keys <==> p in Elements(keys);
    shown := SummariesMean(files, keys);
  }

  predicate Lists(keys: seq<string>, files: map<string, Tally>) { Ascending(keys) && Elements(keys) == files.Keys }

  function Dates(daily: seq<DayActivity>): seq<string> {
    seq(|daily|, i requires 0 <= i < |daily| => daily[i].date)
  }

  /**
   * What the statistics of a set of files are: dates strictly ascending, exactly those some file
   * lists, each with the sums over all files; and one summary per complete session.
   */
  ghost predicate IsAggregate(files: map<string, Tally>, stats: ActivityStats) {
    exists keys :: Lists(keys, files) && IsAggregateIn(files, keys, stats)
  }

  ghost predicate IsAggregateIn(files: map<string, Tally>, keys: seq<string>, stats: ActivityStats) {
    && ListedIn(keys, files)
    && Ascending(Dates(stats.daily))
    && (forall date :: date in Dates(stats.daily) <==> exists k :: k in files && date in files[k].days)
    && (forall i :: 0 <= i < |stats.daily| ==> stats.daily[i].counts == SumDay(files, keys, stats.daily[i].date))
    && stats.recentSessions == Summaries(files, keys)
  }

  lemma ListsAreIn(keys: seq<string>, files: map<string, Tally>)
    requires Lists(keys, files)
    ensures ListedIn(keys, files)
  {
    assert forall k :: k in keys ==> k in Elements(keys);
  }

  function DayIn(perDay: map<string, DayCounts>, date: string): DayCounts {
    if date in perDay then perDay[date] else DayCounts(0, 0)
  }

  /** `perDay` after one file: every listed date has grown by that file's counts. */
  ghost predicate AddedFile(
        before: map<string, DayCounts>, days: map<string, DayCounts>, after: map<string, DayCounts>) {
    && after.Keys == before.Keys + days.Keys
    && (forall date :: date in after ==> after[date] == Plus(DayIn(before, date), DayIn(days, date)))
  }

  method AddFile(perDay: map<string, DayCounts>, days: map<string, DayCounts>) returns (after: map<string, DayCounts>)
    ensures AddedFile(perDay, days, after)
  {
    after := perDay;
    var rest := days.Keys;
    while rest != {}
      invariant rest <= days.Keys
      invariant after.Keys == perDay.Keys + (days.Keys - rest)
      invariant forall date :: date in after ==>
                  after[date] == if date in rest then DayIn(perDay, date)
                  else Plus(DayIn(perDay, date), DayIn(days, date))
      decreases rest
    {
      var date :| date in rest;
      var day := DayIn(after, date);
      after := after[date := DayCounts(day.turns + days[date].turns, day.tokens + days[date].tokens)];
      rest := rest - {date};
    }
  }

  function Tallies(files: map<string, FileEntry>): map<string, Tally>
    reads files.Values
  {
    map k | k in files :: files[k].Tallied()
  }

  /** `perDay` holds the sums over `keys` of every date some file lists, and no other. */
  ghost predicate HoldsSums(files: map<string, Tally>, keys: seq<string>, perDay: map<string, DayCounts>)
    requires ListedIn(keys, files)
  {
    && (forall date :: DayIn(perDay, date) == SumDay(files, keys, date))
    && (forall date :: date in perDay <==> exists k :: k in keys && date in files[k].days)
  }

  lemma OneMoreFile(
        files: map<string, Tally>, order: seq<string>, i: nat, before: map<string, DayCounts>,
        after: map<string, DayCounts>)
    requires i < |order| && ListedIn(order, files)
    requires HoldsSums(files, order[..i], before) && AddedFile(before, files[order[i]].days, after)
    ensures HoldsSums(files, order[..i + 1], after)
    ensures Summaries(files, order[..i + 1]) == Summaries(files, order[..i]) + SummaryOf(files[order[i]])
  {
    assert order[..i + 1] == order[..i] + [order[i]];
    SumSnoc(files, order[..i], order[i], "");
    SumsGrow(files, order[..i], order[i], before, after);
  }

  method AddUp(files: map<string, FileEntry>, order: seq<string>)
    returns (perDay: map<string, DayCounts>, recentSessions: seq<SessionSummary>)
    requires ListedIn(order, Tallies(files))
    ensures HoldsSums(Tallies(files), order, perDay)
    ensures recentSessions == Summaries(Tallies(files), order)
  {
    ghost var tallies := Tallies(files);
    perDay, recentSessions := map[], [];
    for i := 0 to |order|
      invariant HoldsSums(tallies, order[..i], perDay)
      invariant recentSessions == Summaries(tallies, order[..i])
    {
      var entry := files[order[i]];
      ghost var before := perDay;
      perDay := AddFile(perDay, entry.days);
      OneMoreFile(tallies, order, i, before, perDay);
      recentSessions := recentSessions + SummaryOf(entry.Tallied());
    }
    assert order[..|order|] == order;
  }

  method Aggregate(files: map<string, FileEntry>) returns (stats: ActivityStats)
    ensures IsAggregate(Tallies(files), stats)
  {
    var order := SortKeys(files.Keys);
    ListsAreIn(order, Tallies(files));
    var perDay, recentSessions := AddUp(files, order);
    var dates := SortKeys(perDay.Keys);
    InElements(dates);
    var daily := seq(|dates|,
      i requires 0 <= i < |dates| && dates[i] in perDay => DayActivity(dates[i], perDay[dates[i]]));
    assert Dates(daily) == dates;
    stats := ActivityStats(daily, recentSessions);
    DailyIsAggregate(Tallies(files), order, perDay, stats);
  }

  lemma InElements(keys: seq<string>)
    ensures forall k :: k in keys <==> k in Elements(keys)
  {
  }

  lemma DailyIsAggregate(
        files: map<string, Tally>, keys: seq<string>, perDay: map<string, DayCounts>, stats: ActivityStats)
    requires Lists(keys, files) && ListedIn(keys, files) && HoldsSums(files, keys, perDay)
    requires Ascending(Dates(stats.daily)) && Elements(Dates(stats.daily)) == perDay.Keys
    requires forall i :: 0 <= i < |stats.daily| ==>
               stats.daily[i].date in perDay && stats.daily[i].counts == perDay[stats.daily[i].date]
    requires stats.recentSessions == Summaries(files, keys)
    ensures IsAggregateIn(files, keys, stats)
  {
    InElements(keys);
    InElements(Dates(stats.daily));
    forall i | 0 <= i < |stats.daily|
      ensures stats.daily[i].counts == SumDay(files, keys, stats.daily[i].date)
    {
      assert stats.daily[i].counts == DayIn(perDay, stats.daily[i].date);
    }
  }

  lemma SameDates(a: seq<DayActivity>, b: seq<DayActivity>)
    requires Ascending(Dates(a)) && Ascending(Dates(b))
    requires forall date :: date in Dates(a) <==> date in Dates(b)
    ensures |a| == |b| && forall i :: 0 <= i < |a| ==> a[i].date == b[i].date
  {
    InElements(Dates(a));
    InElements(Dates(b));
    assert Elements(Dates(a)) == Elements(Dates(b));
    AscendingUnique(Dates(a), Dates(b));
    assert forall i :: 0 <= i < |a| ==> a[i].date == Dates(a)[i] == Dates(b)[i] == b[i].date;
  }

  /** A set of files has one aggregate: the order of the walk over it is no choice. */
  lemma AggregateUnique(files: map<string, Tally>, a: ActivityStats, b: ActivityStats)
    requires IsAggregate(files, a) && IsAggregate(files, b)
    ensures a == b
  {
    var k :| Lists(k, files) && IsAggregateIn(files, k, a);
    var l :| Lists(l, files) && IsAggregateIn(files, l, b);
    AscendingUnique(k, l);
    SameDates(a.daily, b.daily);
    assert a.daily == b.daily;
  }

  lemma SumSnoc(files: map<string, Tally>, init: seq<string>, last: string, date: string)
    requires ListedIn(init, files) && last in files
    ensures SumDay(files, init + [last], date) == Plus(SumDay(files, init, date), DayOf(files[last], date))
    ensures Summaries(files, init + [last]) == Summaries(files, init) + SummaryOf(files[last])
  {
    assert (init + [last])[..|init|] == init;
    var counts := seq(|init|, i requires 0 <= i < |init| => DayOf(files[init[i]], date));
    var all := seq(|init| + 1, i requires 0 <= i < |init| + 1 => DayOf(files[(init + [last])[i]], date));
    assert all == counts + [DayOf(files[last], date)];
    assert all[..|init|] == counts;
  }

  lemma SumsGrow(
        files: map<string, Tally>, init: seq<string>, last: string, before: map<string, DayCounts>,
        after: map<string, DayCounts>)
    requires ListedIn(init, files) && last in files && HoldsSums(files, init, before)
    requires AddedFile(before, files[last].days, after)
    ensures HoldsSums(files, init + [last], after)
  {
    var all := init + [last];
    forall date ensures DayIn(after, date) == SumDay(files, all, date) {
      SumSnoc(files, init, last, date);
      assert DayIn(before, date) == SumDay(files, init, date);
    }
    forall date ensures date in after <==> exists k :: k in all && date in files[k].days {
      assert date in before <==> exists k :: k in init && date in files[k].days;
      assert last in all;
    }
  }

  // One call.

  /** The cache file: what it was written for, and its entries. */
  datatype Stored<Files> = Stored(version: nat, files: Files)

  function CacheVersion(format: Format): nat { match format case Claude => 4 case Codex => 3 }

  /** Anything but a readable cache of the current version counts as no cache. */
  function Loaded<E>(format: Format, stored: Option<Stored<map<string, E>>>): map<string, E> {
    if stored.Some? && stored.value.version == CacheVersion(format) then stored.value.files else map[]
  }

  /** A cache file counts if it was written by this version of the format, and else not at all. */
  lemma LoadedIs<E>(stored: Option<Stored<map<string, E>>>)
    ensures Loaded(Claude, stored) == if stored.Some? && stored.value.version == 4 then stored.value.files else map[]
    ensures Loaded(Codex, stored) == if stored.Some? && stored.value.version == 3 then stored.value.files else map[]
  {
  }

  function SightOf(disk: map<string, Sight>, path: string): Sight {
    if path in disk then disk[path] else Missing
  }

  function Lookup(cached: map<string, Snapshot>, path: string): Option<Snapshot> {
    if path in cached then Some(cached[path]) else None
  }

  /** The cache under construction after one more log. */
  function WithRefreshed(
        files: map<string, Snapshot>, path: string,
        refreshed: Result<Option<Snapshot>>): Result<map<string, Snapshot>> {
    match refreshed
    case Err(e) => Err(e)
    case Ok(None) => Ok(files)
    case Ok(Some(s)) => Ok(files[path := s])
  }

  /** The new cache: every listed log refreshed against its old entry; a vanished one drops out. */
  function Updated(reader: Reader, cached: map<string, Snapshot>, logs: seq<string>, disk: map<string, Sight>)
    : Result<map<string, Snapshot>>
  {
    if logs == [] then Ok(map[])
    else
      var n := |logs| - 1;
      match Updated(reader, cached, logs[..n], disk)
      case Err(e) => Err(e)
      case Ok(files) =>
        WithRefreshed(files, logs[n], Refreshed(reader, SightOf(disk, logs[n]), Lookup(cached, logs[n])))
  }

  function Snaps(files: map<string, FileEntry>): map<string, Snapshot>
    reads files.Values
  {
    map k | k in files :: Snap(files[k])
  }

  lemma SnapsWith(files: map<string, FileEntry>, path: string, entry: FileEntry)
    ensures Snaps(files[path := entry]) == Snaps(files)[path := Snap(entry)]
  {
  }

  method RefreshInto(
        reader: Reader, cached: map<string, FileEntry>, path: string, sight: Sight, files: map<string, FileEntry>)
    returns (r: Result<map<string, FileEntry>>)
    ensures match WithRefreshed(Snaps(files), path, Refreshed(reader, sight, Lookup(Snaps(cached), path)))
            case Err(e) => r == Err(e)
            case Ok(snaps) => r.Ok? && Snaps(r.value) == snaps
  {
    var refreshed := RefreshFile(reader, sight, if path in cached then cached[path] else null);
    if refreshed.Err? {
      return Err(refreshed.error);
    }
    if refreshed.value == null {
      return Ok(files);
    }
    SnapsWith(files, path, refreshed.value);
    r := Ok(files[path := refreshed.value]);
  }

  method RefreshAll(reader: Reader, cached: map<string, FileEntry>, logs: seq<string>, disk: map<string, Sight>)
    returns (r: Result<map<string, FileEntry>>)
    ensures match Updated(reader, Snaps(cached), logs, disk)
            case Err(e) => r == Err(e)
            case Ok(files) => r.Ok? && Snaps(r.value) == files
  {
    var files: map<string, FileEntry> := map[];
    for i := 0 to |logs|
      invariant Updated(reader, Snaps(cached), logs[..i], disk) == Ok(Snaps(files))
    {
      assert logs[..i + 1][..i] == logs[..i];
      var next := RefreshInto(reader, cached, logs[i], SightOf(disk, logs[i]), files);
      if next.Err? {
        UpdatedStopsAtError(reader, Snaps(cached), logs, disk, i + 1);
        return next;
      }
      files := next.value;
    }
    assert logs[..|logs|] == logs;
    r := Ok(files);
  }

  lemma {:induction false} UpdatedStopsAtError(
      reader: Reader, cached: map<string, Snapshot>, logs: seq<string>, disk: map<string, Sight>, i: nat)
    requires i <= |logs| && Updated(reader, cached, logs[..i], disk).Err?
    ensures Updated(reader, cached, logs, disk) == Updated(reader, cached, logs[..i], disk)
    decreases |logs|
  {
    if i == |logs| {
      assert logs[..i] == logs;
    } else {
      var n := |logs| - 1;
      assert logs[..n][..i] == logs[..i];
      UpdatedStopsAtError(reader, cached, logs[..n], disk, i);
    }
  }

  // Whole runs.

  datatype Call = Call(logs: seq<string>, disk: map<string, Sight>, writable: bool)

  /** The saved cache, and beside it the last look each of its entries rests on. */
  datatype Ledger = Ledger(cache: map<string, Snapshot>, seen: map<string, Observation>)

  function AfterCall(reader: Reader, before: Ledger, call: Call): Ledger {
    match Updated(reader, before.cache, call.logs, call.disk)
    case Err(_) => before
    case Ok(cache) =>
      if !call.writable then before
      else Ledger(cache, map p | p in cache :: LookOf(before, call, p))
  }

  function LookOf(before: Ledger, call: Call, p: string): Observation {
    match SightOf(call.disk, p)
    case Seen(meta, data) => Observation(meta, data)
    case _ => if p in before.seen then before.seen[p] else Observation(Metadata(0, 0), [])
  }

  /**
   * Each log the call reads was only appended to, or detectably rewritten, since its entry was
   * last brought up to date.
   */
  ghost predicate Lawful(before: Ledger, call: Call) {
    forall p :: p in call.logs && SightOf(call.disk, p).Seen? ==>
      var next := LookOf(before, call, p);
      && WellTimed(next)
      && (p in before.cache ==>
            p in before.seen && (Appended(before.seen[p], next) || DetectableRewrite(before.seen[p], next)))
  }

  ghost predicate UpToDate(reader: Reader, ledger: Ledger) {
    && ledger.cache.Keys == ledger.seen.Keys
    && (forall p :: p in ledger.cache ==> Current(reader, ledger.cache[p], ledger.seen[p]))
  }

  lemma {:induction false} UpdatedEntry(
      reader: Reader, cached: map<string, Snapshot>, logs: seq<string>, disk: map<string, Sight>, p: string)
    requires Updated(reader, cached, logs, disk).Ok?
    ensures var files := Updated(reader, cached, logs, disk).value;
            if p in logs then Refreshed(reader, SightOf(disk, p), Lookup(cached, p)) == Ok(Lookup(files, p))
            else p !in files
  {
    if logs != [] {
      var n := |logs| - 1;
      assert p in logs <==> p in logs[..n] || p == logs[n];
      UpdatedEntry(reader, cached, logs[..n], disk, p);
    }
  }

  lemma CallKeepsUpToDate(reader: Reader, before: Ledger, call: Call)
    requires UpToDate(reader, before) && Lawful(before, call)
    ensures UpToDate(reader, AfterCall(reader, before, call))
  {
    var after := AfterCall(reader, before, call);
    if after != before {
      forall p | p in after.cache ensures Current(reader, after.cache[p], after.seen[p]) {
        UpdatedEntry(reader, before.cache, call.logs, call.disk, p);
        EntryStaysCurrent(reader, before, call, p);
      }
    }
  }

  lemma EntryStaysCurrent(reader: Reader, before: Ledger, call: Call, p: string)
    requires UpToDate(reader, before) && Lawful(before, call) && p in call.logs
    ensures var r := Refreshed(reader, SightOf(call.disk, p), Lookup(before.cache, p));
            r.Ok? && r.value.Some? ==> Current(reader, r.value.value, LookOf(before, call, p))
  {
    var sight := SightOf(call.disk, p);
    if sight.Seen? {
      var next := LookOf(before, call, p);
      if p in before.cache {
        NextLookIsCurrent(reader, before.cache[p], before.seen[p], next);
      } else {
        FirstLookIsCurrent(reader, next);
      }
    }
  }

  function AfterCalls(reader: Reader, calls: seq<Call>): Ledger {
    if calls == [] then Ledger(map[], map[])
    else AfterCall(reader, AfterCalls(reader, calls[..|calls| - 1]), calls[|calls| - 1])
  }

  ghost predicate LawfulRun(reader: Reader, calls: seq<Call>) {
    forall i :: 0 <= i < |calls| ==> Lawful(AfterCalls(reader, calls[..i]), calls[i])
  }

  lemma {:induction false} RunKeepsUpToDate(reader: Reader, calls: seq<Call>)
    requires LawfulRun(reader, calls)
    ensures UpToDate(reader, AfterCalls(reader, calls))
    decreases |calls|
  {
    if calls != [] {
      var n := |calls| - 1;
      assert forall i :: 0 <= i <= n ==> calls[..n][..i] == calls[..i];
      RunKeepsUpToDate(reader, calls[..n]);
      CallKeepsUpToDate(reader, AfterCalls(reader, calls[..n]), calls[n]);
    }
  }

  // End to end.

  /** Turns and tokens of one date over the qualifying records in the complete lines of one log. */
  function RecordDay(reader: Reader, data: seq<Byte>, date: string): DayCounts {
    var rs := Records(reader, CompleteLines(data));
    DayCounts(Turns(reader.format, reader.clock, rs, date), Tokens(reader.format, reader.clock, rs, date))
  }

  function SumRecords(reader: Reader, contents: map<string, seq<Byte>>, keys: seq<string>, date: string): DayCounts
    requires ListedIn(keys, contents)
  {
    Total(seq(|keys|, i requires 0 <= i < |keys| => RecordDay(reader, contents[keys[i]], date)))
  }

  lemma ParsedDay(reader: Reader, data: seq<Byte>, date: string)
    ensures DayOf(Parsed(reader, data), date) == RecordDay(reader, data, date)
  {
    DaysMeaning(reader.format, reader.clock, Records(reader, CompleteLines(data)), date);
  }

  function CacheTallies(cache: map<string, Snapshot>): map<string, Tally> { map k | k in cache :: cache[k].tally }

  /**
   * Whether a listed log has an entry after a call that succeeds: what was read has one, and of
   * what was gone or unreadable after its metadata, what the metadata alone settles.
   */
  predicate Survives(before: Ledger, call: Call, p: string) {
    p in call.logs
    && match SightOf(call.disk, p)
       case Missing => false
       case MissingAfterStat(meta) => p in before.cache && Unchanged(before.cache[p], meta)
       case Unreadable(meta) => p in before.cache && Unchanged(before.cache[p], meta)
       case Seen(_, _) => true
  }

  /** Bytes a log held in the course of one look: no less than was measured, no more than was there to read. */
  predicate HeldDuring(ob: Observation, bytes: seq<Byte>) {
    WellTimed(ob) && ob.data[..ob.meta.size] <= bytes <= ob.data
  }

  /** The bytes of the surviving logs, each as of the last look at it. */
  ghost predicate SurvivingBytes(before: Ledger, call: Call, contents: map<string, seq<Byte>>) {
    && (forall p :: p in contents <==> Survives(before, call, p))
    && (forall p :: p in contents ==> HeldDuring(LookOf(before, call, p), contents[p]))
  }

  /** Every surviving log was last looked at when nothing was being written to it. */
  ghost predicate AtRest(before: Ledger, call: Call) {
    forall p :: p in call.logs && Survives(before, call, p) ==>
      var ob := LookOf(before, call, p); ob.meta.size == |ob.data|
  }

  /** Logs at rest leave no choice of bytes. */
  lemma BytesAtRest(before: Ledger, call: Call, contents: map<string, seq<Byte>>, p: string)
    requires AtRest(before, call) && SurvivingBytes(before, call, contents) && p in contents
    ensures contents[p] == LookOf(before, call, p).data
  {
    assert Survives(before, call, p);
  }

  lemma SurvivorHasEntry(reader: Reader, before: Ledger, call: Call, p: string)
    requires Updated(reader, before.cache, call.logs, call.disk).Ok?
    ensures p in Updated(reader, before.cache, call.logs, call.disk).value <==> Survives(before, call, p)
  {
    UpdatedEntry(reader, before.cache, call.logs, call.disk, p);
  }

  lemma SurvivorIsCurrent(reader: Reader, before: Ledger, call: Call, p: string)
    requires UpToDate(reader, before) && Lawful(before, call)
    requires Updated(reader, before.cache, call.logs, call.disk).Ok? && Survives(before, call, p)
    ensures var cache := Updated(reader, before.cache, call.logs, call.disk).value;
            p in cache && Current(reader, cache[p], LookOf(before, call, p))
  {
    UpdatedEntry(reader, before.cache, call.logs, call.disk, p);
    EntryStaysCurrent(reader, before, call, p);
  }

  /** The bytes a current entry has parsed. */
  function ParsedBytes(reader: Reader, s: Snapshot, ob: Observation): seq<Byte> {
    if IsParseOf(reader, s, ob.data) || |ob.data| < ob.meta.size then ob.data else ob.data[..ob.meta.size]
  }

  lemma CurrentParsesThem(reader: Reader, s: Snapshot, ob: Observation)
    requires Current(reader, s, ob)
    ensures HeldDuring(ob, ParsedBytes(reader, s, ob)) && IsParseOf(reader, s, ParsedBytes(reader, s, ob))
  {
  }

  /**
   * A scan that succeeds, in any order of logs read, vanished, or settled by their metadata, caches
   * exactly the survivors, each as parsed from scratch from bytes it held at its last look.
   */
  lemma SurvivorsAreParsed(reader: Reader, before: Ledger, call: Call) returns (contents: map<string, seq<Byte>>)
    requires UpToDate(reader, before) && Lawful(before, call)
    requires Updated(reader, before.cache, call.logs, call.disk).Ok?
    ensures SurvivingBytes(before, call, contents)
    ensures AreParses(reader, CacheTallies(Updated(reader, before.cache, call.logs, call.disk).value), contents)
  {
    var cache := Updated(reader, before.cache, call.logs, call.disk).value;
    contents := map p | p in cache :: ParsedBytes(reader, cache[p], LookOf(before, call, p));
    forall p ensures p in cache <==> Survives(before, call, p) {
      SurvivorHasEntry(reader, before, call, p);
    }
    forall p | p in cache
      ensures HeldDuring(LookOf(before, call, p), contents[p]) && cache[p].tally == Parsed(reader, contents[p])
    {
      SurvivorIsCurrent(reader, before, call, p);
      CurrentParsesThem(reader, cache[p], LookOf(before, call, p));
    }
  }

  ghost predicate AreParses(reader: Reader, files: map<string, Tally>, contents: map<string, seq<Byte>>) {
    files.Keys == contents.Keys && forall p :: p in contents ==> files[p] == Parsed(reader, contents[p])
  }

  lemma SumsAgree(
        reader: Reader, files: map<string, Tally>, contents: map<string, seq<Byte>>, keys: seq<string>, date: string)
    requires AreParses(reader, files, contents)
    requires ListedIn(keys, contents)
    ensures SumDay(files, keys, date) == SumRecords(reader, contents, keys, date)
  {
    forall i | 0 <= i < |keys| ensures DayOf(files[keys[i]], date) == RecordDay(reader, contents[keys[i]], date) {
      ParsedDay(reader, contents[keys[i]], date);
    }
    assert seq(|keys|, i requires 0 <= i < |keys| => DayOf(files[keys[i]], date))
        == seq(|keys|, i requires 0 <= i < |keys| => RecordDay(reader, contents[keys[i]], date));
  }

  lemma ListedDay(reader: Reader, data: seq<Byte>, date: string)
    ensures date in Parsed(reader, data).days <==> RecordDay(reader, data, date) != DayCounts(0, 0)
  {
    DaysMeaning(reader.format, reader.clock, Records(reader, CompleteLines(data)), date);
  }

  /**
   * A daily list that says, date by date in order, what the logs' records add up to, and leaves
   * out only idle dates.
   */
  ghost predicate TellsDays(
        reader: Reader, contents: map<string, seq<Byte>>, keys: seq<string>, daily: seq<DayActivity>) {
    && ListedIn(keys, contents) && Ascending(keys) && Elements(keys) == contents.Keys
    && Ascending(Dates(daily))
    && (forall i :: 0 <= i < |daily| ==> daily[i].counts == SumRecords(reader, contents, keys, daily[i].date))
    && (forall date :: date in Dates(daily)
          <==> exists p :: p in contents && RecordDay(reader, contents[p], date) != DayCounts(0, 0))
  }

  lemma AggregateTellsDays(
        reader: Reader, files: map<string, Tally>, contents: map<string, seq<Byte>>, stats: ActivityStats)
    requires AreParses(reader, files, contents)
    requires IsAggregate(files, stats)
    ensures exists keys :: TellsDays(reader, contents, keys, stats.daily)
  {
    var keys :| Lists(keys, files) && IsAggregateIn(files, keys, stats);
    forall i | 0 <= i < |stats.daily|
      ensures stats.daily[i].counts == SumRecords(reader, contents, keys, stats.daily[i].date)
    {
      SumsAgree(reader, files, contents, keys, stats.daily[i].date);
    }
    forall date
      ensures date in Dates(stats.daily)
              <==> exists p :: p in contents && RecordDay(reader, contents[p], date) != DayCounts(0, 0)
    {
      forall p | p in contents
        ensures date in files[p].days <==> RecordDay(reader, contents[p], date) != DayCounts(0, 0)
      {
        ListedDay(reader, contents[p], date);
      }
    }
    assert TellsDays(reader, contents, keys, stats.daily);
  }

  /** A daily list that is exact for the surviving logs of a call. */
  ghost predicate Reports(reader: Reader, before: Ledger, call: Call, daily: seq<DayActivity>) {
    exists contents, keys :: SurvivingBytes(before, call, contents) && TellsDays(reader, contents, keys, daily)
  }

  lemma ScanReports(reader: Reader, before: Ledger, call: Call, stats: ActivityStats)
    requires UpToDate(reader, before) && Lawful(before, call)
    requires Updated(reader, before.cache, call.logs, call.disk).Ok?
    requires IsAggregate(CacheTallies(Updated(reader, before.cache, call.logs, call.disk).value), stats)
    ensures Reports(reader, before, call, stats.daily)
  {
    var contents := SurvivorsAreParsed(reader, before, call);
    AggregateTellsDays(reader,
      CacheTallies(Updated(reader, before.cache, call.logs, call.disk).value), contents, stats);
  }

  /**
   * End to end: after any lawful run of scans, a scan that succeeds tells each date some record
   * counts on, in order, with the sums over the qualifying records in the complete lines of the
   * surviving logs, whichever of the listed ones have vanished; and where those are at rest, of
   * exactly the bytes they hold.
   */
  lemma DailyListIsExact(reader: Reader, calls: seq<Call>, last: Call, stats: ActivityStats)
    requires LawfulRun(reader, calls) && Lawful(AfterCalls(reader, calls), last)
    requires Updated(reader, AfterCalls(reader, calls).cache, last.logs, last.disk).Ok?
    requires IsAggregate(
      CacheTallies(Updated(reader, AfterCalls(reader, calls).cache, last.logs, last.disk).value), stats)
    ensures Reports(reader, AfterCalls(reader, calls), last, stats.daily)
    ensures AtRest(AfterCalls(reader, calls), last)
            ==> exists keys :: TellsDays(reader, LastBytes(AfterCalls(reader, calls), last), keys, stats.daily)
  {
    var before := AfterCalls(reader, calls);
    RunKeepsUpToDate(reader, calls);
    ScanReports(reader, before, last, stats);
    if AtRest(before, last) {
      RestingReport(reader, before, last, stats.daily);
    }
  }

  /** What each surviving log held at the end of the last look at it. */
  function LastBytes(before: Ledger, call: Call): map<string, seq<Byte>> {
    map p | p in call.logs && Survives(before, call, p) :: LookOf(before, call, p).data
  }

  lemma RestingReport(reader: Reader, before: Ledger, call: Call, daily: seq<DayActivity>)
    requires AtRest(before, call) && Reports(reader, before, call, daily)
    ensures exists keys :: TellsDays(reader, LastBytes(before, call), keys, daily)
  {
    var contents, keys :| SurvivingBytes(before, call, contents) && TellsDays(reader, contents, keys, daily);
    forall p | p in contents ensures contents[p] == LookOf(before, call, p).data {
      BytesAtRest(before, call, contents, p);
    }
    assert contents == LastBytes(before, call);
  }

  lemma TalliesOfSnaps(files: map<string, FileEntry>)
    ensures CacheTallies(Snaps(files)) == Tallies(files)
  {
  }

  /** One scan: list, refresh, save, aggregate. `stored` is the cache file before the call, `saved` after it. */
  method UpdateActivity(reader: Reader, stored: Option<Stored<map<string, FileEntry>>>, logs: Result<seq<string>>,
                        disk: map<string, Sight>, writable: bool)
    returns (r: Result<ActivityStats>, saved: Option<Stored<map<string, FileEntry>>>)
    ensures logs.Err? ==> r == Err(logs.error) && saved == stored
    ensures logs.Ok? ==>
              match Updated(reader, Snaps(Loaded(reader.format, stored)), logs.value, disk)
              case Err(e) => r == Err(e) && saved == stored
              case Ok(files) =>
                if !writable then r == Err(CacheWriteError) && saved == stored
                else
                  && saved.Some? && saved.value.version == CacheVersion(reader.format)
                  && Snaps(saved.value.files) == files
                  && r.Ok? && IsAggregate(Tallies(saved.value.files), r.value)
    ensures logs.Ok? ==>
              forall before: Ledger :: before.cache == Snaps(Loaded(reader.format, stored)) ==>
                Snaps(Loaded(reader.format, saved))
                  == AfterCall(reader, before, Call(logs.value, disk, writable)).cache
    ensures logs.Ok? && r.Ok? ==>
              forall before: Ledger ::
                var call := Call(logs.value, disk, writable);
                before.cache == Snaps(Loaded(reader.format, stored)) && UpToDate(reader, before) && Lawful(before, call)
                ==> Reports(reader, before, call, r.value.daily)
  {
    var cached := Loaded(reader.format, stored);
    if logs.Err? {
      return Err(logs.error), stored;
    }
    var files := RefreshAll(reader, cached, logs.value, disk);
    if files.Err? {
      return Err(files.error), stored;
    }
    if !writable {
      return Err(CacheWriteError), stored;
    }
    saved := Some(Stored(CacheVersion(reader.format), files.value));
    var stats := Aggregate(files.value);
    r := Ok(stats);
    TalliesOfSnaps(files.value);
    forall before: Ledger, call: Call
      | call == Call(logs.value, disk, writable) && before.cache == Snaps(cached)
        && UpToDate(reader, before) && Lawful(before, call)
      ensures Reports(reader, before, call, stats.daily)
    {
      ScanReports(reader, before, call, stats);
    }
  }
}
