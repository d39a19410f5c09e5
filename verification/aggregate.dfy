/** The loop of `analyze_log`: each raw line is fingerprinted, skipped when
    the fingerprint is already in the ledger, otherwise classified and, when
    it falls inside the last 24 hours, recorded in the ledger and counted in
    exactly one group of today's counters. A run is a left fold of that step
    over the lines of the log. */
module Aggregate {
  import opened Wrappers
  import opened Calendar
  import opened Classifier
  import opened Ledger
  import Rates

  datatype HourCache = HourCache(hits: nat, misses: nat)

  /** `today_data`: the day's counters and the ledger of counted lines. */
  datatype Stats = Stats(
    queries: seq<Event>,
    domainCounts: map<string, nat>,
    queryTypes: map<string, nat>,
    clientIps: map<string, nat>,
    hourlyStats: map<int, nat>,
    cacheHits: nat,
    cacheMisses: nat,
    cachedDomains: map<string, nat>,
    forwardedDomains: map<string, nat>,
    upstreamServers: map<string, nat>,
    hourlyCacheStats: map<int, HourCache>,
    processedLines: set<Digest>)

  /** The counters of a new analyzer before any existing data is loaded. */
  const Fresh: Stats :=
    Stats([], map[], map[], map[], map[], 0, 0, map[], map[], map[], map[], {})

  /** A `Counter` entry: missing keys count 0. */
  function Count<K>(m: map<K, nat>, k: K): nat {
    if k in m then m[k] else 0
  }

  /** `after` is `before` with the entry for `k` one higher and every other
      entry as it was. */
  ghost predicate OneMore<K(!new)>(after: map<K, nat>, before: map<K, nat>, k: K) {
    && Count(after, k) == Count(before, k) + 1
    && forall j :: j != k ==> Count(after, j) == Count(before, j)
  }

  /** `counter[k] += 1`. */
  function Bump<K(!new)>(m: map<K, nat>, k: K): (r: map<K, nat>)
    ensures OneMore(r, m, k)
  {
    m[k := Count(m, k) + 1]
  }

  /** A `hourly_cache_stats` entry: missing hours read as no hits, no misses. */
  function HourAt(m: map<int, HourCache>, h: int): HourCache {
    if h in m then m[h] else HourCache(0, 0)
  }

  ghost predicate OneMoreHit(after: map<int, HourCache>, before: map<int, HourCache>, h: int) {
    && HourAt(after, h) == HourAt(before, h).(hits := HourAt(before, h).hits + 1)
    && forall j :: j != h ==> HourAt(after, j) == HourAt(before, j)
  }

  ghost predicate OneMoreMiss(after: map<int, HourCache>, before: map<int, HourCache>, h: int) {
    && HourAt(after, h) == HourAt(before, h).(misses := HourAt(before, h).misses + 1)
    && forall j :: j != h ==> HourAt(after, j) == HourAt(before, j)
  }

  /** `hourly_cache_stats[h]['hits'] += 1`. */
  function BumpHit(m: map<int, HourCache>, h: int): (r: map<int, HourCache>)
    ensures OneMoreHit(r, m, h)
  {
    var c := HourAt(m, h);
    m[h := c.(hits := c.hits + 1)]
  }

  /** `hourly_cache_stats[h]['misses'] += 1`. */
  function BumpMiss(m: map<int, HourCache>, h: int): (r: map<int, HourCache>)
    ensures OneMoreMiss(r, m, h)
  {
    var c := HourAt(m, h);
    m[h := c.(misses := c.misses + 1)]
  }

  /** The counters only a query touches. */
  predicate SameQueryGroup(a: Stats, b: Stats) {
    && a.queries == b.queries
    && a.domainCounts == b.domainCounts
    && a.queryTypes == b.queryTypes
    && a.clientIps == b.clientIps
    && a.hourlyStats == b.hourlyStats
  }

  /** The counters only a cache hit touches. */
  predicate SameHitGroup(a: Stats, b: Stats) {
    a.cacheHits == b.cacheHits && a.cachedDomains == b.cachedDomains
  }

  /** The counters only a forward touches. */
  predicate SameForwardGroup(a: Stats, b: Stats) {
    && a.cacheMisses == b.cacheMisses
    && a.forwardedDomains == b.forwardedDomains
    && a.upstreamServers == b.upstreamServers
  }

  /** Counts one admitted event: every counter of its group goes up by one,
      and nothing else changes. */
  function Record(s: Stats, e: Event): (r: Stats)
    ensures r.processedLines == s.processedLines
    ensures Events(r) == Events(s) + 1
    ensures e.Query? ==>
      && r.queries == s.queries + [e]
      && OneMore(r.domainCounts, s.domainCounts, e.domain)
      && OneMore(r.queryTypes, s.queryTypes, e.queryType)
      && OneMore(r.clientIps, s.clientIps, e.client)
      && OneMore(r.hourlyStats, s.hourlyStats, e.hour)
      && SameHitGroup(r, s) && SameForwardGroup(r, s)
      && r.hourlyCacheStats == s.hourlyCacheStats
    ensures e.CacheHit? ==>
      && r.cacheHits == s.cacheHits + 1
      && OneMore(r.cachedDomains, s.cachedDomains, e.domain)
      && OneMoreHit(r.hourlyCacheStats, s.hourlyCacheStats, e.hour)
      && SameQueryGroup(r, s) && SameForwardGroup(r, s)
    ensures e.Forward? ==>
      && r.cacheMisses == s.cacheMisses + 1
      && OneMore(r.forwardedDomains, s.forwardedDomains, e.domain)
      && OneMore(r.upstreamServers, s.upstreamServers, e.upstream)
      && OneMoreMiss(r.hourlyCacheStats, s.hourlyCacheStats, e.hour)
      && SameQueryGroup(r, s) && SameHitGroup(r, s)
  {
    match e
    case Query(_, qtype, domain, client, hour) =>
      s.(queries := s.queries + [e],
         domainCounts := Bump(s.domainCounts, domain),
         queryTypes := Bump(s.queryTypes, qtype),
         clientIps := Bump(s.clientIps, client),
         hourlyStats := Bump(s.hourlyStats, hour))
    case CacheHit(_, domain, hour) =>
      s.(cacheHits := s.cacheHits + 1,
         cachedDomains := Bump(s.cachedDomains, domain),
         hourlyCacheStats := BumpHit(s.hourlyCacheStats, hour))
    case Forward(_, domain, upstream, hour) =>
      s.(cacheMisses := s.cacheMisses + 1,
         forwardedDomains := Bump(s.forwardedDomains, domain),
         upstreamServers := Bump(s.upstreamServers, upstream),
         hourlyCacheStats := BumpMiss(s.hourlyCacheStats, hour))
  }

  /** Counting an event never looks at the ledger. */
  lemma RecordIgnoresLedger(s: Stats, e: Event, ledger: set<Digest>)
    ensures Record(s.(processedLines := ledger), e) == Record(s, e).(processedLines := ledger)
  {
  }

  /** Events counted so far: queries kept plus cache lookups. */
  function Events(s: Stats): nat {
    |s.queries| + s.cacheHits + s.cacheMisses
  }

  /** `now - timestamp <= timedelta(hours=24)`: the last 24 hours, and any
      instant after `now`. */
  predicate InWindow(now: DateTime, t: DateTime)
    requires Valid(now) && Valid(t)
    ensures Micros(now) <= Micros(t) ==> InWindow(now, t)
    ensures Ordinal(now) <= Ordinal(t) ==> InWindow(now, t)
    ensures Ordinal(now) - Ordinal(t) >= 2 ==> !InWindow(now, t)
  {
    Micros(now) - Micros(t) <= MicrosPerDay
  }

  /** The line classifies and its timestamp is inside the window. */
  predicate Admissible(m: Matchers, now: DateTime, line: string)
    requires Valid(now)
  {
    var e := ParseLogLine(m, now, line);
    e.Some? && InWindow(now, e.value.timestamp)
  }

  /** The patterns and the line hash the analyzer runs with. */
  datatype Env = Env(matchers: Matchers, hash: string -> Digest)

  /** The day's statistics with the run's local tallies of new and
      duplicate records. */
  datatype Run = Run(stats: Stats, added: nat, duplicates: nat)

  /** One iteration of the loop of `analyze_log`. */
  function Step(env: Env, now: DateTime, r: Run, line: string): (r': Run)
    requires Valid(now)
    ensures r.stats.processedLines <= r'.stats.processedLines
    ensures r'.added + r'.duplicates <= r.added + r.duplicates + 1
    ensures |r'.stats.processedLines| - |r.stats.processedLines| == r'.added - r.added
    ensures Events(r'.stats) - Events(r.stats) == r'.added - r.added
    ensures Fingerprint(env.hash, line) in r.stats.processedLines ==> r' == r.(duplicates := r.duplicates + 1)
    ensures Fingerprint(env.hash, line) !in r.stats.processedLines && !Admissible(env.matchers, now, line) ==> r' == r
    ensures Fingerprint(env.hash, line) !in r.stats.processedLines && Admissible(env.matchers, now, line) ==>
      && r'.added == r.added + 1
      && r'.duplicates == r.duplicates
      && r'.stats.processedLines == r.stats.processedLines + {Fingerprint(env.hash, line)}
      && Events(r'.stats) == Events(r.stats) + 1
      && r'.stats == Record(r.stats, ParseLogLine(env.matchers, now, line).value)
                       .(processedLines := r'.stats.processedLines)
  {
    var key := Fingerprint(env.hash, line);
    if key in r.stats.processedLines then
      r.(duplicates := r.duplicates + 1)
    else
      match ParseLogLine(env.matchers, now, line)
      case Some(e) =>
        if InWindow(now, e.timestamp) then
          var ledger := r.stats.processedLines + {key};
          assert |ledger| == |r.stats.processedLines| + 1;
          RecordIgnoresLedger(r.stats, e, ledger);
          Run(Record(r.stats.(processedLines := ledger), e), r.added + 1, r.duplicates)
        else r
      case None => r
  }

  /** The loop of `analyze_log` over the lines of the log, first to last.
      The ledger only grows, and it grows by exactly one fingerprint per
      counted event: each admitted line is counted once. */
  function Analyze(env: Env, now: DateTime, r: Run, lines: seq<string>): (r': Run)
    requires Valid(now)
    ensures r.stats.processedLines <= r'.stats.processedLines
    ensures r.added <= r'.added && r.duplicates <= r'.duplicates
    ensures (r'.added - r.added) + (r'.duplicates - r.duplicates) <= |lines|
    ensures |r'.stats.processedLines| - |r.stats.processedLines| == r'.added - r.added
    ensures Events(r'.stats) - Events(r.stats) == r'.added - r.added
    decreases |lines|
  {
    if |lines| == 0 then r
    else
      var next := Step(env, now, r, lines[0]);
      Analyze(env, now, next, lines[1..])
  }

  /** Analysing two pieces one after the other is analysing their
      concatenation. */
  lemma {:induction false} AnalyzeConcat(env: Env, now: DateTime, r: Run, a: seq<string>, b: seq<string>)
    requires Valid(now)
    ensures Analyze(env, now, r, a + b) == Analyze(env, now, Analyze(env, now, r, a), b)
    decreases |a|
  {
    if |a| > 0 {
      assert (a + b)[1..] == a[1..] + b;
      AnalyzeConcat(env, now, Step(env, now, r, a[0]), a[1..], b);
    } else {
      assert a + b == b;
    }
  }

  /** The statistics a run produces do not depend on the tallies it starts
      with. */
  lemma {:induction false} StatsIgnoreTallies(env: Env, now: DateTime, s: Stats, a1: nat, d1: nat, a2: nat, d2: nat, lines: seq<string>)
    requires Valid(now)
    ensures Analyze(env, now, Run(s, a1, d1), lines).stats == Analyze(env, now, Run(s, a2, d2), lines).stats
    decreases |lines|
  {
    if |lines| > 0 {
      var r1 := Step(env, now, Run(s, a1, d1), lines[0]);
      var r2 := Step(env, now, Run(s, a2, d2), lines[0]);
      assert r1.stats == r2.stats;
      StatsIgnoreTallies(env, now, r1.stats, r1.added, r1.duplicates, r2.added, r2.duplicates, lines[1..]);
    }
  }

  /** Every line is either in the ledger of `s` or would be turned away
      again. */
  ghost predicate Settled(env: Env, now: DateTime, s: Stats, lines: seq<string>)
    requires Valid(now)
  {
    forall i :: 0 <= i < |lines| ==>
      Fingerprint(env.hash, lines[i]) in s.processedLines || !Admissible(env.matchers, now, lines[i])
  }

  /** After a pass, every line of it is settled. */
  lemma {:induction false} PassSettles(env: Env, now: DateTime, r: Run, lines: seq<string>)
    requires Valid(now)
    ensures Settled(env, now, Analyze(env, now, r, lines).stats, lines)
    decreases |lines|
  {
    if |lines| > 0 {
      var r1 := Step(env, now, r, lines[0]);
      var final := Analyze(env, now, r1, lines[1..]);
      PassSettles(env, now, r1, lines[1..]);
      assert final == Analyze(env, now, r, lines);
      forall i | 0 <= i < |lines|
        ensures Fingerprint(env.hash, lines[i]) in final.stats.processedLines || !Admissible(env.matchers, now, lines[i])
      {
        if i > 0 {
          assert lines[i] == lines[1..][i - 1];
        }
      }
    }
  }

  /** A pass over settled lines counts nothing and changes no statistic. */
  lemma {:induction false} SettledPassChangesNothing(env: Env, now: DateTime, r: Run, lines: seq<string>)
    requires Valid(now) && Settled(env, now, r.stats, lines)
    ensures Analyze(env, now, r, lines).stats == r.stats
    ensures Analyze(env, now, r, lines).added == r.added
    decreases |lines|
  {
    if |lines| > 0 {
      assert Fingerprint(env.hash, lines[0]) in r.stats.processedLines || !Admissible(env.matchers, now, lines[0]);
      var r1 := Step(env, now, r, lines[0]);
      assert r1.stats == r.stats && r1.added == r.added;
      forall i | 0 <= i < |lines[1..]|
        ensures Fingerprint(env.hash, lines[1..][i]) in r1.stats.processedLines || !Admissible(env.matchers, now, lines[1..][i])
      {
        assert lines[1..][i] == lines[i + 1];
      }
      SettledPassChangesNothing(env, now, r1, lines[1..]);
    }
  }

  /** `later` is a clock reading no earlier than `now` in the same calendar
      year: the instant of a later run that has not crossed New Year. */
  predicate Later(now: DateTime, later: DateTime) {
    && Valid(now) && Valid(later)
    && later.year == now.year
    && Micros(now) <= Micros(later)
  }

  /** A line turned away stays turned away later in the same year: whether
      it classifies does not depend on the clock, its stamp resolves to the
      same instant, and the window only moves forward. */
  lemma RejectionPersists(m: Matchers, now: DateTime, later: DateTime, line: string)
    requires Later(now, later) && !Admissible(m, now, line)
    ensures !Admissible(m, later, line)
  {
  }

  /** Lines settled at `now` are still settled at any later instant of the
      same year. */
  lemma SettledLater(env: Env, now: DateTime, later: DateTime, s: Stats, lines: seq<string>)
    requires Later(now, later) && Settled(env, now, s, lines)
    ensures Settled(env, later, s, lines)
  {
    forall i | 0 <= i < |lines|
      ensures Fingerprint(env.hash, lines[i]) in s.processedLines || !Admissible(env.matchers, later, lines[i])
    {
      if Fingerprint(env.hash, lines[i]) !in s.processedLines {
        RejectionPersists(env.matchers, now, later, lines[i]);
      }
    }
  }

  /** Exactly-once counting: a second pass over the same lines, at the same
      instant or any later one in the same year, finds every counted line in
      the ledger, counts nothing new and leaves today's statistics as the
      first pass left them. */
  lemma SecondPassIsIdempotent(env: Env, now: DateTime, later: DateTime, r: Run, lines: seq<string>)
    requires Later(now, later)
    ensures var first := Analyze(env, now, r, lines);
            var second := Analyze(env, later, first, lines);
            second.stats == first.stats && second.added == first.added
  {
    var first := Analyze(env, now, r, lines);
    PassSettles(env, now, r, lines);
    SettledLater(env, now, later, first.stats, lines);
    SettledPassChangesNothing(env, later, first, lines);
  }

  /** Re-running later over a log that has grown by `appended` lines counts
      exactly what the appended lines contribute; at the same instant the
      result is what one pass over the whole log would give. */
  lemma RerunAfterAppend(env: Env, now: DateTime, later: DateTime, r: Run, logged: seq<string>, appended: seq<string>)
    requires Later(now, later)
    ensures var first := Analyze(env, now, r, logged);
            Analyze(env, later, first, logged + appended).stats == Analyze(env, later, first, appended).stats
    ensures var first := Analyze(env, now, r, logged);
            later == now ==> Analyze(env, now, first, logged + appended).stats == Analyze(env, now, r, logged + appended).stats
  {
    var first := Analyze(env, now, r, logged);
    AnalyzeConcat(env, later, first, logged, appended);
    var again := Analyze(env, later, first, logged);
    SecondPassIsIdempotent(env, now, later, r, logged);
    StatsIgnoreTallies(env, later, first.stats, again.added, again.duplicates, first.added, first.duplicates, appended);
    assert Run(first.stats, first.added, first.duplicates) == first;
    AnalyzeConcat(env, now, r, logged, appended);
  }

  /** The string-keyed counters a query feeds. */
  datatype QueryField = DomainField | TypeField | ClientField

  function FieldOf(e: Event, f: QueryField): string
    requires e.Query?
  {
    match f
    case DomainField => e.domain
    case TypeField => e.queryType
    case ClientField => e.client
  }

  /** How many of the kept queries have `v` in field `f`. */
  function Tally(qs: seq<Event>, f: QueryField, v: string): nat {
    if |qs| == 0 then 0
    else
      var e := qs[|qs| - 1];
      Tally(qs[..|qs| - 1], f, v) + (if e.Query? && FieldOf(e, f) == v then 1 else 0)
  }

  /** How many of the kept queries fall in hour `h`. */
  function HourTally(qs: seq<Event>, h: int): nat {
    if |qs| == 0 then 0
    else
      var e := qs[|qs| - 1];
      HourTally(qs[..|qs| - 1], h) + (if e.Query? && e.hour == h then 1 else 0)
  }

  /** The query counters agree with the list of kept queries: each counts,
      per key, the queries carrying that key. */
  ghost predicate Consistent(s: Stats) {
    && (forall i :: 0 <= i < |s.queries| ==> s.queries[i].Query?)
    && (forall v :: Count(s.domainCounts, v) == Tally(s.queries, DomainField, v))
    && (forall v :: Count(s.queryTypes, v) == Tally(s.queries, TypeField, v))
    && (forall v :: Count(s.clientIps, v) == Tally(s.queries, ClientField, v))
    && (forall h :: Count(s.hourlyStats, h) == HourTally(s.queries, h))
  }

  lemma FreshConsistent()
    ensures Consistent(Fresh)
  {
  }

  /** Counting an event keeps the query counters in step with the query
      list. */
  lemma RecordKeepsConsistent(s: Stats, e: Event)
    requires Consistent(s)
    ensures Consistent(Record(s, e))
  {
    var r := Record(s, e);
    if e.Query? {
      assert r.queries[..|r.queries| - 1] == s.queries;
      forall v ensures Count(r.domainCounts, v) == Tally(r.queries, DomainField, v) {
        assert Count(r.domainCounts, v) == Count(s.domainCounts, v) + (if e.domain == v then 1 else 0);
      }
      forall v ensures Count(r.queryTypes, v) == Tally(r.queries, TypeField, v) {
        assert Count(r.queryTypes, v) == Count(s.queryTypes, v) + (if e.queryType == v then 1 else 0);
      }
      forall v ensures Count(r.clientIps, v) == Tally(r.queries, ClientField, v) {
        assert Count(r.clientIps, v) == Count(s.clientIps, v) + (if e.client == v then 1 else 0);
      }
      forall h ensures Count(r.hourlyStats, h) == HourTally(r.queries, h) {
        assert Count(r.hourlyStats, h) == Count(s.hourlyStats, h) + (if e.hour == h then 1 else 0);
      }
    }
  }

  /** A run started from consistent counters ends with consistent counters;
      in particular every run started from `Fresh` does. */
  lemma {:induction false} AnalyzeKeepsConsistent(env: Env, now: DateTime, r: Run, lines: seq<string>)
    requires Valid(now) && Consistent(r.stats)
    ensures Consistent(Analyze(env, now, r, lines).stats)
    decreases |lines|
  {
    if |lines| > 0 {
      var line := lines[0];
      var key := Fingerprint(env.hash, line);
      if key !in r.stats.processedLines && Admissible(env.matchers, now, line) {
        var e := ParseLogLine(env.matchers, now, line).value;
        var s := r.stats.(processedLines := r.stats.processedLines + {key});
        RecordKeepsConsistent(s, e);
      }
      AnalyzeKeepsConsistent(env, now, Step(env, now, r, line), lines[1..]);
    }
  }

  /** `analyze_log` after reading the file: the pass over all lines, then
      `cleanup_processed_lines_hash`, then the hit rate it prints. */
  method AnalyzeLog(env: Env, now: DateTime, s: Stats, lines: seq<string>) returns (r: Run, rate: real)
    requires Valid(now)
    ensures var pass := Analyze(env, now, Run(s, 0, 0), lines);
      && r.added == pass.added && r.duplicates == pass.duplicates
      && r.stats == pass.stats.(processedLines := r.stats.processedLines)
      && r.stats.processedLines <= pass.stats.processedLines
      && (|pass.stats.processedLines| <= TrimAbove ==> r.stats.processedLines == pass.stats.processedLines)
      && (|pass.stats.processedLines| > TrimAbove ==> |r.stats.processedLines| == TrimTo)
    ensures rate == Rates.HitRate(r.stats.cacheHits, r.stats.cacheMisses)
  {
    var pass := Analyze(env, now, Run(s, 0, 0), lines);
    var order := ListSet(pass.stats.processedLines);
    var kept := Trim(pass.stats.processedLines, order);
    r := pass.(stats := pass.stats.(processedLines := kept));
    rate := Rates.HitRate(r.stats.cacheHits, r.stats.cacheMisses);
  }

  /** Around New Year a line from last December is read in the current year,
      which puts it in the future, and the window admits every future
      instant: at 00:30 on 1 January 2025, a line stamped `Dec 15 10:00:00`
      resolves to 15 December 2025 and is counted. */
  lemma DecemberLineCountedInJanuary()
    ensures var now := DateTime(2025, 1, 1, 0, 30, 0, 0);
            var t := Resolve(now, TimeParse.Stamp("Dec", "15", "10", "00", "00"));
            t == DateTime(2025, 12, 15, 10, 0, 0, 0) && InWindow(now, t)
  {
    var now := DateTime(2025, 1, 1, 0, 30, 0, 0);
    var t := DateTime(2025, 12, 15, 10, 0, 0, 0);
    assert TimeParse.FormatLogStamp(t) == TimeParse.Stamp("Dec", "15", "10", "00", "00") by {
      assert TimeParse.MonthTitle(12) == "Dec";
      assert TimeParse.DayDigits(15) == "15";
      assert TimeParse.TwoDigits(10) == "10";
      assert TimeParse.TwoDigits(0) == "00";
    }
    ResolveRoundTrip(now, t);
    assert Ordinal(now) < Ordinal(t);
  }
}
