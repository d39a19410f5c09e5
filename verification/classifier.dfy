/** `parse_log_line`: turns one raw dnsmasq log line into a query, cache-hit
    or forward event. The three regular expressions are not modelled; they
    are supplied as matchers that return their capture groups or nothing. */
module Classifier {
  import opened Wrappers
  import opened Calendar
  import opened TimeParse
  import Text

  /** Captures of `query\[(\w+)\]\s+(\S+)\s+from\s+(\S+)` after the stamp. */
  datatype QueryMatch = QueryMatch(stamp: Stamp, queryType: string, domain: string, client: string)

  /** Captures of `cached\s+(\S+)\s+` after the stamp. */
  datatype CacheMatch = CacheMatch(stamp: Stamp, domain: string)

  /** Captures of `forwarded\s+(\S+)\s+to\s+(\S+(?:#\d+)?)` after the stamp. */
  datatype ForwardMatch = ForwardMatch(stamp: Stamp, domain: string, upstream: string)

  /** The three compiled patterns, each searched over the raw line. */
  datatype Matchers = Matchers(
    query: string -> Option<QueryMatch>,
    cached: string -> Option<CacheMatch>,
    forwarded: string -> Option<ForwardMatch>)

  datatype Event =
    | Query(timestamp: DateTime, queryType: string, domain: string, client: string, hour: int)
    | CacheHit(timestamp: DateTime, domain: string, hour: int)
    | Forward(timestamp: DateTime, domain: string, upstream: string, hour: int)

  /** What every classified event satisfies: a valid timestamp in the
      current year, the hour taken from it, and a lower-case domain. */
  predicate WellFormed(now: DateTime, e: Event) {
    && Valid(e.timestamp)
    && e.timestamp.year == now.year
    && e.hour == e.timestamp.hour
    && 0 <= e.hour <= 23
    && Text.IsLower(e.domain)
  }

  /** The instant a stamp denotes: the stamp read in the current year, or
      `now` itself when `strptime` refuses it. */
  function Resolve(now: DateTime, st: Stamp): (t: DateTime)
    requires Valid(now)
    ensures Valid(t) && t.year == now.year
  {
    ParseLogStamp(now.year, st).GetOr(now)
  }

  /** The event built from the stamp and domain of a match. */
  predicate Built(now: DateTime, e: Event, st: Stamp, domain: string)
    requires Valid(now)
  {
    e.timestamp == Resolve(now, st) && e.domain == Text.Lower(domain)
  }

  /** `parse_log_line`: the query pattern first, then the cached pattern,
      then the forwarded pattern; the first that matches decides. */
  function ParseLogLine(m: Matchers, now: DateTime, line: string): (r: Option<Event>)
    requires Valid(now)
    ensures r.Some? ==> WellFormed(now, r.value)
    ensures r.None? <==> m.query(line).None? && m.cached(line).None? && m.forwarded(line).None?
    ensures m.query(line).Some? ==>
      var q := m.query(line).value;
      && r.Some? && r.value.Query? && Built(now, r.value, q.stamp, q.domain)
      && r.value.queryType == q.queryType && r.value.client == q.client
    ensures m.query(line).None? && m.cached(line).Some? ==>
      var c := m.cached(line).value;
      r.Some? && r.value.CacheHit? && Built(now, r.value, c.stamp, c.domain)
    ensures m.query(line).None? && m.cached(line).None? && m.forwarded(line).Some? ==>
      var f := m.forwarded(line).value;
      && r.Some? && r.value.Forward? && Built(now, r.value, f.stamp, f.domain)
      && r.value.upstream == f.upstream
  {
    match m.query(line)
    case Some(q) =>
      var t := Resolve(now, q.stamp);
      Some(Query(t, q.queryType, Text.Lower(q.domain), q.client, t.hour))
    case None =>
      match m.cached(line)
      case Some(c) =>
        var t := Resolve(now, c.stamp);
        Some(CacheHit(t, Text.Lower(c.domain), t.hour))
      case None =>
        match m.forwarded(line)
        case Some(f) =>
          var t := Resolve(now, f.stamp);
          Some(Forward(t, Text.Lower(f.domain), f.upstream, t.hour))
        case None => None
  }

  /** A stamp written in the current year resolves to the instant written,
      in dnsmasq's space-padded form and in the zero-padded one. */
  lemma ResolveRoundTrip(now: DateTime, t: DateTime)
    requires Valid(now) && Valid(t) && t.year == now.year && t.micro == 0 && t.year >= 1000
    ensures Resolve(now, FormatLogStamp(t)) == t
    ensures Resolve(now, FormatPaddedStamp(t)) == t
  {
    LogStampRoundTrip(t);
  }

  /** A stamp from a real log, `"Jan  5 10:00:00"`, read on 6 January 2025. */
  lemma SpacePaddedDayResolves()
    ensures Resolve(DateTime(2025, 1, 6, 0, 0, 0, 0), Stamp("Jan", "5", "10", "00", "00"))
            == DateTime(2025, 1, 5, 10, 0, 0, 0)
  {
    ResolveRoundTrip(DateTime(2025, 1, 6, 0, 0, 0, 0), DateTime(2025, 1, 5, 10, 0, 0, 0));
  }

  /** A stamp naming a day its month lacks in the current year (31 September,
      29 February of a common year) falls back to `now`. */
  lemma ImpossibleDayFallsBack(now: DateTime, st: Stamp)
    requires Valid(now)
    requires MonthNumber(st.month).Some? && DayNumber(st.day).Some?
    requires DayNumber(st.day).value > DaysInMonth(now.year, MonthNumber(st.month).value)
    ensures Resolve(now, st) == now
  {
  }

  /** The same for a stamp whose fields are out of range, such as an hour of 24
      or a second of 60. */
  lemma BadClockFallsBack(now: DateTime, st: Stamp)
    requires Valid(now)
    requires Number(st.hour, 0, 23).None? || Number(st.minute, 0, 59).None? || Number(st.second, 0, 59).None?
    ensures Resolve(now, st) == now
  {
  }
}
