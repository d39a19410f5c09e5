/** `cleanup_old_data`: for each daily data file, the date is read back from
    the file name and the file is deleted when it is more than `keep_days`
    whole days older than now; a name that does not hold a date is passed
    over. Directory listing, `stat` and `unlink` are left out; the model
    decides, per name, what the sweep does. */
module Retention {
  import opened Wrappers
  import opened Calendar
  import opened TimeParse

  const Prefix: string := "dns_data_"
  const Suffix: string := ".json"

  /** A name `glob("dns_data_*.json")` yields. */
  predicate IsDataFileName(name: string) {
    && |name| >= |Prefix| + |Suffix|
    && name[..|Prefix|] == Prefix
    && name[|name| - |Suffix|..] == Suffix
  }

  /** `Path.stem`: the name without its `.json` suffix. */
  function Stem(name: string): (r: string)
    requires IsDataFileName(name)
    ensures r + Suffix == name
    ensures |r| >= |Prefix| && r[..|Prefix|] == Prefix
  {
    name[..|name| - |Suffix|]
  }

  /** `s.replace(p, '')`: every occurrence of `p` removed, scanning left to
      right without overlaps. */
  function RemoveAll(s: string, p: string): (r: string)
    requires |p| > 0
    ensures |r| <= |s|
    decreases |s|
  {
    if |s| == 0 then []
    else if |p| <= |s| && s[..|p|] == p then RemoveAll(s[|p|..], p)
    else [s[0]] + RemoveAll(s[1..], p)
  }

  /** Removing occurrences from a string that has none changes nothing. */
  lemma {:induction false} RemoveAllAbsent(s: string, p: string)
    requires |p| > 0
    requires forall k :: 0 <= k < |s| ==> s[k] != p[0]
    ensures RemoveAll(s, p) == s
    decreases |s|
  {
    if |s| > 0 {
      RemoveAllAbsent(s[1..], p);
      assert [s[0]] + s[1..] == s;
    }
  }

  /** A leading occurrence of `p` is removed and scanning resumes after it. */
  lemma RemoveAllPrefix(p: string, x: string)
    requires |p| > 0
    ensures RemoveAll(p + x, p) == RemoveAll(x, p)
  {
    assert (p + x)[..|p|] == p;
    assert (p + x)[|p|..] == x;
  }

  /** The date a data file is named after: `strptime` of the stem with every
      `dns_data_` removed. */
  function FileDate(name: string): (r: Option<DateTime>)
    requires IsDataFileName(name)
    ensures r.Some? ==> Valid(r.value) && r.value == Midnight(r.value)
  {
    ParseIsoDate(RemoveAll(Stem(name), Prefix))
  }

  datatype Decision = Skip | Keep | Delete

  /** The sweep's decision for one file: skip it when its name holds no
      date, delete it when `(now - date).days > keep_days`. The decision
      depends only on calendar days: a file is deleted exactly when its date
      lies more than `keepDays` days before the date of `now`. */
  function Decide(now: DateTime, keepDays: int, name: string): (d: Decision)
    requires Valid(now) && IsDataFileName(name)
    ensures d == Skip <==> FileDate(name).None?
    ensures FileDate(name).Some? ==>
      (d == Delete <==> Ordinal(now) - Ordinal(FileDate(name).value) > keepDays)
  {
    match FileDate(name)
    case None => Skip
    case Some(date) =>
      DaysBetweenMidnight(date, now);
      if DaysBetween(date, now) > keepDays then Delete else Keep
  }

  /** The name `save_daily_data` gives the file of the day of `t`. */
  function DataFileName(t: DateTime): string
    requires Valid(t)
  {
    Prefix + FormatIsoDate(t) + Suffix
  }

  /** The sweep reads back from a file's name the date it was written for. */
  lemma DataFileNameDate(t: DateTime)
    requires Valid(t) && t.year >= 1000
    ensures IsDataFileName(DataFileName(t))
    ensures FileDate(DataFileName(t)) == Some(Midnight(t))
  {
    var name := DataFileName(t);
    var date := FormatIsoDate(t);
    assert Stem(name) == Prefix + date;
    assert forall k :: 0 <= k < |date| ==> date[k] != 'd';
    RemoveAllAbsent(date, Prefix);
    assert (Prefix + date)[..|Prefix|] == Prefix;
    assert (Prefix + date)[|Prefix|..] == date;
    IsoDateRoundTrip(t);
  }

  /** A file written on the day of `t` is deleted exactly when that day is
      more than `keepDays` days before today: one exactly `keepDays` old is
      kept, and so is one dated in the future when `keepDays >= 0`. */
  lemma WrittenFileRetention(now: DateTime, keepDays: int, t: DateTime)
    requires Valid(now) && Valid(t) && t.year >= 1000
    ensures IsDataFileName(DataFileName(t))
    ensures Decide(now, keepDays, DataFileName(t)) != Skip
    ensures Decide(now, keepDays, DataFileName(t)) == Delete <==> Ordinal(now) - Ordinal(t) > keepDays
  {
    DataFileNameDate(t);
  }

  /** At 01:30 on 10 March 2025 with 30 days kept, the file of 8 February
      (30 days old) stays and the file of 7 February goes. */
  lemma ThirtyDayBoundary()
    ensures var now := DateTime(2025, 3, 10, 1, 30, 0, 0);
            && Decide(now, 30, DataFileName(DateTime(2025, 2, 8, 0, 0, 0, 0))) == Keep
            && Decide(now, 30, DataFileName(DateTime(2025, 2, 7, 0, 0, 0, 0))) == Delete
  {
    var now := DateTime(2025, 3, 10, 1, 30, 0, 0);
    var kept, gone := DateTime(2025, 2, 8, 0, 0, 0, 0), DateTime(2025, 2, 7, 0, 0, 0, 0);
    assert !IsLeap(2025);
    assert Ordinal(now) - Ordinal(kept) == 30;
    assert Ordinal(now) - Ordinal(gone) == 31;
    WrittenFileRetention(now, 30, kept);
    WrittenFileRetention(now, 30, gone);
  }

  predicate AllDataFiles(names: seq<string>) {
    forall k :: 0 <= k < |names| ==> IsDataFileName(names[k])
  }

  /** The files left after one sweep, in listing order. */
  function Sweep(now: DateTime, keepDays: int, names: seq<string>): (kept: seq<string>)
    requires Valid(now) && AllDataFiles(names)
    ensures AllDataFiles(kept)
    ensures |kept| <= |names|
    ensures forall n :: n in kept <==> n in names && Decide(now, keepDays, n) != Delete
  {
    if |names| == 0 then []
    else
      var rest := Sweep(now, keepDays, names[1..]);
      if Decide(now, keepDays, names[0]) == Delete then rest else [names[0]] + rest
  }

  /** A second sweep at the same instant deletes nothing. */
  lemma {:induction false} SweepIdempotent(now: DateTime, keepDays: int, names: seq<string>)
    requires Valid(now) && AllDataFiles(names)
    ensures Sweep(now, keepDays, Sweep(now, keepDays, names)) == Sweep(now, keepDays, names)
  {
    if |names| > 0 {
      SweepIdempotent(now, keepDays, names[1..]);
      var rest := Sweep(now, keepDays, names[1..]);
      if Decide(now, keepDays, names[0]) != Delete {
        assert ([names[0]] + rest)[1..] == rest;
      }
    }
  }
}
