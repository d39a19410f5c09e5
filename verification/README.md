# dnsmasq log analyzer: ingestion and aggregation model

A Dafny model of the ingestion core of `DnsmasqAnalyzer` (`dnsmasq_analyzer.py`):
how one raw dnsmasq log line becomes a query, cache-hit or forward event, how a
run folds the lines of the log into today's statistics while skipping lines it
has already counted, the cache hit rate derived from them, and the two pruning
rules (the fingerprint ledger's size bounds and the retention sweep over daily
data files).

The clock is a parameter. One instant `now` stands for every `datetime.now()`
the code reads during a whole run of `analyze_log`: the current year (line 66),
the fallback stamp (line 78) and the window test (line 207) all use it, for
every line of the log. The three regular expressions and the MD5 line hash are
parameters too (`Classifier.Matchers`, `Aggregate.Env`).

Modules, leaves first:

- `Wrappers` (`wrappers.dfy`): `Option`.
- `Text` (`text.dfy`): `str.strip()` (with Python's exact whitespace set) and `str.lower()`.
- `Calendar` (`calendar.dfy`): naive `datetime` values, their validity, the
  proleptic Gregorian day ordinal, the microsecond timeline, and `timedelta.days`.
- `TimeParse` (`timeparse.dfy`): `strptime` for `"%Y %b %d %H:%M:%S"` and
  `"%Y-%m-%d"`, with the matching `strftime` for round trips.
- `Classifier` (`classifier.dfy`): `parse_log_line`.
- `Ledger` (`ledger.dfy`): line fingerprints, `list(set)`, `cleanup_processed_lines_hash`
  and the persisted fingerprint list.
- `Aggregate` (`aggregate.dfy`): today's statistics, the per-line step of
  `analyze_log`, the fold over a log, exactly-once counting.
- `Rates` (`rates.dfy`): the cache hit rate.
- `Retention` (`retention.dfy`): the per-file decision of `cleanup_old_data`.

Points where the code behaves in a way worth knowing, all modelled as written:

- The year of a syslog stamp is always the current year. A December line read
  on 1 January becomes a future instant, and the 24-hour test admits every
  future instant (`Aggregate.DecemberLineCountedInJanuary`).
- An unreadable stamp (31 September, hour 24, second 60) becomes `now`, so such
  a line is always inside the window.
- `%Y` takes exactly four digits, so the stamp never parses when the current
  year is below 1000.
- Only admitted lines enter the ledger. A line rejected as unclassified or too
  old is looked at again on every run.
- Trimming the ledger keeps the last 10000 entries of `list(set)`. That order is
  arbitrary, so the kept entries are an arbitrary 10000, not the newest.
- The retention test floors the difference to whole days. A file therefore
  goes exactly when its date is more than `keep_days` calendar days before
  today's date, whatever the time of day.
- A file name may contain `dns_data_` more than once. `str.replace` removes
  every occurrence before the date is read. It does not rescan what it
  leaves, so `dns_dns_data_data_` becomes `dns_data_`.
- Exactly-once counting holds for one run followed by another in the same
  calendar year, with the ledger carried over unchanged
  (`Aggregate.SecondPassIsIdempotent`). Between two real runs the ledger can
  shrink, and then lines are counted again:
  - `cleanup_processed_lines_hash` cuts it to 10000 entries (lines 341-348);
  - `save_daily_data` saves at most 10000 fingerprints (line 291);
  - `load_existing_data` reads only today's file (lines 149-175), so on a new
    calendar day the ledger starts empty.

The code has none of the following, and neither has the model:

- no exclusion of reverse-lookup domains;
- no retry with the previous year;
- no multi-day back-window, pre-midnight grace or clock-skew allowance; the
  only window is `now - t <= 24h`;
- no timestamp or length in the fingerprint, which is the MD5 of the stripped line;
- no oldest-first eviction.

## Model

| member | source | states |
|---|---|---|
| `Text.Strip` | dnsmasq_analyzer.py:199 | the fingerprinted text is an infix of the line that neither starts nor ends with whitespace, and everything removed around it is whitespace |
| `Text.StripIdempotent` | dnsmasq_analyzer.py:199 | stripping an already stripped line changes nothing |
| `Text.StripIgnoresPadding` | dnsmasq_analyzer.py:199 | lines that differ only in whitespace around them hash the same text, so they are duplicates of each other |
| `Text.Lower` | dnsmasq_analyzer.py:84 | the lower-cased domain has the same length, contains no upper-case letter, and keeps every other character in place |
| `Text.LowerIdempotent` | dnsmasq_analyzer.py:84 | lower-casing a domain twice gives the same key as once |
| `Calendar.Micros` | dnsmasq_analyzer.py:207 | an instant lies inside the microsecond range of its calendar day |
| `Calendar.NextDayOrdinal` | dnsmasq_analyzer.py:320 | the day after any date has the next day number, across month ends, year ends and leap days |
| `Calendar.DaysBetween` | dnsmasq_analyzer.py:320 | `(now - d).days` is the floor of the difference in whole days, and lies between the difference of the calendar dates minus one and that difference |
| `Calendar.DaysBetweenMidnight` | dnsmasq_analyzer.py:320 | `(now - midnight_of_d).days` is the difference of the two calendar dates |
| `TimeParse.MonthNumber` | dnsmasq_analyzer.py:75 | `%b` accepts exactly the twelve English month abbreviations, in any letter case, and gives their number |
| `TimeParse.ParseLogStamp` | dnsmasq_analyzer.py:75 | a stamp that parses gives a valid `datetime` in the supplied year with no microseconds |
| `TimeParse.DayDigitsRoundTrip` | dnsmasq_analyzer.py:75 | `%d` reads a day back whether it is written unpadded (`"5"`, the token of a space-padded syslog day) or zero-padded (`"05"`) |
| `TimeParse.LogStampRoundTrip` | dnsmasq_analyzer.py:75 | for a time in a year from 1000 on, parsing the stamp dnsmasq writes for it (`"Jan  5 10:00:00"`, space-padded day) gives back that time, and so does parsing the zero-padded form `strftime` writes (`"Jan 05 10:00:00"`) |
| `TimeParse.ParseIsoDate` | dnsmasq_analyzer.py:317 | a file-name date that parses gives a valid `datetime` at midnight |
| `TimeParse.IsoDateRoundTrip` | dnsmasq_analyzer.py:317 | parsing a `%Y-%m-%d` date written with `strftime` gives midnight of that date |
| `Classifier.Resolve` | dnsmasq_analyzer.py:73-78 | an event's timestamp is always a valid instant in the current year |
| `Classifier.ResolveRoundTrip` | dnsmasq_analyzer.py:73-78 | the stamp written for an instant of the current year resolves to that instant, with a space-padded day as dnsmasq writes it and with a zero-padded one |
| `Classifier.SpacePaddedDayResolves` | dnsmasq_analyzer.py:73-75 | read on 6 January 2025, the stamp `Jan  5 10:00:00` (day token `5`) resolves to 10:00 on 5 January 2025 |
| `Classifier.ImpossibleDayFallsBack` | dnsmasq_analyzer.py:76-78 | a day the month lacks in the current year (31 September, 29 February of a common year) yields `now` |
| `Classifier.BadClockFallsBack` | dnsmasq_analyzer.py:76-78 | an hour, minute or second out of range (a second of 60 or 61 included) yields `now` |
| `Classifier.ParseLogLine` | dnsmasq_analyzer.py:64-124 | the query pattern wins over the cached pattern, which wins over the forwarded one. No match gives `None`. Each event carries its match's fields with the domain lower-cased, a valid current-year timestamp, and `hour == timestamp.hour` in 0..23 |
| `Ledger.Fingerprint` | dnsmasq_analyzer.py:181-184 | a line's fingerprint is the hash of its stripped text, characterised independently of how stripping is computed |
| `Ledger.PaddedLinesCollide` | dnsmasq_analyzer.py:199-204 | a line logged again with other whitespace around it has the same fingerprint, so it is a duplicate |
| `Ledger.ListSet` | dnsmasq_analyzer.py:346 | `list(s)` holds every element of the set exactly once, in an order the model leaves open |
| `Ledger.Trim` | dnsmasq_analyzer.py:341-348 | above 15000 fingerprints the ledger becomes a subset of exactly 10000 of them; at 15000 or fewer it is unchanged |
| `Ledger.Saved` | dnsmasq_analyzer.py:291 | the saved list is duplicate-free, has at most 10000 entries, all from the ledger, exactly 10000 when there were more, and lists the whole ledger otherwise |
| `Ledger.ReloadedLedger` | dnsmasq_analyzer.py:291 | the ledger rebuilt from the saved list is part of the old ledger: all of it up to 10000 fingerprints, exactly 10000 of them beyond |
| `Aggregate.Bump` | dnsmasq_analyzer.py:215 | `counter[k] += 1` raises the count of `k` by one, where a missing key counts 0, and leaves every other key's count alone |
| `Aggregate.BumpHit` | dnsmasq_analyzer.py:224 | one more hit in the given hour; its misses and every other hour are unchanged |
| `Aggregate.BumpMiss` | dnsmasq_analyzer.py:231 | one more miss in the given hour; its hits and every other hour are unchanged |
| `Aggregate.Record` | dnsmasq_analyzer.py:212-231 | a query appends itself and raises its domain, type, client and hour counts by one. A cache hit raises the hit total, its domain and its hour's hits. A forward raises the miss total, its domain, its upstream and its hour's misses. Nothing outside that group changes |
| `Aggregate.Step` | dnsmasq_analyzer.py:197-231 | a line whose fingerprint is in the ledger only raises the duplicate tally. A new line that classifies with `now - t <= 24h` enters the ledger and is counted once. Any other line leaves the state unchanged and stays out of the ledger |
| `Aggregate.Analyze` | dnsmasq_analyzer.py:197-231 | over a whole log the ledger only grows, and it grows by exactly the number of lines counted, which is also how many events the counters gained; new plus duplicate lines never exceed the lines read |
| `Aggregate.AnalyzeConcat` | dnsmasq_analyzer.py:197 | reading a log in two parts, one after the other, is reading it whole |
| `Aggregate.StatsIgnoreTallies` | dnsmasq_analyzer.py:192-193 | the run's new and duplicate tallies never influence the statistics |
| `Aggregate.PassSettles` | dnsmasq_analyzer.py:206-210 | after a pass every line of it is either in the ledger or would be turned away again |
| `Aggregate.SettledPassChangesNothing` | dnsmasq_analyzer.py:199-210 | a pass over lines that are all in the ledger or all rejectable counts nothing and changes no statistic |
| `Aggregate.InWindow` | dnsmasq_analyzer.py:207 | every instant at or after `now`, and every instant on today's date, is inside the 24-hour window; every instant two or more calendar days back is outside it |
| `Aggregate.RejectionPersists` | dnsmasq_analyzer.py:206-207 | a line turned away at `now` is turned away at any later instant of the same year: classifying does not read the clock, its stamp resolves to the same instant, and the window only moves forward |
| `Aggregate.SettledLater` | dnsmasq_analyzer.py:199-207 | lines that are each in the ledger or turned away at `now` stay so at any later instant of the same year |
| `Aggregate.SecondPassIsIdempotent` | dnsmasq_analyzer.py:197-231 | a second pass over the same lines, at the same instant or any later one in the same year, leaves every statistic and the ledger as the first pass left them and counts no new record |
| `Aggregate.RerunAfterAppend` | dnsmasq_analyzer.py:197-231 | re-reading a log later in the same year, after lines were appended, gives exactly what the appended lines alone give; at the same instant that is one pass over the whole grown log |
| `Aggregate.FreshConsistent` | dnsmasq_analyzer.py:45-58 | the empty counters of a new analyzer agree with its empty query list |
| `Aggregate.RecordKeepsConsistent` | dnsmasq_analyzer.py:212-218 | after counting any event, the domain, type, client and hour counters still equal the number of kept queries with each key |
| `Aggregate.AnalyzeKeepsConsistent` | dnsmasq_analyzer.py:212-218 | a run from counters that agree with the query list ends with counters that agree with it |
| `Aggregate.AnalyzeLog` | dnsmasq_analyzer.py:197-241 | `analyze_log` is the pass over all lines, then the ledger trimmed as `Ledger.Trim` says, then the hit rate of the resulting counters |
| `Aggregate.DecemberLineCountedInJanuary` | dnsmasq_analyzer.py:207 | at 00:30 on 1 January 2025 a line stamped `Dec 15 10:00:00` is placed on 15 December 2025 and admitted |
| `Rates.HitRate` | dnsmasq_analyzer.py:237-241 | the rate is 0 with no lookups. Otherwise rate × (hits + misses) = 100 × hits, so it lies in [0, 100]. It is 100 exactly when there are hits and no misses |
| `Rates.ThreeHitsOneMiss` | dnsmasq_analyzer.py:272 | three hits and one miss give 75 |
| `Retention.Stem` | dnsmasq_analyzer.py:314-315 | the stem is the name without its `.json` suffix and still starts with `dns_data_`, so the test at line 315 always passes for a globbed name |
| `Retention.RemoveAll` | dnsmasq_analyzer.py:316 | `replace` with an empty replacement never makes a string longer |
| `Retention.RemoveAllPrefix` | dnsmasq_analyzer.py:316 | a leading occurrence is removed and scanning resumes right after it |
| `Retention.RemoveAllAbsent` | dnsmasq_analyzer.py:316 | `replace('dns_data_', '')` leaves a string without the letter `d` unchanged |
| `Retention.FileDate` | dnsmasq_analyzer.py:316-317 | a date read from a file name is a valid `datetime` at midnight |
| `Retention.Decide` | dnsmasq_analyzer.py:314-330 | a name with no readable date is skipped, never deleted. A dated file is deleted exactly when its date is more than `keep_days` calendar days before today |
| `Retention.DataFileNameDate` | dnsmasq_analyzer.py:314-317 | the date read back from the name a daily file is written under is midnight of the day it was written |
| `Retention.WrittenFileRetention` | dnsmasq_analyzer.py:320-321 | a file the analyzer wrote is never skipped. It is deleted exactly when its day lies more than `keep_days` days back, so a file exactly `keep_days` old is kept |
| `Retention.ThirtyDayBoundary` | dnsmasq_analyzer.py:320-321 | at 01:30 on 10 March 2025 with 30 days kept, the file of 8 February stays and the file of 7 February goes |
| `Retention.Sweep` | dnsmasq_analyzer.py:311-330 | the files left are exactly those listed that are not deleted |
| `Retention.SweepIdempotent` | dnsmasq_analyzer.py:311-330 | a second sweep at the same instant deletes nothing more |

## Left out

- File and JSON I/O is not modelled. That covers `load_state`, `save_state`, `load_existing_data`, the writes in `save_daily_data`, `load_historical_data` and `get_data_directory_size`, and the `stat` and `unlink` calls in `cleanup_old_data` with their `OSError` handling. A run here starts from any `Stats` value.
- The reload is left out, and with it two effects: `load_existing_data` restores the counters but not the query list, and `save_daily_data` keeps only the top 100 cached and forwarded domains. So `Aggregate.Consistent` is only guaranteed for runs started from `Aggregate.Fresh`.
- Reading the log file is not modelled. Splitting it into lines and decoding with `errors='ignore'` happen before the model; the lines arrive as a sequence. The `try`/`except Exception` around the read is I/O failure handling and is not modelled.
- The MD5 hash is a parameter of `Aggregate.Env`, applied to the stripped line.
- The regular expressions are not modelled. `Classifier.Matchers` supplies their captures, and the timestamp capture comes split into its five tokens.
- The clock is a parameter, and one `now` stands for the whole run, while the code reads the clock again for every line (lines 66, 78 and 207). The model therefore cannot show what happens when the clock moves during a run: a run that crosses midnight of 31 December changes the year given to stamps partway through the log, and the 24-hour window moves forward as the run goes on.
- Floating-point rounding of the hit rate is not modelled; `Rates.HitRate` uses exact reals.
- The HTML report, the top-N rankings, the printed summaries and the CLI (`main`) are not modelled. The cleanup counters `cleanup_count` and `total_size_cleaned` only feed the printed summary.
- Text.Lower: maps only ASCII letters. Python's `str.lower()` also maps non-ASCII capitals, and may change the length (U+0130).
- TimeParse.MonthNumber: folds case in ASCII only. Python's case-insensitive matching also lets a few non-ASCII look-alikes match, such as U+017F for `s`.
- TimeParse.ParseLogStamp: reads ASCII digits only, and so do `TimeParse.ParseIsoDate` and `TimeParse.Number`. Python's `\d` in `strptime` also accepts other Unicode decimal digits.
- Retention.RemoveAll: its own contract only bounds the length. What it removes is stated by `Retention.RemoveAllPrefix` and `Retention.RemoveAllAbsent`. A contract saying that no occurrence remains would be false, because `replace` does not rescan what it leaves.
