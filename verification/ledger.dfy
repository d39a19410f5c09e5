/** The deduplication ledger: the set of fingerprints of lines already
    counted today (`processed_lines`), how a line's fingerprint is formed
    (`get_line_hash` of the stripped line), and the two bounds put on the
    set, in memory (`cleanup_processed_lines_hash`) and when persisted
    (`save_daily_data`). */
module Ledger {
  import Text

  /** An MD5 hex digest. */
  type Digest = string

  /** Lines above which the in-memory ledger is cut back, and the size it
      is cut back to; the cap on the persisted list. */
  const TrimAbove: nat := 15000
  const TrimTo: nat := 10000
  const SavedCap: nat := 10000

  /** The fingerprint of a raw line: the hash of the line with surrounding
      whitespace removed. The hash itself is a parameter. */
  function Fingerprint(hash: string -> Digest, line: string): (d: Digest)
    ensures exists r :: Text.StripOf(r, line) && d == hash(r)
  {
    hash(Text.Strip(line))
  }

  /** A line logged again with other whitespace around it has the same
      fingerprint, so it counts as a duplicate. */
  lemma PaddedLinesCollide(hash: string -> Digest, pre: string, t: string, post: string)
    requires forall k :: 0 <= k < |pre| ==> Text.IsSpace(pre[k])
    requires forall k :: 0 <= k < |post| ==> Text.IsSpace(post[k])
    ensures Fingerprint(hash, pre + t + post) == Fingerprint(hash, t)
  {
    Text.StripIgnoresPadding(pre, t, post);
  }

  predicate Distinct(q: seq<Digest>) {
    forall i, j :: 0 <= i < j < |q| ==> q[i] != q[j]
  }

  /** `q` is a `list(s)`: every element of `s` once, in some order. */
  predicate Lists(q: seq<Digest>, s: set<Digest>) {
    Distinct(q) && (forall x :: x in q ==> x in s) && (forall x :: x in s ==> x in q)
  }

  function Elements(q: seq<Digest>): set<Digest> {
    set x | x in q
  }

  /** A duplicate-free sequence has as many distinct elements as entries. */
  lemma {:induction false} DistinctCard(q: seq<Digest>)
    requires Distinct(q)
    ensures |Elements(q)| == |q|
  {
    if |q| > 0 {
      var rest := q[1..];
      assert Distinct(rest);
      DistinctCard(rest);
      assert Elements(q) == Elements(rest) + {q[0]};
      assert q[0] !in Elements(rest);
    }
  }

  /** Distinct entries stay distinct in a suffix. */
  lemma SuffixDistinct(q: seq<Digest>, k: nat)
    requires Distinct(q) && k <= |q|
    ensures Distinct(q[k..])
  {
  }

  /** `list(s)`: the elements of `s` in the interpreter's iteration order,
      which the model leaves arbitrary. */
  method ListSet(s: set<Digest>) returns (q: seq<Digest>)
    ensures Lists(q, s)
    ensures |q| == |s|
  {
    q := [];
    var rest := s;
    while rest != {}
      invariant rest <= s
      invariant Distinct(q)
      invariant forall x :: x in q ==> x in s && x !in rest
      invariant forall x :: x in s ==> x in q || x in rest
      decreases rest
    {
      var x :| x in rest;
      q := q + [x];
      rest := rest - {x};
    }
    DistinctCard(q);
    assert Elements(q) == s;
  }

  /** `cleanup_processed_lines_hash`: above 15000 fingerprints, keep the
      last 10000 of the listing `q` of `s` (an arbitrary 10000, not the most
      recently added); otherwise keep everything. */
  function Trim(s: set<Digest>, q: seq<Digest>): (r: set<Digest>)
    requires Lists(q, s)
    ensures r <= s
    ensures |s| > TrimAbove ==> |r| == TrimTo
    ensures |s| <= TrimAbove ==> r == s
  {
    ListedCard(q, s);
    if |s| > TrimAbove then
      var kept := q[|q| - TrimTo..];
      SuffixDistinct(q, |q| - TrimTo);
      DistinctCard(kept);
      Elements(kept)
    else s
  }

  /** The `processed_lines_hash` list written to the daily file: the last
      10000 entries of the listing when there are more, else all of it. */
  function Saved(s: set<Digest>, q: seq<Digest>): (r: seq<Digest>)
    requires Lists(q, s)
    ensures Distinct(r) && |r| <= SavedCap
    ensures forall x :: x in r ==> x in s
    ensures |s| <= SavedCap ==> Lists(r, s)
    ensures |s| > SavedCap ==> |r| == SavedCap
  {
    ListedCard(q, s);
    if |q| > SavedCap then
      SuffixDistinct(q, |q| - SavedCap);
      q[|q| - SavedCap..]
    else q
  }

  /** A listing is as long as the set it lists. */
  lemma ListedCard(q: seq<Digest>, s: set<Digest>)
    requires Lists(q, s)
    ensures |q| == |s|
  {
    DistinctCard(q);
    assert Elements(q) == s;
  }

  /** The ledger the next run starts from, `set(processed_lines_hash)`:
      part of today's ledger, all of it when it held at most 10000
      fingerprints, and exactly 10000 of them otherwise. */
  lemma ReloadedLedger(s: set<Digest>, q: seq<Digest>)
    requires Lists(q, s)
    ensures Elements(Saved(s, q)) <= s
    ensures |s| <= SavedCap ==> Elements(Saved(s, q)) == s
    ensures |s| > SavedCap ==> |Elements(Saved(s, q))| == SavedCap
  {
    DistinctCard(Saved(s, q));
  }
}
