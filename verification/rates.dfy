/** The cache hit rate shown after a run, saved with the daily data and
    shown in the report, for the day and for the last seven days. */
module Rates {

  /** `hits / (hits + misses) * 100`, or 0 when there was no lookup at all. */
  function HitRate(hits: nat, misses: nat): (rate: real)
    ensures hits + misses == 0 ==> rate == 0.0
    ensures hits + misses > 0 ==> rate * (hits + misses) as real == 100.0 * hits as real
    ensures 0.0 <= rate <= 100.0
    ensures rate == 100.0 <==> hits > 0 && misses == 0
  {
    var total := hits + misses;
    if total > 0 then
      var rate := (hits as real / total as real) * 100.0;
      assert rate * total as real == 100.0 * hits as real;
      rate
    else 0.0
  }

  /** Three hits and one miss give a rate of 75. */
  lemma ThreeHitsOneMiss()
    ensures HitRate(3, 1) == 75.0
  {
  }
}
