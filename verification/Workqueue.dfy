/** What both queues share: the options of a key and the backoff of a failed one. */
module Workqueue {
  import opened Timestamp

  const BACKOFF_PERIOD: Time := 30 * SECOND
  const MAXIMUM_BACKOFF_PERIOD: Time := 10 * MINUTE

  /** The zero value of each field means that the option is not set. */
  datatype Options = Options(priority: int, notBefore: Time, delay: Time)

  const NO_OPTIONS := Options(0, 0, 0)

  const TWO_64: int := 0x1_0000_0000_0000_0000
  const TWO_63: int := 0x8000_0000_0000_0000

  /** Two's-complement wrap-around of a 64-bit product. */
  function Wrap64(n: int): (r: int)
    ensures -TWO_63 <= r < TWO_63
    ensures -TWO_63 <= n < TWO_63 ==> r == n
    ensures (r - n) % TWO_64 == 0
  {
    (n + TWO_63) % TWO_64 - TWO_63
  }

  /** The wait before attempt `attempts + 1` of a prioritised key. */
  function Backoff(attempts: int): Time {
    var delay := Wrap64(attempts * BACKOFF_PERIOD);
    if delay > MAXIMUM_BACKOFF_PERIOD then MAXIMUM_BACKOFF_PERIOD else delay
  }

  /** While the product fits 64 bits the backoff is attempts times the period, capped, and a whole
      number of seconds. */
  lemma BackoffIsWhole(attempts: int)
    requires 0 <= attempts && attempts * BACKOFF_PERIOD < TWO_63
    ensures Backoff(attempts) == (if attempts * BACKOFF_PERIOD > MAXIMUM_BACKOFF_PERIOD then MAXIMUM_BACKOFF_PERIOD
                                  else attempts * BACKOFF_PERIOD)
    ensures 0 <= Backoff(attempts) <= MAXIMUM_BACKOFF_PERIOD && Backoff(attempts) % SECOND == 0
  {
    hide Wrap64;
    assert Wrap64(attempts * BACKOFF_PERIOD) == attempts * BACKOFF_PERIOD;
    assert attempts * BACKOFF_PERIOD == (attempts * 30) * SECOND;
    assert (attempts * 30) * SECOND % SECOND == 0;
  }

  /** From attempt 307445735 on the product no longer fits, and at first the backoff is negative: the key may
      be processed again at once. */
  lemma BackoffOverflows(attempts: int)
    requires 307_445_735 <= attempts <= 614_891_468
    ensures Backoff(attempts) == attempts * BACKOFF_PERIOD - TWO_64 < 0
    ensures Backoff(307_445_734) == MAXIMUM_BACKOFF_PERIOD
  {
    assert TWO_63 <= attempts * BACKOFF_PERIOD < TWO_64;
  }
}
