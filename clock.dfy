/**
 * The host timer queue, reduced to what the modelled code relies on: time is a
 * logical clock in milliseconds, and a timer set for `ms` at time `t` is due
 * at `t + Delay(ms)`.
 */
module Clock {

  const TwoTo31 := 0x8000_0000
  const TwoTo32 := 0x1_0000_0000

  /**
   * The conversion of a number to a signed 32-bit integer (ECMAScript's
   * ToInt32): the one value in [-2^31, 2^31) that differs from `x` by a
   * multiple of 2^32.
   */
  function ToInt32(x: int): (r: int)
    ensures -TwoTo31 <= r < TwoTo31
    ensures (x - r) % TwoTo32 == 0
    ensures -TwoTo31 <= x < TwoTo31 ==> r == x
  {
    var w := x % TwoTo32;
    if w >= TwoTo31 then w - TwoTo32 else w
  }

  /**
   * The delay a timer really waits. The timeout argument of `setTimeout` is
   * a WebIDL `long`, so it goes through ToInt32 and wraps; browsers then
   * treat a negative timeout as 0.
   */
  function Delay(ms: int): (d: nat)
    ensures d < TwoTo31
    ensures ToInt32(ms) >= 0 ==> d == ToInt32(ms)
    ensures ToInt32(ms) < 0 ==> d == 0
    ensures 0 <= ms < TwoTo31 ==> d == ms
    ensures -TwoTo31 <= ms < 0 ==> d == 0
  {
    var w := ToInt32(ms);
    if w < 0 then 0 else w
  }

  /**
   * A delay of 2^31 ms or more does not wait that long: 2^31 wraps to a
   * negative timeout and fires at once, and 2^32 + 5 waits 5 ms.
   */
  lemma WrappedDelays()
    ensures Delay(TwoTo31 - 1) == TwoTo31 - 1
    ensures Delay(TwoTo31) == 0
    ensures Delay(TwoTo32 - 1) == 0
    ensures Delay(TwoTo32 + 5) == 5
  {
  }
}
