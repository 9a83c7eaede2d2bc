/** The frame-rate cap at the end of each loop iteration: integer
    arithmetic on milliseconds and the display's refresh rate. */
module FrameCap {

  datatype Option<T> = None | Some(value: T)

  /** Integer division as C++ performs it on `int`: truncated toward zero. */
  function TruncDiv(a: int, b: int): (q: int)
    requires b != 0
    ensures b > 0 && a >= 0 ==> q * b <= a < (q + 1) * b
    ensures b < 0 && a >= 0 ==> q * b <= a < (q - 1) * b
  {
    if (a >= 0) == (b > 0) then
      (if a >= 0 then a / b else -a / -b)
    else
      -((if a >= 0 then a else -a) / (if b > 0 then b else -b))
  }

  /** Conversion of a floating value to `int` as C++ performs it: the
      fraction is dropped, rounding toward zero. */
  function TruncToInt(x: real): (i: int)
    ensures x >= 0.0 ==> i as real <= x < i as real + 1.0
    ensures x < 0.0 ==> i as real - 1.0 < x <= i as real
  {
    if x >= 0.0 then x.Floor else -((-x).Floor)
  }

  /** A whole number converts to itself. */
  lemma TruncWhole(n: int)
    ensures TruncToInt(n as real) == n
  {
  }

  /** The frame budget in whole milliseconds, `1000 / refreshRate`. */
  function Budget(refreshRate: int): (ms: int)
    requires refreshRate != 0
    ensures refreshRate > 0 ==> 0 <= ms <= 1000
    ensures refreshRate > 0 ==> ms * refreshRate <= 1000 < (ms + 1) * refreshRate
    ensures refreshRate < 0 ==> ms <= 0
  {
    TruncDiv(1000, refreshRate)
  }

  /** The delay issued after a frame that took `frameTicks` milliseconds:
      none when the frame used up its budget, and otherwise exactly the
      rest of the budget. */
  function FrameDelay(frameTicks: int, refreshRate: int): (d: Option<int>)
    requires refreshRate != 0
    ensures d.Some? <==> frameTicks < Budget(refreshRate)
    ensures d.Some? ==> d.value > 0 && frameTicks + d.value == Budget(refreshRate)
    ensures d.Some? && frameTicks >= 0 ==> d.value <= Budget(refreshRate)
  {
    var budget := Budget(refreshRate);
    if frameTicks < budget then Some(budget - frameTicks) else None
  }

  /** At 60 Hz a frame that took 10 ms waits 6 ms, one that took 20 ms does
      not wait. */
  lemma SixtyHertz()
    ensures Budget(60) == 16
    ensures FrameDelay(10, 60) == Some(6)
    ensures FrameDelay(20, 60) == None
  {
  }

  /** With a positive refresh rate, the frame plus its delay never take
      longer than one refresh period: `refreshRate` such frames fit into a
      second. */
  lemma CappedFrameFitsPeriod(frameTicks: int, refreshRate: int)
    requires refreshRate > 0 && 0 <= frameTicks
    requires frameTicks < Budget(refreshRate)
    ensures (frameTicks + FrameDelay(frameTicks, refreshRate).value) * refreshRate <= 1000
  {
  }
}
