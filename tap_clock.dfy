/**
 * The double-tap clock shared by the four tap handlers: a press compares its
 * 32-bit millisecond stamp with the stamp of the previous press on the same
 * slot, where a stored stamp of 0 means "no pending tap".
 */
module TapClock {

  /** guint32 / uint32_t */
  newtype u32 = x: int | 0 <= x < 0x1_0000_0000

  const Modulus: int := 0x1_0000_0000

  /** Two presses less than this many milliseconds apart make a double tap. */
  const DoubleTapWindow: u32 := 600

  /** The stored stamp that means "no pending tap". */
  const NoTap: u32 := 0

  /** The guint32 subtraction `a - b`, which wraps modulo 2^32. */
  function WrapSub(a: u32, b: u32): (d: u32)
    ensures (b as int + d as int) % Modulus == a as int
    ensures b <= a ==> d == a - b
    ensures a < b ==> d as int == a as int + Modulus - b as int
  {
    ((a as int - b as int) % Modulus) as u32
  }

  datatype Gesture = SingleTap | DoubleTap

  /**
   * The decision every tap handler makes on a press: with no pending tap the
   * press is a single tap; otherwise it is a double tap exactly when the
   * wrapped difference to the stored stamp is below the window.
   */
  function Classify(stored: u32, time: u32): Gesture
  {
    if stored == NoTap then SingleTap
    else if WrapSub(time, stored) < DoubleTapWindow then DoubleTap
    else SingleTap
  }

  /** The clock reading `k` milliseconds after `t`, on the 32-bit clock. */
  function After(t: u32, k: int): int
  {
    (t as int + k) % Modulus
  }

  /**
   * A press is a double tap exactly when a tap is pending and the press's
   * stamp lies less than 600 ms after it on the wrapping 32-bit clock.
   */
  lemma DoubleTapExactly(stored: u32, time: u32)
    ensures Classify(stored, time) == DoubleTap <==>
            stored != NoTap && exists k :: 0 <= k < DoubleTapWindow as int && After(stored, k) == time as int
  {
    if stored != NoTap {
      var d := WrapSub(time, stored);
      if d < DoubleTapWindow {
        assert After(stored, d as int) == time as int;
      }
      if k :| 0 <= k < DoubleTapWindow as int && After(stored, k) == time as int {
        if stored as int + k < Modulus {
          assert time as int == stored as int + k;
        } else {
          assert time as int == stored as int + k - Modulus;
        }
        assert d as int == k;
      }
    }
  }

  /** Two presses in stamp order: the second is a double tap iff it follows within the window. */
  lemma SecondPressInOrder(t1: u32, t2: u32)
    requires t1 != NoTap && t1 <= t2
    ensures Classify(t1, t2) == DoubleTap <==> t2 - t1 < DoubleTapWindow
  {
  }

  /**
   * A second press whose stamp is below the first: either the clock rolled
   * over (a double tap if the true gap is under the window), or the stamps
   * came out of order, which yields a huge wrapped difference and a single tap.
   */
  lemma SecondPressAcrossRollover(t1: u32, t2: u32)
    requires t1 != NoTap && t2 < t1
    ensures Classify(t1, t2) == DoubleTap <==> t2 as int + Modulus - t1 as int < DoubleTapWindow as int
  {
  }

  /**
   * The gestures of successive presses on one slot whose stored stamp starts
   * at `stored`. Every press stores its own stamp; the run stops at the first
   * double tap, which ends the process.
   */
  function Gestures(stored: u32, times: seq<u32>): (gs: seq<Gesture>)
    decreases |times|
  {
    if times == [] then []
    else if Classify(stored, times[0]) == DoubleTap then [DoubleTap]
    else [SingleTap] + Gestures(times[0], times[1..])
  }

  /** The stamp of the press before press `i` of a run (the initial stored stamp for the first). */
  function Previous(stored: u32, times: seq<u32>, i: nat): u32
    requires i < |times|
  {
    if i == 0 then stored else times[i - 1]
  }

  /** Press `i` of a run follows a pending tap by less than the window. */
  predicate ClosePress(stored: u32, times: seq<u32>, i: nat)
    requires i < |times|
  {
    Previous(stored, times, i) != NoTap && WrapSub(times[i], Previous(stored, times, i)) < DoubleTapWindow
  }

  /**
   * A run of presses ends the process exactly when some press comes less than
   * 600 ms after the press before it, and that earlier press was not stamped 0.
   */
  lemma {:induction false} RunQuitsIffClosePress(stored: u32, times: seq<u32>)
    ensures DoubleTap in Gestures(stored, times) <==>
            exists i :: 0 <= i < |times| && ClosePress(stored, times, i)
    decreases |times|
  {
    if times != [] {
      if Classify(stored, times[0]) == DoubleTap {
        assert ClosePress(stored, times, 0);
      } else {
        var rest := times[1..];
        RunQuitsIffClosePress(times[0], rest);
        assert Gestures(stored, times) == [SingleTap] + Gestures(times[0], rest);
        if i :| 0 <= i < |rest| && ClosePress(times[0], rest, i) {
          assert Previous(stored, times, i + 1) == Previous(times[0], rest, i);
          assert ClosePress(stored, times, i + 1);
        }
        if i :| 0 <= i < |times| && ClosePress(stored, times, i) {
          assert i != 0;
          assert Previous(times[0], rest, i - 1) == Previous(stored, times, i);
          assert ClosePress(times[0], rest, i - 1);
        }
      }
    }
  }

  /**
   * A press stamped exactly 0 stores 0, which reads as "no pending tap": the
   * next press on that slot is a single tap however soon it comes.
   */
  lemma ZeroStampNeverStartsDoubleTap(stored: u32, t: u32)
    ensures Gestures(stored, [0, t]) ==
            if Classify(stored, 0) == DoubleTap then [DoubleTap] else [SingleTap, SingleTap]
  {
    if Classify(stored, 0) != DoubleTap {
      assert [0 as u32, t][1..] == [t];
      assert Gestures(0, [t]) == [SingleTap];
    }
  }
}
