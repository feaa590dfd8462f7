/**
 * Bounded histories as the monitors keep them: an array that is pushed to
 * and, once it holds more than its capacity, loses its oldest entry
 * (`push` then `shift`), or is cut back with `slice(-n)`.
 */
module History {

  /** `s.slice(-n)` for n >= 1: the last `n` elements, or all of them when there are fewer. */
  function TakeLast<T>(s: seq<T>, n: nat): (r: seq<T>)
  {
    if |s| <= n then s else s[|s| - n..]
  }

  /** `h.push(x); if (h.length > n) h.shift();` */
  function PushEvict<T>(h: seq<T>, x: T, n: nat): seq<T>
  {
    var p := h + [x];
    if |p| > n then p[1..] else p
  }

  /**
   * Pushing onto a history that holds the last `n` entries of a log, and
   * evicting the oldest when it overflows, holds the last `n` entries of the
   * extended log: the history is a FIFO window of capacity `n`.
   */
  lemma {:induction false} PushEvictKeepsLast<T>(log: seq<T>, x: T, n: nat)
    requires n >= 1
    ensures PushEvict(TakeLast(log, n), x, n) == TakeLast(log + [x], n)
  {
    var l := log + [x];
    if |log| < n {
      assert TakeLast(log, n) == log;
      assert TakeLast(l, n) == l;
    } else {
      var h := TakeLast(log, n);
      assert |h| == n;
      assert (h + [x])[1..] == l[|l| - n..];
    }
  }
}
