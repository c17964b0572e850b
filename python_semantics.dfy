/**
  The two pieces of Python 2 semantics the fold schedule depends on:
  floor division of integers, and how a slice `s[start:stop]` chooses rows.
*/
module PySemantics {

  /** Python 2 `a / b` on two ints: the quotient rounded towards minus infinity.
      Dividing by zero raises in Python; callers rule that case out first. */
  function FloorDiv(a: int, b: int): (q: int)
    requires b != 0
    ensures b > 0 ==> q * b <= a < q * b + b
    ensures b < 0 ==> q * b + b < a <= q * b
  {
    if b > 0 then
      var q := a / b;
      assert a == q * b + a % b;
      q
    else
      var q := (-a) / (-b);
      assert -a == q * (-b) + (-a) % (-b);
      q
  }

  /** Where one bound of a slice lands in a sequence of length `n`: a negative
      bound counts back from the end, and the result is clamped to [0, n]. */
  function SliceBound(k: int, n: nat): (r: nat)
    ensures r <= n
    ensures 0 <= k <= n ==> r == k
    ensures k > n ==> r == n
    ensures k < 0 && 0 <= k + n ==> r == k + n
    ensures k + n < 0 ==> r == 0
  {
    if k < 0 then (if k + n < 0 then 0 else k + n)
    else if k > n then n
    else k
  }

  /** The rows `lo .. hi-1` that a slice selects. */
  datatype Window = Window(lo: nat, hi: nat)

  function Width(w: Window): int {
    w.hi - w.lo
  }

  /** The rows `s[start:stop]` selects from a sequence of length `n`
      (step 1): both bounds are normalised, and the slice is empty when
      the normalised stop does not lie after the normalised start. */
  function Slice(n: nat, start: int, stop: int): (w: Window)
    ensures w.lo <= w.hi <= n
    ensures w.lo == SliceBound(start, n)
    ensures SliceBound(start, n) < SliceBound(stop, n) ==> w.hi == SliceBound(stop, n)
    ensures SliceBound(stop, n) <= SliceBound(start, n) ==> Width(w) == 0
    ensures 0 <= start <= stop <= n ==> w == Window(start, stop)
  {
    var lo := SliceBound(start, n);
    var hi := SliceBound(stop, n);
    Window(lo, if hi < lo then lo else hi)
  }

  /** The elements a slice selects. */
  function Rows<T>(s: seq<T>, w: Window): (r: seq<T>)
    requires w.lo <= w.hi <= |s|
    ensures |r| == Width(w)
    ensures forall k :: 0 <= k < |r| ==> r[k] == s[w.lo + k]
  {
    s[w.lo..w.hi]
  }

  /** Slicing with two non-negative bounds never selects a row at or past
      the larger of the two: nothing wraps around to the end of the data. */
  lemma SliceBelowBounds(n: nat, start: int, stop: int)
    requires 0 <= start && 0 <= stop
    ensures Slice(n, start, stop).hi <= if start <= stop then stop else start
  {
  }
}
