/** Real-valued helpers shared by the stretcher and the mixer.
    Python floats are idealised as exact reals throughout. */
module Samples {

  /** Python's `int()` applied to a float: truncation toward zero. */
  function Trunc(x: real): (r: int)
    ensures x >= 0.0 ==> r as real <= x < r as real + 1.0
    ensures x < 0.0 ==> r as real - 1.0 < x <= r as real
  {
    if x >= 0.0 then x.Floor else -((-x).Floor)
  }

  function Abs(x: real): real {
    if x < 0.0 then -x else x
  }

  function Max(a: int, b: int): int {
    if a < b then b else a
  }

  function Min(a: int, b: int): int {
    if a < b then a else b
  }

  /** `np.clip(x, -1.0, 1.0)`: the nearest point of [-1, 1]. */
  function Clip(x: real): (r: real)
    ensures -1.0 <= r <= 1.0
    ensures -1.0 <= x <= 1.0 ==> r == x
    ensures x > 1.0 ==> r == 1.0
    ensures x < -1.0 ==> r == -1.0
  {
    if x > 1.0 then 1.0 else if x < -1.0 then -1.0 else x
  }

  /** `np.zeros(n)`. */
  function Zeros(n: nat): (r: seq<real>)
    ensures |r| == n
    ensures forall i :: 0 <= i < n ==> r[i] == 0.0
  {
    seq(n, _ => 0.0)
  }

  /** Elementwise product of two equally long sample sequences. */
  function Mul(a: seq<real>, b: seq<real>): (r: seq<real>)
    requires |a| == |b|
    ensures |r| == |a|
    ensures forall i :: 0 <= i < |a| ==> r[i] == a[i] * b[i]
  {
    seq(|a|, i requires 0 <= i < |a| => a[i] * b[i])
  }

  // Arithmetic facts the solver does not find on its own.

  lemma MulNonneg(x: real, y: real)
    requires x >= 0.0 && y >= 0.0
    ensures x * y >= 0.0
  {}

  lemma MulPositive(x: real, y: real)
    requires x > 0.0 && y > 0.0
    ensures x * y > 0.0
  {}

  lemma MulNonnegInt(x: int, y: int)
    requires x >= 0 && y >= 0
    ensures x * y >= 0
  {}

  lemma Distribute(x: real, y: real, z: real)
    ensures (x + y) * z == x * z + y * z
  {}

  /** A quotient by a positive number keeps the bounds the product form gives. */
  lemma DivBounds(x: real, n: real, lo: real, hi: real)
    requires n > 0.0 && n * lo <= x <= n * hi
    ensures lo <= x / n <= hi
  {
    var q := x / n;
    assert q * n == x;
    if q < lo {
      MulPositive(lo - q, n);
      assert false;
    }
    if q > hi {
      MulPositive(q - hi, n);
      assert false;
    }
  }

  function Sum(s: seq<real>): real {
    if |s| == 0 then 0.0 else Sum(s[..|s| - 1]) + s[|s| - 1]
  }

  /** A sum of terms that all lie in [lo, hi] lies between |s|*lo and |s|*hi. */
  lemma {:induction false} SumBounds(s: seq<real>, lo: real, hi: real)
    requires forall i :: 0 <= i < |s| ==> lo <= s[i] <= hi
    ensures |s| as real * lo <= Sum(s) <= |s| as real * hi
  {
    if |s| > 0 {
      SumBounds(s[..|s| - 1], lo, hi);
    }
  }

  /** Slice assignment `dst[at:at+len(chunk)] = chunk`: the chunk lands in
      its window and nothing else changes. */
  function WriteChunk(dst: seq<real>, at: int, chunk: seq<real>): (r: seq<real>)
    requires 0 <= at && at + |chunk| <= |dst|
    ensures |r| == |dst|
    ensures forall i :: at <= i < at + |chunk| ==> r[i] == chunk[i - at]
    ensures forall i :: 0 <= i < |dst| && !(at <= i < at + |chunk|) ==> r[i] == dst[i]
  {
    seq(|dst|, i requires 0 <= i < |dst| =>
      if at <= i < at + |chunk| then chunk[i - at] else dst[i])
  }

  /** Every sample of every channel lies in [-1, 1]. */
  predicate InUnitRange(chs: seq<seq<real>>) {
    forall c, i :: 0 <= c < |chs| && 0 <= i < |chs[c]| ==> -1.0 <= chs[c][i] <= 1.0
  }

  /** Every sample at or after index k is silence. */
  predicate SilentFrom(chs: seq<seq<real>>, k: int) {
    forall c, i :: 0 <= c < |chs| && k <= i < |chs[c]| && 0 <= i ==> chs[c][i] == 0.0
  }

  /** Silence from k on is silence from any later point on. */
  lemma SilentBeyond(chs: seq<seq<real>>, k: int, k': int)
    requires SilentFrom(chs, k) && k <= k'
    ensures SilentFrom(chs, k')
  {}

  /** All channels hold n samples. */
  predicate Rectangular(chs: seq<seq<real>>, n: int) {
    forall c :: 0 <= c < |chs| ==> |chs[c]| == n
  }
}
