/** Half-spectra and the numerical primitives the stretcher treats as
    black boxes: the real FFT, the bin magnitude, the random phase
    rotation followed by the inverse real FFT, and the cosine used for the
    window tables. */
module Spectrum {
  import opened Samples

  datatype Complex = Complex(re: real, im: real)

  /** A half-spectrum of one channel: window/2 + 1 complex bins. */
  type Spectrum = seq<Complex>

  /** The foreign numerics of one run.
      - `rfft(x)` is `np.fft.rfft`: |x|/2 + 1 bins.
      - `magnitude(z)` is `np.abs` of one bin.
      - `resynth(it, c, s)` multiplies every bin of `s` by a random unit
        phase (the phases drawn on loop iteration `it` for channel `c`) and
        applies `np.fft.irfft`, giving 2*(|s|-1) samples; the iteration
        index makes the random stream an explicit input.
      - `cos2pi(x)` is cos(2*pi*x) and `sqrtHalf` is the float nearest
        sqrt(0.5), which is irrational; only its sign is assumed. */
  datatype Numerics = Numerics(
    rfft: seq<real> -> Spectrum,
    magnitude: Complex -> real,
    resynth: (nat, nat, Spectrum) -> seq<real>,
    cos2pi: real -> real,
    sqrtHalf: real)

  /** The shape promises of the foreign routines. */
  ghost predicate ValidNumerics(num: Numerics) {
    && (forall x :: |num.rfft(x)| == |x| / 2 + 1)
    && (forall it, c, s :: |s| >= 1 ==> |num.resynth(it, c, s)| == 2 * (|s| - 1))
    && num.sqrtHalf > 0.0
  }

  /** `current * t + previous * (1 - t)` for one bin (line 172). */
  function Lerp(current: Complex, previous: Complex, t: real): Complex {
    Complex(current.re * t + previous.re * (1.0 - t), current.im * t + previous.im * (1.0 - t))
  }

  /** Line 172 for one channel: the bin-by-bin cross-fade. */
  function Interpolate(current: Spectrum, previous: Spectrum, t: real): (r: Spectrum)
    requires |current| == |previous|
    ensures |r| == |current|
    ensures forall k :: 0 <= k < |r| ==> r[k] == Lerp(current[k], previous[k], t)
  {
    seq(|current|, k requires 0 <= k < |current| => Lerp(current[k], previous[k], t))
  }

  predicate Between(x: real, a: real, b: real) {
    (a <= x <= b) || (b <= x <= a)
  }

  /** A convex cross-fade position keeps every bin between its previous and
      current value, and its ends reproduce the two spectra exactly. */
  lemma InterpolateIsConvex(current: Spectrum, previous: Spectrum, t: real)
    requires |current| == |previous|
    requires 0.0 <= t <= 1.0
    ensures forall k :: 0 <= k < |current| ==>
      Between(Interpolate(current, previous, t)[k].re, previous[k].re, current[k].re) &&
      Between(Interpolate(current, previous, t)[k].im, previous[k].im, current[k].im)
    ensures t == 1.0 ==> Interpolate(current, previous, t) == current
    ensures t == 0.0 ==> Interpolate(current, previous, t) == previous
  {
    forall k | 0 <= k < |current|
      ensures Between(Interpolate(current, previous, t)[k].re, previous[k].re, current[k].re)
      ensures Between(Interpolate(current, previous, t)[k].im, previous[k].im, current[k].im)
    {
      LerpBetween(current[k].re, previous[k].re, t);
      LerpBetween(current[k].im, previous[k].im, t);
    }
  }

  lemma LerpBetween(a: real, b: real, t: real)
    requires 0.0 <= t <= 1.0
    ensures Between(a * t + b * (1.0 - t), b, a)
  {
    var x := a * t + b * (1.0 - t);
    assert x - b == (a - b) * t;
    assert a - x == (a - b) * (1.0 - t);
    if a >= b {
      MulNonneg(a - b, t);
      MulNonneg(a - b, 1.0 - t);
    } else {
      MulNonneg(b - a, t);
      MulNonneg(b - a, 1.0 - t);
    }
  }
}
