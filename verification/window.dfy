/** Window sizing, the anti-click fade-out applied to the end of the
    input, and the two raised-cosine coefficient tables
    (backend/main.py:52-74). The cosine itself is transcendental and is
    supplied by the caller as `cos2pi(x) = cos(2*pi*x)`, and sqrt(0.5) as
    `sqrtHalf`. */
module Window {
  import opened Samples

  const MinWindow: int := 16
  const MinFade: int := 16
  /** Fade length in seconds (50 ms). */
  const FadeSeconds: real := 0.05

  /** The window geometry plus its coefficient tables. */
  datatype WindowSpec = WindowSpec(size: int, half: int, hann: seq<real>, hinv: seq<real>)

  /** `windowsize` of lines 52-55: the largest even number not above
      max(16, int(seconds * rate)). */
  function WindowSize(seconds: real, rate: real): (w: int)
    ensures w >= MinWindow && w % 2 == 0
    ensures var m := Max(MinWindow, Trunc(seconds * rate)); w <= m < w + 2
  {
    var m := Trunc(seconds * rate);
    var m' := if m < MinWindow then MinWindow else m;
    (m' / 2) * 2
  }

  /** The Hann window of line 69: `0.5 - cos(2*pi*k/(w-1)) * 0.5`. */
  function Hann(cos2pi: real -> real, w: int): (r: seq<real>)
    requires w >= 2
    ensures |r| == w
  {
    seq(w, k => 0.5 - cos2pi(k as real / (w - 1) as real) * 0.5)
  }

  /** With cos(0) = cos(2*pi) = 1 the window is zero at both ends. */
  lemma HannVanishesAtEnds(cos2pi: real -> real, w: int)
    requires w >= 2
    requires cos2pi(0.0) == 1.0 && cos2pi(1.0) == 1.0
    ensures Hann(cos2pi, w)[0] == 0.0 && Hann(cos2pi, w)[w - 1] == 0.0
  {
    assert (w - 1) as real / (w - 1) as real == 1.0;
  }

  /** The amplitude-demodulation table `hinv_buf` of lines 73-74. */
  function InverseHalfWindow(cos2pi: real -> real, sqrtHalf: real, h: int): (r: seq<real>)
    requires sqrtHalf > 0.0 && h >= 1
    ensures |r| == h
  {
    var c := (1.0 + sqrtHalf) * 0.5;
    seq(h, k => 2.0 * (c - (1.0 - c) * cos2pi(k as real / h as real)) / c)
  }

  /** Lines 52-56 and 69-74: everything the main loop needs to know about
      the window. */
  function MakeWindow(seconds: real, rate: real, cos2pi: real -> real, sqrtHalf: real): (ws: WindowSpec)
    requires sqrtHalf > 0.0
    ensures ws.size >= MinWindow && ws.size == 2 * ws.half
    ensures ws.size == WindowSize(seconds, rate)
    ensures |ws.hann| == ws.size && |ws.hinv| == ws.half
  {
    var w := WindowSize(seconds, rate);
    WindowSpec(w, w / 2, Hann(cos2pi, w), InverseHalfWindow(cos2pi, sqrtHalf, w / 2))
  }

  /** `end_size` of lines 60-62. */
  function EndSize(rate: real): (e: int)
    ensures e >= MinFade
    ensures Trunc(rate * FadeSeconds) >= MinFade ==> e == Trunc(rate * FadeSeconds)
    ensures Trunc(rate * FadeSeconds) < MinFade ==> e == MinFade
  {
    Max(MinFade, Trunc(rate * FadeSeconds))
  }

  /** The k-th coefficient of `np.linspace(1, 0, e)`. */
  function FadeGain(k: int, e: int): real
    requires e >= 2
  {
    1.0 - k as real / (e - 1) as real
  }

  /** The fade ramp runs from exactly 1 down to exactly 0 and never leaves [0, 1]. */
  lemma FadeGainBounds(k: int, e: int)
    requires e >= 2 && 0 <= k < e
    ensures 0.0 <= FadeGain(k, e) <= 1.0
    ensures k == 0 ==> FadeGain(k, e) == 1.0
    ensures k == e - 1 ==> FadeGain(k, e) == 0.0
  {
    assert k as real <= (e - 1) as real;
    assert k as real / (e - 1) as real <= 1.0;
  }

  /** Lines 65-66: when the input is longer than the fade, its last e
      samples are multiplied by the linear ramp; otherwise it is untouched. */
  function FadeOut(x: seq<real>, e: int): (r: seq<real>)
    requires e >= MinFade
    ensures |r| == |x|
    ensures |x| <= e ==> r == x
    ensures |x| > e ==> forall i :: 0 <= i < |x| - e ==> r[i] == x[i]
    ensures |x| > e ==> forall i :: |x| - e <= i < |x| ==> r[i] == x[i] * FadeGain(i - (|x| - e), e)
  {
    if |x| <= e then x
    else
      seq(|x|, i requires 0 <= i < |x| =>
        if i < |x| - e then x[i] else x[i] * FadeGain(i - (|x| - e), e))
  }

  /** The fade only ever attenuates. */
  lemma FadeNeverAmplifies(x: seq<real>, e: int)
    requires e >= MinFade
    ensures forall i :: 0 <= i < |x| ==> Abs(FadeOut(x, e)[i]) <= Abs(x[i])
  {
    var r := FadeOut(x, e);
    forall i | 0 <= i < |x|
      ensures Abs(r[i]) <= Abs(x[i])
    {
      if |x| > e && i >= |x| - e {
        var g := FadeGain(i - (|x| - e), e);
        FadeGainBounds(i - (|x| - e), e);
        assert r[i] == x[i] * g;
        if x[i] >= 0.0 {
          MulNonneg(x[i], g);
          MulNonneg(x[i], 1.0 - g);
        } else {
          MulNonneg(-x[i], g);
          MulNonneg(-x[i], 1.0 - g);
        }
      }
    }
  }

  /** The fade reaches silence on the very last input sample. */
  lemma FadeSilencesLastSample(x: seq<real>, e: int)
    requires e >= MinFade && |x| > e
    ensures FadeOut(x, e)[|x| - 1] == 0.0
  {
    FadeGainBounds(e - 1, e);
  }
}
