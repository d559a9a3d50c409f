/** The mixing tail of `process_audio` (backend/main.py:262-303): fit the
    stretched background to the voice's length, amplify it, give it the
    voice's channel layout, add the two and scale the sum down when its peak
    exceeds full scale. numpy's exceptions become `Failure` values. */
module Mix {
  import opened Samples
  import opened Signals

  datatype MixError =
    | EmptyMix          // np.max of an empty array (line 300)
    | ShapeMismatch     // arrays that do not broadcast (line 297)
    | DivisionByZero    // len(...) / 0 or 1.0 / 0.0 (line 252, and line 89 of the stretcher)

  datatype Result<T> = Success(value: T) | Failure(error: MixError)

  // ---------------------------------------------------------------------
  // Length matching, lines 262-272

  /** Trim to n samples, or pad with zeros up to n. */
  function Fit(x: seq<real>, n: nat): (r: seq<real>)
    ensures |r| == n
    ensures forall i :: 0 <= i < n && i < |x| ==> r[i] == x[i]
    ensures forall i :: |x| <= i < n ==> r[i] == 0.0
  {
    if |x| >= n then x[..n] else x + Zeros(n - |x|)
  }

  /** A signal that already has the length is left alone, and padding then
      trimming back gives the original. */
  lemma FitRoundTrip(x: seq<real>, n: nat)
    ensures Fit(x, |x|) == x
    ensures n >= |x| ==> Fit(Fit(x, n), |x|) == x
  {
    if n >= |x| {
      var y := Fit(x, n);
      assert Fit(y, |x|) == y[..|x|];
      assert y[..|x|] == x;
    }
  }

  /** Every channel trimmed or padded to n samples. */
  function MatchLength(a: Audio, n: nat): (r: Audio)
    requires WellFormed(a)
    ensures WellFormed(r) && Length(r) == n && r.Mono? == a.Mono?
    ensures |ChannelsOf(r)| == |ChannelsOf(a)|
    ensures forall c :: 0 <= c < |ChannelsOf(a)| ==> ChannelsOf(r)[c] == Fit(ChannelsOf(a)[c], n)
  {
    match a
    case Mono(x) => Mono(Fit(x, n))
    case Multi(chs) => Multi(seq(|chs|, c requires 0 <= c < |chs| => Fit(chs[c], n)))
  }

  // ---------------------------------------------------------------------
  // Sample-wise maps: the gain of line 277 and the division of line 303

  function MapSamples(a: Audio, f: real -> real): (r: Audio)
    requires WellFormed(a)
    ensures WellFormed(r) && r.Mono? == a.Mono? && Length(r) == Length(a)
    ensures |ChannelsOf(r)| == |ChannelsOf(a)|
    ensures forall c, i :: 0 <= c < |ChannelsOf(a)| && 0 <= i < Length(a) ==>
      ChannelsOf(r)[c][i] == f(ChannelsOf(a)[c][i])
  {
    match a
    case Mono(x) => Mono(seq(|x|, i requires 0 <= i < |x| => f(x[i])))
    case Multi(chs) =>
      Multi(seq(|chs|, c requires 0 <= c < |chs| =>
        seq(|chs[c]|, i requires 0 <= i < |chs[c]| => f(chs[c][i]))))
  }

  /** Line 277: every sample multiplied by the gain factor. */
  function Amplify(a: Audio, gain: real): (r: Audio)
    requires WellFormed(a)
    ensures WellFormed(r) && r.Mono? == a.Mono? && Length(r) == Length(a)
    ensures |ChannelsOf(r)| == |ChannelsOf(a)|
    ensures forall c, i :: 0 <= c < |ChannelsOf(a)| && 0 <= i < Length(a) ==>
      ChannelsOf(r)[c][i] == ChannelsOf(a)[c][i] * gain
  {
    MapSamples(a, x => x * gain)
  }

  /** A non-zero gain is undone by its reciprocal: the gain loses nothing. */
  lemma AmplifyInverse(a: Audio, gain: real)
    requires WellFormed(a) && gain != 0.0
    ensures Amplify(Amplify(a, gain), 1.0 / gain) == a
  {
    var r := Amplify(Amplify(a, gain), 1.0 / gain);
    forall c, i | 0 <= c < |ChannelsOf(a)| && 0 <= i < Length(a)
      ensures ChannelsOf(r)[c][i] == ChannelsOf(a)[c][i]
    {
      UndoGain(ChannelsOf(a)[c][i], gain);
    }
    SameSamples(r, a);
  }

  lemma UndoGain(x: real, g: real)
    requires g != 0.0
    ensures x * g * (1.0 / g) == x
  {
    assert g * (1.0 / g) == 1.0;
  }

  /** Two signals of one layout and shape with equal samples are equal. */
  lemma SameSamples(a: Audio, b: Audio)
    requires WellFormed(a) && WellFormed(b) && a.Mono? == b.Mono?
    requires Length(a) == Length(b) && |ChannelsOf(a)| == |ChannelsOf(b)|
    requires forall c, i :: 0 <= c < |ChannelsOf(a)| && 0 <= i < Length(a) ==> ChannelsOf(a)[c][i] == ChannelsOf(b)[c][i]
    ensures a == b
  {
    var xs, ys := ChannelsOf(a), ChannelsOf(b);
    forall c | 0 <= c < |xs|
      ensures xs[c] == ys[c]
    {
      assert forall i :: 0 <= i < |xs[c]| ==> xs[c][i] == ys[c][i];
    }
    assert xs == ys;
    if a.Mono? {
      assert a.samples == xs[0];
    }
  }

  // ---------------------------------------------------------------------
  // Channel matching, lines 284-291

  /** The samples of all channels at frame i. */
  function Frame(chs: seq<seq<real>>, n: nat, i: int): (r: seq<real>)
    requires Rectangular(chs, n) && 0 <= i < n
    ensures |r| == |chs|
    ensures forall c :: 0 <= c < |chs| ==> r[c] == chs[c][i]
  {
    seq(|chs|, c requires 0 <= c < |chs| => chs[c][i])
  }

  /** `np.mean(x, axis=1)`: the mean of every frame over the channels. */
  function Downmix(chs: seq<seq<real>>, n: nat): (r: seq<real>)
    requires |chs| >= 1 && Rectangular(chs, n)
    ensures |r| == n
    ensures forall i :: 0 <= i < n ==> r[i] == Sum(Frame(chs, n, i)) / |chs| as real
  {
    seq(n, i requires 0 <= i < n => Sum(Frame(chs, n, i)) / |chs| as real)
  }

  /** Averaging identical channels gives that channel back, so duplicating
      a mono signal and mixing it down again is lossless. */
  lemma DownmixOfCopies(chs: seq<seq<real>>, x: seq<real>)
    requires |chs| >= 1 && forall c :: 0 <= c < |chs| ==> chs[c] == x
    ensures Downmix(chs, |x|) == x
  {
    forall i | 0 <= i < |x|
      ensures Downmix(chs, |x|)[i] == x[i]
    {
      MeanOfEqual(Frame(chs, |x|, i), x[i]);
    }
  }

  /** The mean of equal values is that value. */
  lemma MeanOfEqual(s: seq<real>, v: real)
    requires |s| >= 1 && forall c :: 0 <= c < |s| ==> s[c] == v
    ensures Sum(s) / |s| as real == v
  {
    SumBounds(s, v, v);
    Cancel(|s| as real, v);
  }

  lemma Cancel(k: real, v: real)
    requires k > 0.0
    ensures (k * v) / k == v
  {}

  /** The mean of a frame lies between its quietest and loudest channel. */
  lemma DownmixWithin(chs: seq<seq<real>>, n: nat, i: int, lo: real, hi: real)
    requires |chs| >= 1 && Rectangular(chs, n) && 0 <= i < n
    requires forall c :: 0 <= c < |chs| ==> lo <= chs[c][i] <= hi
    ensures lo <= Downmix(chs, n)[i] <= hi
  {
    var k := |chs| as real;
    SumBounds(Frame(chs, n, i), lo, hi);
    DivBounds(Sum(Frame(chs, n, i)), k, lo, hi);
  }

  /** Lines 284-291: a multi-channel background under a mono voice is
      mixed down; a mono background under a multi-channel voice is
      duplicated into two channels; otherwise it is left as it is. */
  function MatchChannels(voice: Audio, bg: Audio): (r: Audio)
    requires WellFormed(voice) && WellFormed(bg)
    ensures WellFormed(r) && Length(r) == Length(bg)
    ensures r.Mono? == voice.Mono?
    ensures voice.Mono? && bg.Multi? ==> r.samples == Downmix(bg.channels, Length(bg))
    ensures voice.Multi? && bg.Mono? ==> r.channels == [bg.samples, bg.samples]
    ensures voice.Mono? == bg.Mono? ==> r == bg
  {
    if voice.Mono? && bg.Multi? then Mono(Downmix(bg.channels, Length(bg)))
    else if voice.Multi? && bg.Mono? then Multi([bg.samples, bg.samples])
    else bg
  }

  // ---------------------------------------------------------------------
  // The sum, line 297

  /** Two equally long sample sequences added sample by sample. */
  function AddSamples(x: seq<real>, y: seq<real>): (r: seq<real>)
    requires |x| == |y|
    ensures |r| == |x|
    ensures forall i :: 0 <= i < |x| ==> r[i] == x[i] + y[i]
  {
    seq(|x|, i requires 0 <= i < |x| => x[i] + y[i])
  }

  /** Whether numpy can broadcast k channels against m channels. */
  predicate Broadcasts(k: int, m: int) {
    k == m || k == 1 || m == 1
  }

  /** The channel of a side that takes part in output channel c: its own
      channel c, or its only channel, which numpy repeats. */
  function Pick(chs: seq<seq<real>>, c: int): seq<real>
    requires 0 <= c && (|chs| == 1 || c < |chs|)
  {
    if |chs| == 1 then chs[0] else chs[c]
  }

  /** The channels of a broadcast sum of channel lists of one length n. */
  function Combine(vs: seq<seq<real>>, bs: seq<seq<real>>, n: nat): (r: seq<seq<real>>)
    requires |vs| >= 1 && |bs| >= 1 && Broadcasts(|vs|, |bs|)
    requires Rectangular(vs, n) && Rectangular(bs, n)
    ensures |r| == (if |vs| == 1 then |bs| else |vs|) && Rectangular(r, n)
    ensures forall c :: 0 <= c < |r| ==> r[c] == AddSamples(Pick(vs, c), Pick(bs, c))
  {
    var k := if |vs| == 1 then |bs| else |vs|;
    seq(k, c requires 0 <= c < k => AddSamples(Pick(vs, c), Pick(bs, c)))
  }

  /** `voice + bg` for two signals of the same kind and length, with numpy
      broadcasting over the channel axis: equal channel counts add channel
      by channel, a single channel is added to every channel of the other
      side, and any other pair of counts raises. */
  function AddSignals(voice: Audio, bg: Audio): (r: Result<Audio>)
    requires WellFormed(voice) && WellFormed(bg)
    requires voice.Mono? == bg.Mono? && Length(voice) == Length(bg)
    ensures r.Success? <==> voice.Mono? || Broadcasts(|voice.channels|, |bg.channels|)
    ensures r.Failure? ==> r.error == ShapeMismatch
    ensures r.Success? ==> WellFormed(r.value) && r.value.Mono? == voice.Mono? && Length(r.value) == Length(voice)
    ensures r.Success? && voice.Mono? ==> r.value.samples == AddSamples(voice.samples, bg.samples)
    ensures r.Success? && voice.Multi? ==>
      |r.value.channels| == (if |voice.channels| == 1 then |bg.channels| else |voice.channels|)
    ensures r.Success? && voice.Multi? ==> forall c :: 0 <= c < |r.value.channels| ==>
      r.value.channels[c] == AddSamples(Pick(voice.channels, c), Pick(bg.channels, c))
  {
    match voice
    case Mono(x) => Success(Mono(AddSamples(x, bg.samples)))
    case Multi(vs) =>
      if !Broadcasts(|vs|, |bg.channels|) then Failure(ShapeMismatch)
      else Success(Multi(Combine(vs, bg.channels, Length(voice))))
  }

  /** Adding a silent background of the voice's shape leaves the voice as it is. */
  lemma AddSilence(voice: Audio, bg: Audio)
    requires WellFormed(voice) && WellFormed(bg)
    requires voice.Mono? == bg.Mono? && Length(voice) == Length(bg)
    requires |ChannelsOf(bg)| == |ChannelsOf(voice)|
    requires SilentFrom(ChannelsOf(bg), 0)
    ensures AddSignals(voice, bg) == Success(voice)
  {
    var r := AddSignals(voice, bg).value;
    var vs, bs := ChannelsOf(voice), ChannelsOf(bg);
    forall c | 0 <= c < |vs|
      ensures AddSamples(vs[c], bs[c]) == vs[c]
    {
      AddZeros(vs[c], bs[c]);
    }
    if voice.Multi? {
      assert r.channels == vs;
    } else {
      assert r.samples == AddSamples(vs[0], bs[0]);
    }
  }

  lemma AddZeros(x: seq<real>, z: seq<real>)
    requires |x| == |z| && forall i :: 0 <= i < |z| ==> z[i] == 0.0
    ensures AddSamples(x, z) == x
  {}

  /** Under a mono voice, a mono background that was first duplicated for a
      multi-channel voice is mixed back down to itself. */
  lemma ChannelMatchRoundTrip(mono: Audio, multi: Audio, bg: Audio)
    requires mono.Mono? && multi.Multi? && bg.Mono?
    requires WellFormed(multi)
    ensures MatchChannels(mono, MatchChannels(multi, bg)) == bg
  {
    var two := MatchChannels(multi, bg);
    DownmixOfCopies(two.channels, bg.samples);
  }

  // ---------------------------------------------------------------------
  // Peak normalisation, lines 300-303

  /** The largest |x| of a sequence, 0 for none. */
  function MaxAbs(x: seq<real>): (m: real)
    ensures m >= 0.0
    ensures forall i :: 0 <= i < |x| ==> Abs(x[i]) <= m
    ensures |x| > 0 ==> exists i :: 0 <= i < |x| && Abs(x[i]) == m
  {
    if |x| == 0 then 0.0
    else
      var m := MaxAbs(x[..|x| - 1]);
      if Abs(x[|x| - 1]) > m then Abs(x[|x| - 1])
      else
        assert |x| > 1 ==> x[..|x| - 1][0] == x[0];
        m
  }

  /** `np.max(np.abs(x))` over every channel. */
  function Peak(chs: seq<seq<real>>): (m: real)
    ensures m >= 0.0
    ensures forall c, i :: 0 <= c < |chs| && 0 <= i < |chs[c]| ==> Abs(chs[c][i]) <= m
    ensures (forall c :: 0 <= c < |chs| ==> |chs[c]| == 0) ==> m == 0.0
    ensures (exists c :: 0 <= c < |chs| && |chs[c]| > 0) ==>
      exists c, i :: 0 <= c < |chs| && 0 <= i < |chs[c]| && Abs(chs[c][i]) == m
  {
    if |chs| == 0 then 0.0
    else
      var m := Peak(chs[..|chs| - 1]);
      var last := MaxAbs(chs[|chs| - 1]);
      if last > m || (last == m && |chs[|chs| - 1]| > 0) then last
      else
        assert forall c :: 0 <= c < |chs| - 1 ==> chs[..|chs| - 1][c] == chs[c];
        m
  }

  /** The peak of a signal. */
  function PeakOf(a: Audio): real
    requires WellFormed(a)
  {
    Peak(ChannelsOf(a))
  }

  /** Lines 300-303: an empty signal has no maximum and raises; a signal
      whose peak exceeds 1 is divided by its peak; any other signal is
      returned unchanged. */
  function Normalise(a: Audio): (r: Result<Audio>)
    requires WellFormed(a)
    ensures r.Failure? <==> Length(a) == 0
    ensures r.Failure? ==> r.error == EmptyMix
    ensures r.Success? ==> WellFormed(r.value) && r.value.Mono? == a.Mono? && Length(r.value) == Length(a)
    ensures r.Success? ==> |ChannelsOf(r.value)| == |ChannelsOf(a)|
    ensures r.Success? && PeakOf(a) <= 1.0 ==> r.value == a
    ensures r.Success? && PeakOf(a) > 1.0 ==> forall c, i :: 0 <= c < |ChannelsOf(a)| && 0 <= i < Length(a) ==>
      ChannelsOf(r.value)[c][i] == ChannelsOf(a)[c][i] / PeakOf(a)
  {
    if Length(a) == 0 then Failure(EmptyMix)
    else
      var p := PeakOf(a);
      if p > 1.0 then Success(MapSamples(a, x => x / p)) else Success(a)
  }

  /** After normalisation the peak is at most 1, and exactly 1 when it was
      above 1 before. */
  lemma NormalisedPeak(a: Audio)
    requires WellFormed(a) && Length(a) > 0
    ensures Normalise(a).Success?
    ensures PeakOf(Normalise(a).value) <= 1.0
    ensures PeakOf(a) > 1.0 ==> PeakOf(Normalise(a).value) == 1.0
  {
    var chs := ChannelsOf(a);
    assert |chs[0]| > 0;
    if PeakOf(a) > 1.0 {
      DividedByPeak(chs, ChannelsOf(Normalise(a).value), PeakOf(a));
    }
  }

  /** Dividing every sample by the peak of a non-silent channel list gives
      peak exactly 1. */
  lemma DividedByPeak(chs: seq<seq<real>>, rs: seq<seq<real>>, p: real)
    requires p > 0.0 && p == Peak(chs) && |chs| >= 1 && |chs[0]| > 0
    requires |rs| == |chs| && forall c :: 0 <= c < |chs| ==> |rs[c]| == |chs[c]|
    requires forall c, i :: 0 <= c < |chs| && 0 <= i < |chs[c]| ==> rs[c][i] == chs[c][i] / p
    ensures Peak(rs) == 1.0
  {
    forall c, i | 0 <= c < |rs| && 0 <= i < |rs[c]|
      ensures Abs(rs[c][i]) <= 1.0
    {
      AbsOfQuotient(chs[c][i], p);
    }
    var c0, i0 :| 0 <= c0 < |chs| && 0 <= i0 < |chs[c0]| && Abs(chs[c0][i0]) == p;
    AbsOfQuotient(chs[c0][i0], p);
    assert Abs(rs[c0][i0]) == 1.0;
  }

  /** |x / p| = |x| / p for p > 0, and it is at most 1 when |x| <= p. */
  lemma AbsOfQuotient(x: real, p: real)
    requires p > 0.0
    ensures Abs(x / p) == Abs(x) / p
    ensures Abs(x) <= p ==> Abs(x / p) <= 1.0
    ensures Abs(x) == p ==> Abs(x / p) == 1.0
  {
    if x < 0.0 {
      assert x / p == -((-x) / p);
      QuotientNonneg(-x, p);
    } else {
      QuotientNonneg(x, p);
    }
    if Abs(x) <= p {
      DivBounds(Abs(x), p, 0.0, 1.0);
    }
  }

  lemma QuotientNonneg(x: real, p: real)
    requires x >= 0.0 && p > 0.0
    ensures x / p >= 0.0
  {
    var q := x / p;
    assert q * p == x;
    if q < 0.0 {
      MulPositive(-q, p);
      assert false;
    }
  }

  /** Normalising twice is normalising once. */
  lemma NormaliseIdempotent(a: Audio)
    requires WellFormed(a) && Length(a) > 0
    ensures Normalise(Normalise(a).value) == Normalise(a)
  {
    NormalisedPeak(a);
  }

  // ---------------------------------------------------------------------
  // The whole tail, lines 262-303

  /** Lines 262-303: the stretched background fitted to the voice's
      length, amplified, given the voice's layout, added to the voice and
      peak-normalised. A mono voice always mixes; a multi-channel voice
      fails exactly when its channel count does not broadcast against the
      background's, which a mono background enters with two channels. */
  function MixTail(voice: Audio, stretched: Audio, gain: real): (r: Result<Audio>)
    requires WellFormed(voice) && WellFormed(stretched)
    ensures r.Failure? ==> r.error == ShapeMismatch || (r.error == EmptyMix && Length(voice) == 0)
    ensures Length(voice) > 0 && voice.Mono? ==> r.Success?
    ensures Length(voice) > 0 && voice.Multi? ==>
      (r.Success? <==> Broadcasts(|voice.channels|, if stretched.Mono? then 2 else |stretched.channels|))
    ensures r.Success? ==> WellFormed(r.value) && r.value.Mono? == voice.Mono?
    ensures r.Success? ==> Length(r.value) == Length(voice) && PeakOf(r.value) <= 1.0
  {
    var fitted := MatchLength(stretched, Length(voice));
    var matched := MatchChannels(voice, Amplify(fitted, gain));
    var mixed := AddSignals(voice, matched);
    if mixed.Failure? then Failure(mixed.error)
    else if Length(voice) == 0 then Normalise(mixed.value)
    else
      NormalisedPeak(mixed.value);
      Normalise(mixed.value)
  }

  /** A background at gain 0 contributes nothing: when it already has the
      voice's layout and channel count, the tail only normalises the voice. */
  lemma MixTailSilentBackground(voice: Audio, stretched: Audio)
    requires WellFormed(voice) && WellFormed(stretched)
    requires voice.Mono? == stretched.Mono? && |ChannelsOf(stretched)| == |ChannelsOf(voice)|
    ensures MixTail(voice, stretched, 0.0) == Normalise(voice)
  {
    var loud := Amplify(MatchLength(stretched, Length(voice)), 0.0);
    assert MatchChannels(voice, loud) == loud;
    AddSilence(voice, loud);
  }

  /** For a mono voice and a mono background whose sum stays within full
      scale, every output sample is the voice sample plus the gained
      background sample, the background cut or padded to the voice's
      length. */
  lemma MixTailWithinFullScale(voice: Audio, stretched: Audio, gain: real)
    requires WellFormed(voice) && WellFormed(stretched)
    requires voice.Mono? && stretched.Mono?
    requires forall i :: 0 <= i < |voice.samples| ==>
      Abs(voice.samples[i] + Fit(stretched.samples, |voice.samples|)[i] * gain) <= 1.0
    ensures |voice.samples| > 0 ==> MixTail(voice, stretched, gain).Success?
    ensures var bg := Fit(stretched.samples, |voice.samples|);
      forall i :: 0 <= i < |voice.samples| ==>
        (MixTail(voice, stretched, gain).Success? &&
         MixTail(voice, stretched, gain).value.samples[i] == voice.samples[i] + bg[i] * gain)
  {
    var n := |voice.samples|;
    var bg := Fit(stretched.samples, n);
    var loud := Amplify(MatchLength(stretched, n), gain);
    assert MatchChannels(voice, loud) == loud;
    var sum := AddSamples(voice.samples, loud.samples);
    assert AddSignals(voice, loud) == Success(Mono(sum));
    forall i | 0 <= i < n
      ensures sum[i] == voice.samples[i] + bg[i] * gain && Abs(sum[i]) <= 1.0
    {
      assert loud.samples[i] == ChannelsOf(loud)[0][i];
      assert i < |voice.samples|;
      assert bg == Fit(stretched.samples, |voice.samples|);
      assert Abs(voice.samples[i] + Fit(stretched.samples, |voice.samples|)[i] * gain) <= 1.0;
    }
    assert [sum][0] == sum;
    PeakAtMost([sum], 1.0);
  }

  /** A bound on every |sample| bounds the peak. */
  lemma PeakAtMost(chs: seq<seq<real>>, b: real)
    requires b >= 0.0
    requires forall c, i :: 0 <= c < |chs| && 0 <= i < |chs[c]| ==> Abs(chs[c][i]) <= b
    ensures Peak(chs) <= b
  {
  }
}
