/** The audio path of `process_audio` (backend/main.py:251-303): stretch the
    background to the voice's length, then mix. Loading, resampling and
    writing files are left to the caller: both signals arrive here already
    at the same sample rate. */
module Process {
  import opened Samples
  import opened Signals
  import opened Spectrum
  import opened Stretch
  import opened Mix

  /** The onset level `process_audio` leaves at its default (line 24). */
  const DefaultOnsetLevel: real := 10.0

  /** Stretching by len(voice) / len(background) gives exactly the voice's
      length in exact arithmetic; the trimming and padding of lines 262-272
      only absorb the rounding of floating point. */
  lemma StretchedToVoiceLength(voiceLen: nat, bgLen: nat)
    requires voiceLen > 0 && bgLen > 0
    ensures voiceLen as real / bgLen as real > 0.0
    ensures OutputLength(bgLen, voiceLen as real / bgLen as real) == voiceLen
  {
    var v, b := voiceLen as real, bgLen as real;
    assert b * (v / b) == v;
    QuotientPositive(v, b);
  }

  lemma QuotientPositive(x: real, y: real)
    requires x > 0.0 && y > 0.0
    ensures x / y > 0.0
  {
    var q := x / y;
    assert q * y == x;
    if q <= 0.0 {
      MulNonneg(-q, y);
      assert false;
    }
  }

  /** Lines 251-303. An empty voice or background divides by zero (line
      252, or line 89 of the stretcher for an empty voice); otherwise the
      background is stretched to the voice's length and `Mix.MixTail` mixes
      it with the voice. The result then has the voice's length and
      layout, and its peak never exceeds full scale. A failure is always
      one of those two exceptions, never the empty-maximum error, because
      the mixed signal has the voice's non-zero length. The stretched
      background is returned as well, so that the mix can be related to
      it; it is the background itself when the division fails. */
  method ProcessAudio(voice: Audio, background: Audio, timeResolution: real, rate: real, gain: real, num: Numerics)
    returns (r: Result<Audio>, stretched: Audio)
    requires WellFormed(voice) && WellFormed(background) && ValidNumerics(num)
    ensures r == Failure(DivisionByZero) <==> Length(voice) == 0 || Length(background) == 0
    ensures r.Failure? ==> r.error == DivisionByZero || r.error == ShapeMismatch
    ensures r.Success? ==> WellFormed(r.value) && r.value.Mono? == voice.Mono?
    ensures r.Success? ==> Length(r.value) == Length(voice) && PeakOf(r.value) <= 1.0
    ensures voice.Mono? && Length(voice) > 0 && Length(background) > 0 ==> r.Success?
    ensures WellFormed(stretched) && stretched.Mono? == background.Mono?
    ensures stretched.Multi? ==> |stretched.channels| == |background.channels|
    ensures Length(voice) > 0 && Length(background) > 0 ==>
      Length(stretched) == Length(voice) && Bounded(stretched)
    ensures Length(voice) > 0 && Length(background) > 0 ==> r == MixTail(voice, stretched, gain)
  {
    if Length(voice) == 0 || Length(background) == 0 {
      return Failure(DivisionByZero), background;
    }
    var stretch := Length(voice) as real / Length(background) as real;
    StretchedToVoiceLength(Length(voice), Length(background));
    var final, steps;
    stretched, final, steps := Paulstretch(rate, background, stretch, timeResolution, DefaultOnsetLevel, num);
    r := MixTail(voice, stretched, gain);
  }
}
