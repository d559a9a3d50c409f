/** The stretcher `paulstretch` (backend/main.py:24-225) over abstract
    numerics: every iteration optionally analyses a new input frame, runs
    the onset test on it, cross-fades the current and previous spectra,
    resynthesises a frame with random phases, overlap-adds it with the
    previous one and stores one clipped half window of output. */
module Stretch {
  import opened Samples
  import opened Signals
  import opened Window
  import opened Spectrum
  import opened Bands
  import opened Warp

  /** Line 45: a mono signal is processed as two identical channels. */
  function Tile(a: Audio): (chs: seq<seq<real>>)
    requires WellFormed(a)
    ensures |chs| >= 1 && Rectangular(chs, Length(a))
    ensures a.Mono? ==> |chs| == 2 && chs[0] == a.samples && chs[1] == a.samples
    ensures a.Multi? ==> chs == a.channels
  {
    match a
    case Mono(x) => [x, x]
    case Multi(chs) => chs
  }

  /** Line 66 on every channel. */
  function FadeChannels(chs: seq<seq<real>>, e: int): (r: seq<seq<real>>)
    requires e >= MinFade
    ensures |r| == |chs|
    ensures forall c :: 0 <= c < |chs| ==> r[c] == FadeOut(chs[c], e)
  {
    seq(|chs|, c requires 0 <= c < |chs| => FadeOut(chs[c], e))
  }

  /** `output_length` of line 97. */
  function OutputLength(n: nat, stretch: real): (len: nat)
    requires stretch > 0.0
    ensures len as real <= n as real * stretch < len as real + 1.0
  {
    MulNonneg(n as real, stretch);
    Trunc(n as real * stretch)
  }

  function ZeroSpectrum(k: nat): (r: Spectrum)
    ensures |r| == k
  {
    seq(k, _ => Complex(0.0, 0.0))
  }

  /** Lines 119-128: the windowed frame at `pos` of every channel, transformed. */
  function Analyse(chs: seq<seq<real>>, pos: int, hann: seq<real>, num: Numerics): (r: seq<Spectrum>)
    requires ValidNumerics(num)
    requires 0 <= pos && forall c :: 0 <= c < |chs| ==> pos + |hann| <= |chs[c]|
    ensures |r| == |chs|
    ensures forall c :: 0 <= c < |chs| ==>
      r[c] == num.rfft(Mul(chs[c][pos..pos + |hann|], hann)) && |r[c]| == |hann| / 2 + 1
  {
    seq(|chs|, c requires 0 <= c < |chs| => num.rfft(Mul(chs[c][pos..pos + |hann|], hann)))
  }

  /** Line 131: the magnitude of every bin. */
  function Magnitudes(spectra: seq<Spectrum>, magnitude: Complex -> real): (r: seq<seq<real>>)
    ensures |r| == |spectra|
    ensures forall c :: 0 <= c < |spectra| ==> |r[c]| == |spectra[c]|
    ensures forall c, k :: 0 <= c < |spectra| && 0 <= k < |spectra[c]| ==> r[c][k] == magnitude(spectra[c][k])
  {
    seq(|spectra|, c requires 0 <= c < |spectra| =>
      seq(|spectra[c]|, k requires 0 <= k < |spectra[c]| => magnitude(spectra[c][k])))
  }

  /** Lines 170-172 on every channel. */
  function CrossFade(current: seq<Spectrum>, previous: seq<Spectrum>, t: real): (r: seq<Spectrum>)
    requires |current| == |previous|
    requires forall c :: 0 <= c < |current| ==> |current[c]| == |previous[c]|
    ensures |r| == |current|
    ensures forall c :: 0 <= c < |current| ==> r[c] == Interpolate(current[c], previous[c], t)
  {
    seq(|current|, c requires 0 <= c < |current| => Interpolate(current[c], previous[c], t))
  }

  /** Lines 175-184: random phases, inverse transform, window again. */
  function Resynthesise(it: nat, spectra: seq<Spectrum>, hann: seq<real>, num: Numerics): (r: seq<seq<real>>)
    requires ValidNumerics(num)
    requires forall c :: 0 <= c < |spectra| ==> 2 * (|spectra[c]| - 1) == |hann| && |spectra[c]| >= 1
    ensures |r| == |spectra| && Rectangular(r, |hann|)
    ensures forall c :: 0 <= c < |spectra| ==> r[c] == Mul(num.resynth(it, c, spectra[c]), hann)
  {
    seq(|spectra|, c requires 0 <= c < |spectra| => Mul(num.resynth(it, c, spectra[c]), hann))
  }

  /** Lines 187-196 for one channel: the first half of the new frame plus
      the second half of the previous one, demodulated and clipped. */
  function OverlapAdd(buf: seq<real>, oldBuf: seq<real>, hinv: seq<real>, half: int): (r: seq<real>)
    requires |buf| == 2 * half && |oldBuf| == 2 * half && |hinv| == half && half >= 0
    ensures |r| == half
    ensures forall j :: 0 <= j < half ==> -1.0 <= r[j] <= 1.0
    ensures forall j :: 0 <= j < half ==> r[j] == Clip(Demodulate(buf[j], oldBuf[half + j], hinv[j]))
  {
    seq(half, j requires 0 <= j < half => Clip(Demodulate(buf[j], oldBuf[half + j], hinv[j])))
  }

  /** Line 193: the overlap-added sample times the inverse window. */
  function Demodulate(x: real, y: real, g: real): real {
    (x + y) * g
  }

  function OverlapAddAll(bufs: seq<seq<real>>, oldBufs: seq<seq<real>>, hinv: seq<real>, half: int): (r: seq<seq<real>>)
    requires half >= 0 && |hinv| == half && |oldBufs| == |bufs|
    requires Rectangular(bufs, 2 * half) && Rectangular(oldBufs, 2 * half)
    ensures |r| == |bufs| && Rectangular(r, half) && InUnitRange(r)
    ensures forall c :: 0 <= c < |bufs| ==> r[c] == OverlapAdd(bufs[c], oldBufs[c], hinv, half)
  {
    seq(|bufs|, c requires 0 <= c < |bufs| => OverlapAdd(bufs[c], oldBufs[c], hinv, half))
  }

  /** Line 200 on every channel. */
  function WriteAll(out: seq<seq<real>>, at: int, chunk: seq<seq<real>>, half: int): (r: seq<seq<real>>)
    requires |chunk| == |out| && Rectangular(chunk, half)
    requires forall c :: 0 <= c < |out| ==> 0 <= at && at + half <= |out[c]|
    ensures |r| == |out|
    ensures forall c :: 0 <= c < |out| ==> r[c] == WriteChunk(out[c], at, chunk[c])
  {
    seq(|out|, c requires 0 <= c < |out| => WriteChunk(out[c], at, chunk[c]))
  }

  /** What a run fixes before the loop starts: the faded channels, the
      window, the tick increment, the output length, the onset level and
      the numerics. */
  datatype Config = Config(
    chs: seq<seq<real>>, n: nat, win: WindowSpec, inc: real, len: nat, level: real, num: Numerics)

  ghost predicate ConfigOk(cfg: Config) {
    && |cfg.chs| >= 1 && Rectangular(cfg.chs, cfg.n)
    && cfg.win.half >= 1 && cfg.win.size == 2 * cfg.win.half
    && |cfg.win.hann| == cfg.win.size && |cfg.win.hinv| == cfg.win.half
    && 0.0 < cfg.inc <= 1.0
    && ValidNumerics(cfg.num)
  }

  /** Everything the loop carries from one iteration to the next. */
  datatype Engine = Engine(
    warp: WarpState,
    freqs: seq<Spectrum>,          // freqs: the spectra of the newest frame
    oldFreqs: seq<Spectrum>,       // old_freqs
    profile: seq<real>,            // freqs_scaled
    oldProfile: seq<real>,         // old_freqs_scaled
    oldWindowed: seq<seq<real>>,   // old_windowed_buf
    out: seq<seq<real>>)           // output_array

  /** The shapes of the carried arrays, the warp invariant, and the output
      facts: clipped everywhere and still silent from the write cursor on. */
  ghost predicate Shaped(e: Engine, cfg: Config) {
    var nch, h := |cfg.chs|, cfg.win.half;
    && Valid(e.warp, h, cfg.len)
    && |e.freqs| == nch && |e.oldFreqs| == nch
    && (forall c :: 0 <= c < nch ==> |e.freqs[c]| == h + 1 && |e.oldFreqs[c]| == h + 1)
    && |e.oldWindowed| == nch && Rectangular(e.oldWindowed, cfg.win.size)
    && |e.out| == nch && Rectangular(e.out, cfg.len)
    && InUnitRange(e.out) && SilentFrom(e.out, e.warp.writePos)
  }

  /** Lines 72-99: all arrays zero, the warp state at its start. */
  function Start(cfg: Config): (e: Engine)
    requires ConfigOk(cfg)
    ensures Shaped(e, cfg) && e.warp == Initial()
    ensures forall c, i :: 0 <= c < |e.out| && 0 <= i < cfg.len ==> e.out[c][i] == 0.0
  {
    var nch, h := |cfg.chs|, cfg.win.half;
    var freqs := seq(nch, _ => ZeroSpectrum(h + 1));
    Engine(Initial(), freqs, freqs, Zeros(NumBands), Zeros(NumBands),
      seq(nch, _ => Zeros(cfg.win.size)), seq(nch, _ => Zeros(cfg.len)))
  }

  /** Lines 114-149: on a fetching iteration the newest spectra and profile
      become the previous ones and the frame at the read cursor is analysed. */
  function Analysis(e: Engine, cfg: Config): (a: Engine)
    requires ConfigOk(cfg) && Shaped(e, cfg)
    requires e.warp.readPos < cfg.n - cfg.win.size
    ensures Shaped(a, cfg) && a.warp == e.warp && a.out == e.out && a.oldWindowed == e.oldWindowed
    ensures e.warp.fetch ==> a.oldFreqs == e.freqs && a.oldProfile == e.profile
    ensures e.warp.fetch ==> a.freqs == Analyse(cfg.chs, e.warp.readPos, cfg.win.hann, cfg.num)
    ensures e.warp.fetch ==> a.profile == Profile(Magnitudes(a.freqs, cfg.num.magnitude), cfg.win.half)
    ensures !e.warp.fetch ==> a == e
  {
    if e.warp.fetch then
      var freqs := Analyse(cfg.chs, e.warp.readPos, cfg.win.hann, cfg.num);
      var profile := Profile(Magnitudes(freqs, cfg.num.magnitude), cfg.win.half);
      e.(freqs := freqs, oldFreqs := e.freqs, profile := profile, oldProfile := e.profile)
    else e
  }

  /** Lines 152-165: the onset test of a fetching iteration. It fires only
      on a fetch, and then exactly when the profile energy grew more than
      `level` times over a non-negligible previous energy, or, after a
      near-silent frame, exactly when `level` is below 1. */
  function OnsetOf(a: Engine, level: real): (onset: bool)
    ensures onset ==> a.warp.fetch
    ensures a.warp.fetch && SumAbs(a.oldProfile) > OnsetFloor ==>
      (onset <==> Grew(SumAbs(a.profile), SumAbs(a.oldProfile), level))
    ensures a.warp.fetch && SumAbs(a.oldProfile) <= OnsetFloor ==> (onset <==> level < 1.0)
  {
    var s1, s2 := SumAbs(a.profile), SumAbs(a.oldProfile);
    OnsetCriterion(s1, s2, level);
    a.warp.fetch && OnsetDetected(OnsetScore(s1, s2), level)
  }

  /** The onset test scores the profile of the frame just fetched at the
      read cursor against the profile of the frame fetched before it, and
      it never fires between fetches. */
  lemma OnsetOfAnalysis(e: Engine, cfg: Config, level: real)
    requires ConfigOk(cfg) && Shaped(e, cfg)
    requires e.warp.readPos < cfg.n - cfg.win.size
    ensures !e.warp.fetch ==> !OnsetOf(Analysis(e, cfg), level)
    ensures e.warp.fetch ==> (OnsetOf(Analysis(e, cfg), level) <==>
      OnsetDetected(OnsetScore(SumAbs(Analysis(e, cfg).profile), SumAbs(e.profile)), level))
  {}

  /** When every magnitude of the fetched frame lies in [lo, hi], so does
      every band of its profile. */
  lemma AnalysedProfileWithin(e: Engine, cfg: Config, lo: real, hi: real)
    requires ConfigOk(cfg) && Shaped(e, cfg) && e.warp.fetch
    requires e.warp.readPos < cfg.n - cfg.win.size
    requires var mags := Magnitudes(Analyse(cfg.chs, e.warp.readPos, cfg.win.hann, cfg.num), cfg.num.magnitude);
      forall c, k :: 0 <= c < |mags| && 0 <= k < |mags[c]| ==> lo <= mags[c][k] <= hi
    ensures forall i :: 0 <= i < NumBands ==> lo <= Analysis(e, cfg).profile[i] <= hi
  {
    var mags := Magnitudes(Analyse(cfg.chs, e.warp.readPos, cfg.win.hann, cfg.num), cfg.num.magnitude);
    ProfileWithin(mags, cfg.win.half, lo, hi);
  }

  /** Lines 170-190: the new windowed output frame of iteration `it`, made
      from the spectra cross-faded at `tick`. */
  function Synthesis(a: Engine, cfg: Config, it: nat, tick: real): (buf: seq<seq<real>>)
    requires ConfigOk(cfg) && Shaped(a, cfg)
    ensures |buf| == |cfg.chs| && Rectangular(buf, cfg.win.size)
    ensures forall c :: 0 <= c < |buf| ==>
      buf[c] == Mul(cfg.num.resynth(it, c, Interpolate(a.freqs[c], a.oldFreqs[c], tick)), cfg.win.hann)
    ensures tick == 1.0 ==> forall c :: 0 <= c < |buf| ==>
      buf[c] == Mul(cfg.num.resynth(it, c, a.freqs[c]), cfg.win.hann)
    ensures tick == 0.0 ==> forall c :: 0 <= c < |buf| ==>
      buf[c] == Mul(cfg.num.resynth(it, c, a.oldFreqs[c]), cfg.win.hann)
  {
    CrossFadeEnds(a.freqs, a.oldFreqs, tick);
    Resynthesise(it, CrossFade(a.freqs, a.oldFreqs, tick), cfg.win.hann, cfg.num)
  }

  /** A cross-fade at weight 1 is the current spectra, at weight 0 the previous ones. */
  lemma CrossFadeEnds(current: seq<Spectrum>, previous: seq<Spectrum>, t: real)
    requires |current| == |previous|
    requires forall c :: 0 <= c < |current| ==> |current[c]| == |previous[c]|
    ensures t == 1.0 ==> CrossFade(current, previous, t) == current
    ensures t == 0.0 ==> CrossFade(current, previous, t) == previous
  {
    if t == 1.0 || t == 0.0 {
      forall c | 0 <= c < |current|
        ensures CrossFade(current, previous, t)[c] == if t == 1.0 then current[c] else previous[c]
      {
        InterpolateIsConvex(current[c], previous[c], t);
      }
    }
  }

  /** `r` is `out` with every channel's `half` samples of `chunk` written
      at `at` when they fit before `len`, and is `out` itself when they do
      not; no sample outside that half window differs. */
  predicate Placed(r: seq<seq<real>>, out: seq<seq<real>>, at: int, chunk: seq<seq<real>>, half: int, len: nat) {
    && 0 <= at && |r| == |out| && |chunk| == |out|
    && Rectangular(r, len) && Rectangular(out, len) && Rectangular(chunk, half)
    && (forall c, i :: 0 <= c < |out| && 0 <= i < len && !(at <= i < at + half) ==> r[c][i] == out[c][i])
    && (at + half > len ==> r == out)
    && (at + half <= len ==> forall c, j :: 0 <= c < |out| && 0 <= j < half ==> r[c][at + j] == chunk[c][j])
  }

  /** Lines 199-200: the chunk lands at `at` when it fits; nothing outside
      that half window changes, the output stays clipped, and the silence
      after the cursor is kept past the chunk. */
  function Emit(out: seq<seq<real>>, at: int, chunk: seq<seq<real>>, half: int, len: nat): (r: seq<seq<real>>)
    requires half >= 1 && 0 <= at <= len
    requires |chunk| == |out| && Rectangular(chunk, half) && InUnitRange(chunk)
    requires Rectangular(out, len) && InUnitRange(out) && SilentFrom(out, at)
    ensures |r| == |out| && Rectangular(r, len) && InUnitRange(r)
    ensures at + half <= len ==> SilentFrom(r, at + half)
    ensures Placed(r, out, at, chunk, half, len)
  {
    if at + half <= len then WriteAll(out, at, chunk, half) else out
  }

  /** Lines 166-219: the second half of an iteration, on an already
      analysed engine: snap the warp state, resynthesise, overlap-add the
      chunk into the output and move the positions on. */
  function Render(a: Engine, cfg: Config, it: nat): (r: Engine)
    requires ConfigOk(cfg) && Shaped(a, cfg)
    ensures Shaped(r, cfg)
    ensures r.warp == Step(a.warp, cfg.inc, cfg.win.half, cfg.len, OnsetOf(a, cfg.level))
    ensures r.freqs == a.freqs && r.oldFreqs == a.oldFreqs && r.profile == a.profile && r.oldProfile == a.oldProfile
    ensures r.oldWindowed == Synthesis(a, cfg, it, Snap(a.warp, OnsetOf(a, cfg.level)).tick)
    ensures Placed(r.out, a.out, a.warp.writePos,
      OverlapAddAll(r.oldWindowed, a.oldWindowed, cfg.win.hinv, cfg.win.half), cfg.win.half, cfg.len)
  {
    var h := cfg.win.half;
    var t := Snap(a.warp, OnsetOf(a, cfg.level));
    var buf := Synthesis(a, cfg, it, t.tick);
    var out := Emit(a.out, a.warp.writePos, OverlapAddAll(buf, a.oldWindowed, cfg.win.hinv, h), h, cfg.len);
    StepPreservesValid(a.warp, cfg.inc, h, cfg.len, OnsetOf(a, cfg.level));
    Engine(Finish(t, cfg.inc, h, cfg.len), a.freqs, a.oldFreqs, a.profile, a.oldProfile, buf, out)
  }

  /** One pass of the loop body, lines 107-219, on iteration `it`. The warp
      state takes one `Step`; the output changes at most in the half window
      at the write cursor, and only when that window fits. */
  function Iterate(e: Engine, cfg: Config, it: nat): (r: Engine)
    requires ConfigOk(cfg) && Shaped(e, cfg)
    requires e.warp.readPos < cfg.n - cfg.win.size
    ensures Shaped(r, cfg)
    ensures r.warp == Step(e.warp, cfg.inc, cfg.win.half, cfg.len, OnsetOf(Analysis(e, cfg), cfg.level))
    ensures var a := Analysis(e, cfg);
      r.freqs == a.freqs && r.oldFreqs == a.oldFreqs && r.profile == a.profile && r.oldProfile == a.oldProfile
    ensures var a := Analysis(e, cfg);
      r.oldWindowed == Synthesis(a, cfg, it, Snap(e.warp, OnsetOf(a, cfg.level)).tick)
    ensures Placed(r.out, e.out, e.warp.writePos,
      OverlapAddAll(r.oldWindowed, e.oldWindowed, cfg.win.hinv, cfg.win.half), cfg.win.half, cfg.len)
  {
    Render(Analysis(e, cfg), cfg, it)
  }

  /** Lines 41-66 and 89-98: the configuration of a run. */
  function Configure(rate: real, input: Audio, stretch: real, seconds: real, onsetLevel: real, num: Numerics): (cfg: Config)
    requires stretch > 0.0 && WellFormed(input) && ValidNumerics(num)
    ensures ConfigOk(cfg)
    ensures cfg.n == Length(input) && cfg.win.size == WindowSize(seconds, rate)
    ensures cfg.len == OutputLength(Length(input), stretch)
    ensures cfg.inc == Increment(stretch) && cfg.level == onsetLevel
    ensures |cfg.chs| == |Tile(input)|
    ensures forall c :: 0 <= c < |cfg.chs| ==> cfg.chs[c] == FadeOut(Tile(input)[c], EndSize(rate))
    ensures input.Mono? ==> cfg.chs == [FadeOut(input.samples, EndSize(rate)), FadeOut(input.samples, EndSize(rate))]
  {
    Config(FadeChannels(Tile(input), EndSize(rate)), Length(input),
      MakeWindow(seconds, rate, num.cos2pi, num.sqrtHalf), Increment(stretch),
      OutputLength(Length(input), stretch), onsetLevel, num)
  }

  /** Lines 221-225: the first channel alone for a mono input, all
      channels otherwise. */
  function Restore(mono: bool, out: seq<seq<real>>, len: nat): (r: Audio)
    requires |out| >= 1 && Rectangular(out, len)
    ensures WellFormed(r) && r.Mono? == mono && Length(r) == len
    ensures mono ==> ChannelsOf(r) == [out[0]]
    ensures !mono ==> ChannelsOf(r) == out
    ensures InUnitRange(out) ==> Bounded(r)
  {
    if mono then Mono(out[0]) else Multi(out)
  }

  lemma RestoreKeepsSilence(mono: bool, out: seq<seq<real>>, len: nat, k: int)
    requires |out| >= 1 && Rectangular(out, len) && SilentFrom(out, k)
    ensures SilentFrom(ChannelsOf(Restore(mono, out, len)), k)
  {}

  /** The whole routine. `num` supplies the transforms and the random
      stream; `steps` is the number of loop iterations and `final` the
      warp state the loop stopped in. The output keeps the input's shape,
      is `int(n * stretch)` samples long, never leaves [-1, 1], holds one
      half window per iteration until the next would not fit and is
      silent after that; an input no longer than one window runs no
      iteration at all. */
  method Paulstretch(rate: real, input: Audio, stretch: real, seconds: real, onsetLevel: real, num: Numerics)
    returns (output: Audio, final: WarpState, steps: nat)
    requires stretch > 0.0 && WellFormed(input) && ValidNumerics(num)
    ensures WellFormed(output) && output.Mono? == input.Mono?
    ensures output.Multi? ==> |output.channels| == |input.channels|
    ensures Length(output) == OutputLength(Length(input), stretch)
    ensures Bounded(output)
    ensures var w := WindowSize(seconds, rate);
      && Valid(final, w / 2, Length(output))
      && final.writePos == (w / 2) * Min(steps, Length(output) / (w / 2))
      && final.readPos >= Length(input) - w
      && (Length(input) <= w ==> steps == 0 && final.writePos == 0)
    ensures SilentFrom(ChannelsOf(output), final.writePos)
    ensures var h := WindowSize(seconds, rate) / 2;
      SilentFrom(ChannelsOf(output), h * (Length(output) / h))
    ensures Length(input) <= WindowSize(seconds, rate) ==> SilentFrom(ChannelsOf(output), 0)
  {
    var cfg := Configure(rate, input, stretch, seconds, onsetLevel, num);
    var e;
    e, steps := Run(cfg);
    final := e.warp;
    output := Restore(input.Mono?, e.out, cfg.len);
    RestoreKeepsSilence(input.Mono?, e.out, cfg.len, final.writePos);
    RestoreKeepsSilence(input.Mono?, e.out, cfg.len, cfg.win.half * (cfg.len / cfg.win.half));
  }

  /** Lines 106-219: the main loop, from the start state until the read
      cursor reaches n - w. */
  method Run(cfg: Config) returns (e: Engine, steps: nat)
    requires ConfigOk(cfg)
    ensures Shaped(e, cfg)
    ensures e.warp.readPos >= cfg.n - cfg.win.size
    ensures e.warp.writePos == cfg.win.half * Min(steps, cfg.len / cfg.win.half)
    ensures SilentFrom(e.out, cfg.win.half * (cfg.len / cfg.win.half))
    ensures cfg.n <= cfg.win.size ==> steps == 0 && e.warp.writePos == 0
  {
    var n, w, h := cfg.n, cfg.win.size, cfg.win.half;
    e := Start(cfg);
    steps := 0;
    WriteCursorCount(h, cfg.len, 0);
    while e.warp.readPos < n - w
      invariant Shaped(e, cfg)
      invariant e.warp.writePos == h * Min(steps, cfg.len / h)
      invariant n <= w ==> steps == 0
      decreases n - w - e.warp.readPos, Phase(e.warp), TickBudget(e.warp, cfg.inc)
    {
      WriteCursorCount(h, cfg.len, steps);
      StepDecreases(e.warp, cfg.inc, h, cfg.len, OnsetOf(Analysis(e, cfg), cfg.level), n - w);
      e := Iterate(e, cfg, steps);
      steps := steps + 1;
    }
    WriteCursorCount(h, cfg.len, steps);
    SilentBeyond(e.out, e.warp.writePos, h * (cfg.len / h));
  }
}
