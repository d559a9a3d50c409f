/** The coarse 32-band magnitude profile and the onset test built on it
    (backend/main.py:133-167).

    As written, band i spans bins [i*H//32, (i+1)*H//32 - 1] of the
    half-spectrum (H = half window), with the upper end raised to 0 and the
    lower end capped at H. For small H some band comes out with its upper
    end below its lower end; its average is then 0.0/0, a NaN, which makes
    every later onset score fall back to 1.0. `BandAsWritten` and the
    `...AsWritten` functions model that; `BandOf` is the corrected band
    (upper end raised to the lower end), identical for H >= 32, and it is
    the one the stretcher uses. */
module Bands {
  import opened Samples

  const NumBands: int := 32
  /** The near-zero guard of line 160 (1e-10). */
  const OnsetFloor: real := 0.0000000001

  datatype Band = Band(lo: int, hi: int)

  /** Lines 137-142 as written. */
  function BandAsWritten(i: int, h: int): Band
    requires 0 <= i < NumBands && h >= 0
  {
    var si := i * h / NumBands;
    var ei := (i + 1) * h / NumBands - 1;
    Band(if si > h then h else si, if ei < 0 then 0 else ei)
  }

  /** The band arithmetic: i*H and (i+1)*H stay below 32*H. */
  lemma BandArithmetic(i: int, h: int)
    requires 0 <= i < NumBands && h >= 0
    ensures (i + 1) * h == i * h + h
    ensures 0 <= i * h && i * h + h <= NumBands * h
  {
    MulNonnegInt(i, h);
    MulNonnegInt(NumBands - 1 - i, h);
    assert (NumBands - 1 - i) * h == NumBands * h - i * h - h;
  }

  /** The as-written lower end never needs its cap, stays below H, and for
      H >= 32 every upper end reaches at least the lower end. */
  lemma AsWrittenBounds(i: int, h: int)
    requires 0 <= i < NumBands && h >= 1
    ensures var w := BandAsWritten(i, h);
      w.lo == i * h / NumBands && 0 <= w.lo < h && 0 <= w.hi < h
    ensures h >= NumBands ==> BandAsWritten(i, h).hi == (i + 1) * h / NumBands - 1 >= BandAsWritten(i, h).lo
  {
    BandArithmetic(i, h);
    if h >= NumBands {
      assert (i * h + h) / NumBands >= (i * h + NumBands) / NumBands == i * h / NumBands + 1;
    }
  }

  /** The corrected band: bins lo..hi, never empty, never the Nyquist bin. */
  function BandOf(i: int, h: int): (b: Band)
    requires 0 <= i < NumBands && h >= 1
    ensures 0 <= b.lo <= b.hi < h
    ensures h >= NumBands ==> b == BandAsWritten(i, h)
  {
    AsWrittenBounds(i, h);
    var w := BandAsWritten(i, h);
    Band(w.lo, Max(w.lo, w.hi))
  }

  /** For a half window of at least 32 bins the 32 bands tile the bins
      0..H-1 exactly: they start at 0, end at H-1, each is nonempty and
      each starts right after the previous one ends. */
  lemma BandsPartition(h: int)
    requires h >= NumBands
    ensures BandOf(0, h).lo == 0
    ensures BandOf(NumBands - 1, h).hi == h - 1
    ensures forall i :: 0 <= i < NumBands ==> BandOf(i, h).lo <= BandOf(i, h).hi
    ensures forall i :: 0 <= i < NumBands - 1 ==> BandOf(i, h).hi + 1 == BandOf(i + 1, h).lo
  {
    forall i | 0 <= i < NumBands - 1
      ensures BandOf(i, h).hi + 1 == BandOf(i + 1, h).lo
    {
      BandArithmetic(i, h);
      BandArithmetic(i + 1, h);
    }
    BandArithmetic(NumBands - 1, h);
    assert NumBands * h / NumBands == h;
  }

  /** Bands further right lie strictly further right. */
  lemma {:induction false} BandsOrdered(h: int, i: int, j: int)
    requires h >= NumBands && 0 <= i < j < NumBands
    ensures BandOf(i, h).hi < BandOf(j, h).lo
    decreases j - i
  {
    BandsPartition(h);
    if j > i + 1 {
      BandsOrdered(h, i + 1, j);
    }
  }

  /** Every bin below H lies in exactly one band. */
  lemma BandContaining(h: int, k: int) returns (i: int)
    requires h >= NumBands && 0 <= k < h
    ensures 0 <= i < NumBands && BandOf(i, h).lo <= k <= BandOf(i, h).hi
    ensures forall j :: 0 <= j < NumBands && BandOf(j, h).lo <= k <= BandOf(j, h).hi ==> j == i
  {
    BandsPartition(h);
    i := BandContainingFrom(h, k, 0);
    forall j | 0 <= j < NumBands && BandOf(j, h).lo <= k <= BandOf(j, h).hi
      ensures j == i
    {
      if j < i {
        BandsOrdered(h, j, i);
      } else if i < j {
        BandsOrdered(h, i, j);
      }
    }
  }

  lemma {:induction false} BandContainingFrom(h: int, k: int, from: int) returns (i: int)
    requires h >= NumBands && 0 <= from < NumBands
    requires BandOf(from, h).lo <= k < h
    ensures from <= i < NumBands && BandOf(i, h).lo <= k <= BandOf(i, h).hi
    decreases NumBands - from
  {
    BandsPartition(h);
    if k <= BandOf(from, h).hi {
      i := from;
    } else {
      i := BandContainingFrom(h, k, from + 1);
    }
  }

  /** The total magnitude of bins lo..hi over all channels (line 147). */
  function BandTotal(mags: seq<seq<real>>, b: Band): real
    requires 0 <= b.lo <= b.hi
    requires forall c :: 0 <= c < |mags| ==> b.hi < |mags[c]|
  {
    if |mags| == 0 then 0.0
    else BandTotal(mags[..|mags| - 1], b) + Sum(mags[|mags| - 1][b.lo..b.hi + 1])
  }

  /** Line 148: the total divided by the number of bins times channels. */
  function BandAverage(mags: seq<seq<real>>, b: Band): real
    requires |mags| >= 1 && 0 <= b.lo <= b.hi
    requires forall c :: 0 <= c < |mags| ==> b.hi < |mags[c]|
  {
    BandTotal(mags, b) / ((b.hi - b.lo + 1) * |mags|) as real
  }

  /** `n` copies of `x` added up, which is n * x without a product. */
  function Repeat(n: nat, x: real): real {
    if n == 0 then 0.0 else Repeat(n - 1, x) + x
  }

  lemma {:induction false} RepeatIsProduct(n: nat, x: real)
    ensures Repeat(n, x) == n as real * x
  {
    if n > 0 {
      RepeatIsProduct(n - 1, x);
      Distribute((n - 1) as real, 1.0, x);
    }
  }

  lemma {:induction false} BandTotalBounds(mags: seq<seq<real>>, b: Band, lo: real, hi: real)
    requires 0 <= b.lo <= b.hi
    requires forall c :: 0 <= c < |mags| ==> b.hi < |mags[c]|
    requires forall c, k :: 0 <= c < |mags| && b.lo <= k <= b.hi ==> lo <= mags[c][k] <= hi
    ensures Repeat(|mags|, Repeat(b.hi - b.lo + 1, lo)) <= BandTotal(mags, b)
    ensures BandTotal(mags, b) <= Repeat(|mags|, Repeat(b.hi - b.lo + 1, hi))
  {
    if |mags| > 0 {
      var init, row := mags[..|mags| - 1], mags[|mags| - 1];
      BandTotalBounds(init, b, lo, hi);
      RowBounds(row, b, lo, hi);
      assert BandTotal(mags, b) == BandTotal(init, b) + Sum(row[b.lo..b.hi + 1]);
    }
  }

  /** One channel's share of a band total. */
  lemma RowBounds(row: seq<real>, b: Band, lo: real, hi: real)
    requires 0 <= b.lo <= b.hi < |row|
    requires forall k :: b.lo <= k <= b.hi ==> lo <= row[k] <= hi
    ensures Repeat(b.hi - b.lo + 1, lo) <= Sum(row[b.lo..b.hi + 1]) <= Repeat(b.hi - b.lo + 1, hi)
  {
    var part := row[b.lo..b.hi + 1];
    forall k | 0 <= k < |part|
      ensures lo <= part[k] <= hi
    {
      assert part[k] == row[b.lo + k];
    }
    SumBounds(part, lo, hi);
    RepeatIsProduct(|part|, lo);
    RepeatIsProduct(|part|, hi);
  }

  /** A band value is a true average: when every magnitude in the band lies
      in [lo, hi], so does the band value. */
  lemma BandAverageWithin(mags: seq<seq<real>>, b: Band, lo: real, hi: real)
    requires |mags| >= 1 && 0 <= b.lo <= b.hi
    requires forall c :: 0 <= c < |mags| ==> b.hi < |mags[c]|
    requires forall c, k :: 0 <= c < |mags| && b.lo <= k <= b.hi ==> lo <= mags[c][k] <= hi
    ensures lo <= BandAverage(mags, b) <= hi
  {
    BandTotalBounds(mags, b, lo, hi);
    AverageOfCells(BandTotal(mags, b), b.hi - b.lo + 1, |mags|, ((b.hi - b.lo + 1) * |mags|) as real, lo, hi);
  }

  /** A total of m rows of w cells, each cell in [lo, hi], averages into [lo, hi]. */
  lemma AverageOfCells(total: real, w: nat, m: nat, n: real, lo: real, hi: real)
    requires w >= 1 && m >= 1 && n == (w * m) as real
    requires Repeat(m, Repeat(w, lo)) <= total <= Repeat(m, Repeat(w, hi))
    ensures n > 0.0
    ensures lo <= total / n <= hi
  {
    CellCount(w, m, n, lo);
    CellCount(w, m, n, hi);
    DivBounds(total, n, lo, hi);
  }

  /** m rows of w copies of x make w*m copies, at least one. */
  lemma CellCount(w: nat, m: nat, n: real, x: real)
    requires w >= 1 && m >= 1 && n == (w * m) as real
    ensures Repeat(m, Repeat(w, x)) == n * x
    ensures n > 0.0
  {
    RepeatIsProduct(w, x);
    RepeatIsProduct(m, w as real * x);
    MulNonnegInt(w - 1, m - 1);
    CastProduct(w, m);
    Reassociate(m as real, w as real, x);
  }

  lemma CastProduct(a: int, b: int)
    ensures (a * b) as real == a as real * b as real
  {}

  lemma Reassociate(a: real, b: real, c: real)
    ensures a * (b * c) == (b * a) * c
  {}

  /** Lines 135-149: the onset profile of one analysed frame. */
  function Profile(mags: seq<seq<real>>, h: int): (p: seq<real>)
    requires h >= 1 && |mags| >= 1
    requires forall c :: 0 <= c < |mags| ==> |mags[c]| == h + 1
    ensures |p| == NumBands
    ensures forall i :: 0 <= i < NumBands ==> p[i] == BandAverage(mags, BandOf(i, h))
  {
    seq(NumBands, i requires 0 <= i < NumBands => BandAverage(mags, BandOf(i, h)))
  }

  /** The profile inherits any bounds of the magnitudes. */
  lemma ProfileWithin(mags: seq<seq<real>>, h: int, lo: real, hi: real)
    requires h >= 1 && |mags| >= 1
    requires forall c :: 0 <= c < |mags| ==> |mags[c]| == h + 1
    requires forall c, k :: 0 <= c < |mags| && 0 <= k <= h ==> lo <= mags[c][k] <= hi
    ensures forall i :: 0 <= i < NumBands ==> lo <= Profile(mags, h)[i] <= hi
  {
    forall i | 0 <= i < NumBands
      ensures lo <= Profile(mags, h)[i] <= hi
    {
      BandAverageWithin(mags, BandOf(i, h), lo, hi);
    }
  }

  /** `sum(abs(x) for x in p)` (lines 155-158). */
  function SumAbs(p: seq<real>): (r: real)
    ensures r >= 0.0
    ensures (forall i :: 0 <= i < |p| ==> p[i] == 0.0) ==> r == 0.0
  {
    if |p| == 0 then 0.0 else SumAbs(p[..|p| - 1]) + Abs(p[|p| - 1])
  }

  /** Lines 160-163: the ratio of the current profile energy s1 to the
      previous one s2, or 1.0 when s2 is below the guard. */
  function OnsetScore(s1: real, s2: real): (score: real)
    requires s1 >= 0.0 && s2 >= 0.0
    ensures score >= 0.0
    ensures s2 > OnsetFloor ==> (score > 1.0 <==> s1 > s2)
    ensures s2 > OnsetFloor ==> (score == 0.0 <==> s1 == 0.0)
    ensures s2 <= OnsetFloor ==> score == 1.0
  {
    if s2 > OnsetFloor then
      DivBounds(s1, s2, 0.0, s1 / s2);
      RatioExceeds(s1, s2, 1.0);
      s1 / s2
    else 1.0
  }

  /** Line 165. */
  predicate OnsetDetected(score: real, level: real) {
    score > level
  }

  /** The energy s1 exceeds `level` times the energy s2. */
  predicate Grew(s1: real, s2: real, level: real) {
    s1 > level * s2
  }

  /** An onset is detected exactly when the profile energy rose by more
      than the factor `level` over a non-negligible previous energy, or,
      after a near-silent previous frame, exactly when `level` is below 1. */
  lemma OnsetCriterion(s1: real, s2: real, level: real)
    requires s1 >= 0.0 && s2 >= 0.0
    ensures s2 > OnsetFloor ==> (OnsetDetected(OnsetScore(s1, s2), level) <==> Grew(s1, s2, level))
    ensures s2 <= OnsetFloor ==> (OnsetDetected(OnsetScore(s1, s2), level) <==> level < 1.0)
  {
    if s2 > OnsetFloor {
      RatioExceeds(s1, s2, level);
    }
  }

  lemma RatioExceeds(x: real, y: real, l: real)
    requires y > 0.0
    ensures x / y > l <==> x > l * y
  {
    var q := x / y;
    assert q * y == x;
    if q > l {
      MulPositive(q - l, y);
      Distribute(q, -l, y);
    } else {
      MulNonneg(l - q, y);
      Distribute(l, -q, y);
    }
  }

  /** Every band of a spectrum whose magnitudes are all v averages to v. */
  lemma ProfileOfConstant(mags: seq<seq<real>>, h: int, v: real)
    requires h >= 1 && |mags| >= 1
    requires forall c :: 0 <= c < |mags| ==> |mags[c]| == h + 1
    requires forall c, k :: 0 <= c < |mags| && 0 <= k <= h ==> mags[c][k] == v
    ensures forall i :: 0 <= i < NumBands ==> Profile(mags, h)[i] == v
  {
    forall i | 0 <= i < NumBands
      ensures Profile(mags, h)[i] == v
    {
      BandAverageWithin(mags, BandOf(i, h), v, v);
    }
  }

  lemma {:induction false} SumAbsOfConstant(p: seq<real>, v: real)
    requires v >= 0.0 && forall i :: 0 <= i < |p| ==> p[i] == v
    ensures SumAbs(p) == Repeat(|p|, v)
  {
    if |p| > 0 {
      SumAbsOfConstant(p[..|p| - 1], v);
    }
  }

  /** With the corrected bands the minimum window does detect onsets: a
      frame a hundred times louder than the one before it, across the whole
      spectrum, scores 100 and fires at the default level of 10. */
  lemma MinimumWindowDetectsOnsets(mags: seq<seq<real>>, oldMags: seq<seq<real>>)
    requires |mags| >= 1 && |oldMags| >= 1
    requires forall c :: 0 <= c < |mags| ==> |mags[c]| == 9
    requires forall c :: 0 <= c < |oldMags| ==> |oldMags[c]| == 9
    requires forall c, k :: 0 <= c < |mags| && 0 <= k < 9 ==> mags[c][k] == 100.0
    requires forall c, k :: 0 <= c < |oldMags| && 0 <= k < 9 ==> oldMags[c][k] == 1.0
    ensures OnsetScore(SumAbs(Profile(mags, 8)), SumAbs(Profile(oldMags, 8))) == 100.0
    ensures OnsetDetected(OnsetScore(SumAbs(Profile(mags, 8)), SumAbs(Profile(oldMags, 8))), 10.0)
  {
    ProfileOfConstant(mags, 8, 100.0);
    ProfileOfConstant(oldMags, 8, 1.0);
    SumAbsOfConstant(Profile(mags, 8), 100.0);
    SumAbsOfConstant(Profile(oldMags, 8), 1.0);
    RepeatIsProduct(NumBands, 100.0);
    RepeatIsProduct(NumBands, 1.0);
  }

  // ---------------------------------------------------------------------
  // The band profile as written, with numpy's NaN for 0.0/0.

  /** A float that may be NaN (no infinities arise here). */
  datatype Float = Finite(v: real) | NaN

  /** numpy's `s[lo:hi+1]`: empty when hi + 1 <= lo. */
  function SliceAsWritten(s: seq<real>, lo: int, hi: int): seq<real>
    requires 0 <= lo <= |s| && -1 <= hi < |s|
  {
    if hi + 1 <= lo then [] else s[lo..hi + 1]
  }

  function BandTotalAsWritten(mags: seq<seq<real>>, b: Band): real
    requires 0 <= b.lo && -1 <= b.hi
    requires forall c :: 0 <= c < |mags| ==> b.lo <= |mags[c]| && b.hi < |mags[c]|
  {
    if |mags| == 0 then 0.0
    else BandTotalAsWritten(mags[..|mags| - 1], b) + Sum(SliceAsWritten(mags[|mags| - 1], b.lo, b.hi))
  }

  /** Line 148 as written: a zero divisor yields 0.0/0 = NaN. */
  function BandAverageAsWritten(mags: seq<seq<real>>, b: Band): Float
    requires 0 <= b.lo && -1 <= b.hi
    requires forall c :: 0 <= c < |mags| ==> b.lo <= |mags[c]| && b.hi < |mags[c]|
  {
    var n := (b.hi - b.lo + 1) * |mags|;
    if n == 0 then NaN else Finite(BandTotalAsWritten(mags, b) / n as real)
  }

  function ProfileAsWritten(mags: seq<seq<real>>, h: int): (p: seq<Float>)
    requires h >= 0
    requires forall c :: 0 <= c < |mags| ==> |mags[c]| == h + 1
    ensures |p| == NumBands
  {
    seq(NumBands, i requires 0 <= i < NumBands =>
      BandArithmetic(i, h);
      BandAverageAsWritten(mags, BandAsWritten(i, h)))
  }

  /** Lines 155-158 over floats: a NaN anywhere makes the sum NaN. */
  function SumAbsAsWritten(p: seq<Float>): Float {
    if |p| == 0 then Finite(0.0)
    else
      var s := SumAbsAsWritten(p[..|p| - 1]);
      var x := p[|p| - 1];
      if s.NaN? || x.NaN? then NaN else Finite(s.v + Abs(x.v))
  }

  /** Lines 160-163 over floats: `NaN > 1e-10` is false, and NaN divided by
      anything is NaN. */
  function OnsetScoreAsWritten(current: seq<Float>, previous: seq<Float>): Float {
    var s1 := SumAbsAsWritten(current);
    var s2 := SumAbsAsWritten(previous);
    if s2.Finite? && s2.v > OnsetFloor then
      (if s1.NaN? then NaN else Finite(s1.v / s2.v))
    else Finite(1.0)
  }

  /** Line 165 over floats: a comparison with NaN is false. */
  predicate OnsetDetectedAsWritten(score: Float, level: real) {
    score.Finite? && score.v > level
  }

  lemma {:induction false} NaNPoisonsSum(p: seq<Float>, k: int)
    requires 0 <= k < |p| && p[k] == NaN
    ensures SumAbsAsWritten(p) == NaN
  {
    if k < |p| - 1 {
      NaNPoisonsSum(p[..|p| - 1], k);
    }
  }

  /** With the minimum window of 16 samples (H = 8) band 4 is empty, its
      value is NaN, and the onset score is 1.0 on every frame whatever the
      spectra: onsets can never fire at the default level of 10.0. */
  lemma MinimumWindowMutesOnsets(mags: seq<seq<real>>, oldMags: seq<seq<real>>, level: real)
    requires |mags| >= 1 && |oldMags| >= 1
    requires forall c :: 0 <= c < |mags| ==> |mags[c]| == 9
    requires forall c :: 0 <= c < |oldMags| ==> |oldMags[c]| == 9
    ensures BandAsWritten(4, 8).hi < BandAsWritten(4, 8).lo
    ensures ProfileAsWritten(mags, 8)[4] == NaN
    ensures OnsetScoreAsWritten(ProfileAsWritten(mags, 8), ProfileAsWritten(oldMags, 8)) == Finite(1.0)
    ensures OnsetScoreAsWritten(ProfileAsWritten(mags, 8), seq(NumBands, _ => Finite(0.0))) == Finite(1.0)
    ensures level >= 1.0 ==>
      !OnsetDetectedAsWritten(OnsetScoreAsWritten(ProfileAsWritten(mags, 8), ProfileAsWritten(oldMags, 8)), level)
  {
    assert BandAsWritten(4, 8) == Band(1, 0);
    NaNPoisonsSum(ProfileAsWritten(oldMags, 8), 4);
    var zeros: seq<Float> := seq(NumBands, _ => Finite(0.0));
    ZeroProfileSum(zeros);
  }

  lemma {:induction false} ZeroProfileSum(p: seq<Float>)
    requires forall i :: 0 <= i < |p| ==> p[i] == Finite(0.0)
    ensures SumAbsAsWritten(p) == Finite(0.0)
  {
    if |p| > 0 {
      ZeroProfileSum(p[..|p| - 1]);
    }
  }

  /** A band that comes out empty as written, for every half window from 8
      to 30 bins (windows of 16 to 60 samples): its upper end lies one
      below its lower end. */
  function EmptyBandIndex(h: int): (i: int)
    requires 8 <= h <= 30
    ensures 0 <= i < NumBands
    ensures BandAsWritten(i, h).hi == BandAsWritten(i, h).lo - 1
  {
    if h <= 16 then 30
    else if h <= 21 then 2
    else if h <= 23 then 3
    else if h <= 25 then 4
    else if h == 26 then 5
    else if h == 27 then 6
    else if h == 28 then 8
    else if h == 29 then 10
    else 16
  }

  /** For every half window from 8 to 30 bins the profile as written holds
      a NaN, so the onset score is 1.0 on every frame whatever the spectra,
      and no onset level of 1 or more ever fires. */
  lemma SmallWindowsMuteOnsets(mags: seq<seq<real>>, oldMags: seq<seq<real>>, h: int, level: real)
    requires 8 <= h <= 30
    requires forall c :: 0 <= c < |mags| ==> |mags[c]| == h + 1
    requires forall c :: 0 <= c < |oldMags| ==> |oldMags[c]| == h + 1
    ensures ProfileAsWritten(mags, h)[EmptyBandIndex(h)] == NaN
    ensures OnsetScoreAsWritten(ProfileAsWritten(mags, h), ProfileAsWritten(oldMags, h)) == Finite(1.0)
    ensures level >= 1.0 ==>
      !OnsetDetectedAsWritten(OnsetScoreAsWritten(ProfileAsWritten(mags, h), ProfileAsWritten(oldMags, h)), level)
  {
    var i := EmptyBandIndex(h);
    assert ProfileAsWritten(oldMags, h)[i] == BandAverageAsWritten(oldMags, BandAsWritten(i, h));
    NaNPoisonsSum(ProfileAsWritten(oldMags, h), i);
  }

  /** Where no band is empty as written, the two band totals coincide. */
  lemma {:induction false} TotalsAgree(mags: seq<seq<real>>, b: Band)
    requires 0 <= b.lo <= b.hi
    requires forall c :: 0 <= c < |mags| ==> b.hi < |mags[c]|
    ensures BandTotalAsWritten(mags, b) == BandTotal(mags, b)
  {
    if |mags| > 0 {
      TotalsAgree(mags[..|mags| - 1], b);
    }
  }

  /** From a half window of 31 bins on (windows of 62 samples or more) no
      band is empty as written, and the profile as written is the
      corrected profile, with no NaN in it. */
  lemma WideWindowsAgree(mags: seq<seq<real>>, h: int)
    requires h >= 31 && |mags| >= 1
    requires forall c :: 0 <= c < |mags| ==> |mags[c]| == h + 1
    ensures forall i :: 0 <= i < NumBands ==> ProfileAsWritten(mags, h)[i] == Finite(Profile(mags, h)[i])
  {
    forall i | 0 <= i < NumBands
      ensures ProfileAsWritten(mags, h)[i] == Finite(Profile(mags, h)[i])
    {
      if h == 31 {
        NoEmptyBandAt31(i);
      } else {
        AsWrittenBounds(i, h);
      }
      BandAgrees(mags, h, i);
    }
  }

  lemma NoEmptyBandAt31(i: int)
    requires 0 <= i < NumBands
    ensures BandAsWritten(i, 31).lo <= BandAsWritten(i, 31).hi
  {
    BandArithmetic(i, 31);
  }

  /** A band that is not empty as written has the same value both ways. */
  lemma BandAgrees(mags: seq<seq<real>>, h: int, i: int)
    requires h >= 1 && |mags| >= 1 && 0 <= i < NumBands
    requires forall c :: 0 <= c < |mags| ==> |mags[c]| == h + 1
    requires BandAsWritten(i, h).lo <= BandAsWritten(i, h).hi
    ensures ProfileAsWritten(mags, h)[i] == Finite(Profile(mags, h)[i])
  {
    var w := BandAsWritten(i, h);
    assert BandOf(i, h) == w;
    assert ProfileAsWritten(mags, h)[i] == BandAverageAsWritten(mags, w);
    assert Profile(mags, h)[i] == BandAverage(mags, w);
    AveragesAgree(mags, w);
  }

  /** A nonempty band averages to the same value both ways. */
  lemma AveragesAgree(mags: seq<seq<real>>, b: Band)
    requires |mags| >= 1 && 0 <= b.lo <= b.hi
    requires forall c :: 0 <= c < |mags| ==> b.hi < |mags[c]|
    ensures BandAverageAsWritten(mags, b) == Finite(BandAverage(mags, b))
  {
    TotalsAgree(mags, b);
    MulNonnegInt(b.hi - b.lo, |mags| - 1);
  }
}
