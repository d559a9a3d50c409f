/** The control skeleton of the stretcher's main loop
    (backend/main.py:85-99, 114-119, 165-167, 199-219): a cross-fade tick, an
    onset time credit, a fetch flag and two cursors, one into the input and
    one into the output. The read cursor `start_pos` is a float in the
    source, but it starts at 0 and only ever grows by `windowsize * 0.5`,
    which is the integer `half`, so it is an integer here. */
module Warp {
  import opened Samples

  datatype WarpState = WarpState(
    tick: real,      // displace_tick: the cross-fade position between two frames
    credit: real,    // extra_onset_time_credit
    fetch: bool,     // get_next_buf: analyse a new input frame on this iteration
    readPos: int,    // start_pos
    writePos: int)   // output_index

  /** Lines 85-99: the state before the first iteration. */
  function Initial(): (s: WarpState)
    ensures s.fetch && s.tick == 0.0 && s.credit == 0.0
    ensures s.readPos == 0 && s.writePos == 0
  {
    WarpState(0.0, 0.0, true, 0, 0)
  }

  /** `displace_tick_increase` of lines 89-91: 1/stretch, capped at 1. */
  function Increment(stretch: real): (inc: real)
    requires stretch > 0.0
    ensures 0.0 < inc <= 1.0
    ensures stretch >= 1.0 ==> inc * stretch == 1.0
    ensures stretch <= 1.0 ==> inc == 1.0
  {
    if 1.0 / stretch > 1.0 then 1.0 else 1.0 / stretch
  }

  /** The invariant of the loop: the tick is a position in [0, 1), the
      credit is never negative, and both cursors sit on multiples of the
      half window, the write cursor inside the output. */
  predicate Valid(s: WarpState, half: int, outLen: int) {
    && half >= 1
    && 0.0 <= s.tick < 1.0
    && s.credit >= 0.0
    && 0 <= s.readPos && s.readPos % half == 0
    && 0 <= s.writePos <= outLen && s.writePos % half == 0
  }

  /** Lines 165-167, taken only on an iteration that fetched a frame whose
      onset test fired: jump the cross-fade to the new frame and bank one
      unit of extra time. */
  function Snap(s: WarpState, onset: bool): WarpState {
    if s.fetch && onset then s.(tick := 1.0, credit := s.credit + 1.0) else s
  }

  /** Lines 199-201: a chunk of `half` samples is stored only if it fits. */
  function MoveWrite(s: WarpState, half: int, outLen: int): WarpState {
    if s.writePos + half <= outLen then s.(writePos := s.writePos + half) else s
  }

  /** Lines 203-205: after a fetch the read cursor moves on by half a window. */
  function MoveRead(s: WarpState, half: int): WarpState {
    if s.fetch then s.(readPos := s.readPos + half, fetch := false) else s
  }

  /** Lines 208-215: with no credit the tick grows by the increment;
      otherwise half of the increment is paid out of the credit (which is
      floored at 0) and the tick grows by the other half. */
  function Advance(s: WarpState, inc: real): WarpState {
    if s.credit <= 0.0 then s.(tick := s.tick + inc)
    else
      var get := 0.5 * inc;
      var c := s.credit - get;
      s.(tick := s.tick + (inc - get), credit := if c < 0.0 then 0.0 else c)
  }

  /** Python's `x % 1.0`, which floors. */
  function Frac(x: real): (r: real)
    ensures 0.0 <= r < 1.0
    ensures (x - r).Floor as real == x - r
  {
    var f := x.Floor;
    assert (f as real).Floor == f;
    x - f as real
  }

  /** Lines 217-219: a tick that reached 1 wraps around and asks for the
      next frame. */
  function Wrap(s: WarpState): WarpState {
    if s.tick >= 1.0 then s.(tick := Frac(s.tick), fetch := true) else s
  }

  /** Lines 199-219: everything the iteration does after the onset test, given
      the state `a` the cross-fade used. */
  function Finish(a: WarpState, inc: real, half: int, outLen: int): WarpState {
    Wrap(Advance(MoveRead(MoveWrite(a, half, outLen), half), inc))
  }

  /** One whole iteration of the loop; `onset` is the result of the onset
      test, which the source only evaluates when it fetches. */
  function Step(s: WarpState, inc: real, half: int, outLen: int, onset: bool): (t: WarpState)
    ensures t.readPos == s.readPos + (if s.fetch then half else 0)
    ensures t.writePos == s.writePos + (if s.writePos + half <= outLen then half else 0)
    ensures inc > 0.0 && !(s.fetch && onset) ==> t.credit <= s.credit
    ensures inc > 0.0 && s.credit >= 0.0 ==> t.credit >= 0.0
  {
    Finish(Snap(s, onset), inc, half, outLen)
  }

  // ---------------------------------------------------------------------
  // What a step does

  /** The onset test can only move the tick to exactly 1 and add exactly 1
      to the credit, and only when a frame was fetched. */
  lemma SnapEffect(s: WarpState, onset: bool)
    ensures var a := Snap(s, onset);
      && a.fetch == s.fetch && a.readPos == s.readPos && a.writePos == s.writePos
      && (s.fetch && onset ==> a.tick == 1.0 && a.credit == s.credit + 1.0)
      && (!(s.fetch && onset) ==> a == s)
  {}

  /** The cross-fade of line 172 always mixes with weights tick and 1 - tick
      that both lie in [0, 1]. */
  lemma CrossFadeWeights(s: WarpState, half: int, outLen: int, onset: bool)
    requires Valid(s, half, outLen)
    ensures 0.0 <= Snap(s, onset).tick <= 1.0
    ensures 0.0 <= 1.0 - Snap(s, onset).tick <= 1.0
  {}

  /** The tick grows by the full increment without credit and by half of it
      with credit; the credit shrinks by half the increment, never below 0. */
  lemma AdvanceEffect(s: WarpState, inc: real)
    requires s.credit >= 0.0 && inc > 0.0
    ensures var t := Advance(s, inc);
      && t.fetch == s.fetch && t.readPos == s.readPos && t.writePos == s.writePos
      && t.credit >= 0.0
      && (s.credit <= 0.0 ==> t.tick == s.tick + inc && t.credit == s.credit)
      && (s.credit > 0.0 ==> t.tick == s.tick + inc / 2.0)
      && (s.credit > 0.0 && s.credit >= inc / 2.0 ==> t.credit == s.credit - inc / 2.0)
      && (s.credit > 0.0 && s.credit < inc / 2.0 ==> t.credit == 0.0)
      && t.tick >= s.tick + inc / 2.0
      && t.credit <= s.credit
  {}

  /** After the wrap the tick is back in [0, 1), and the fetch flag is set
      exactly when the tick had reached 1. */
  lemma WrapEffect(s: WarpState)
    requires s.tick >= 0.0 && !s.fetch
    ensures 0.0 <= Wrap(s).tick < 1.0
    ensures Wrap(s).fetch <==> s.tick >= 1.0
    ensures s.tick < 1.0 ==> Wrap(s).tick == s.tick
    ensures 1.0 <= s.tick < 2.0 ==> Wrap(s).tick == s.tick - 1.0
    ensures Wrap(s).credit == s.credit && Wrap(s).readPos == s.readPos && Wrap(s).writePos == s.writePos
  {
    if 1.0 <= s.tick < 2.0 {
      FracOfShifted(s.tick);
    }
  }

  lemma FracOfShifted(x: real)
    requires 1.0 <= x < 2.0
    ensures Frac(x) == x - 1.0
  {
    assert x.Floor == 1;
  }

  /** Both cursors move by exactly one half window or not at all: the read
      cursor exactly on the iterations that fetched, the write cursor exactly
      when the chunk fits. After the step the frame has been consumed unless
      the tick wrapped. */
  lemma StepCursors(s: WarpState, inc: real, half: int, outLen: int, onset: bool)
    requires Valid(s, half, outLen) && 0.0 < inc <= 1.0
    ensures var t := Step(s, inc, half, outLen, onset);
      && (s.fetch ==> t.readPos == s.readPos + half)
      && (!s.fetch ==> t.readPos == s.readPos)
      && (s.writePos + half <= outLen ==> t.writePos == s.writePos + half)
      && (s.writePos + half > outLen ==> t.writePos == s.writePos)
  {}

  /** Every step keeps the loop invariant. */
  lemma StepPreservesValid(s: WarpState, inc: real, half: int, outLen: int, onset: bool)
    requires half >= 1 && Valid(s, half, outLen) && 0.0 < inc <= 1.0
    ensures Valid(Step(s, inc, half, outLen, onset), half, outLen)
  {
    var a := Snap(s, onset);
    var b := MoveRead(MoveWrite(a, half, outLen), half);
    AdvanceEffect(b, inc);
    var c := Advance(b, inc);
    assert c.tick <= 2.0;
    WrapEffect(c);
    AddHalf(s.readPos, half);
    AddHalf(s.writePos, half);
  }

  lemma AddHalf(x: int, half: int)
    requires half >= 1 && x % half == 0
    ensures (x + half) % half == 0
  {
    var q, q', r := x / half, (x + half) / half, (x + half) % half;
    assert x == half * q;
    assert x + half == half * q' + r;
    assert half * (q + 1 - q') == r by {
      DistributeInt(half, q + 1, -q');
    }
    SmallMultiple(half, q + 1 - q', r);
  }

  lemma DistributeInt(a: int, b: int, c: int)
    ensures a * (b + c) == a * b + a * c
  {}

  /** A multiple of h that lies in [0, h) is 0. */
  lemma SmallMultiple(h: int, k: int, r: int)
    requires h >= 1 && r == h * k && 0 <= r < h
    ensures r == 0
  {
    if k >= 1 {
      assert h * k == h + h * (k - 1);
      MulNonnegInt(h, k - 1);
    } else if k <= -1 {
      assert h * k == -h - h * (-k - 1);
      MulNonnegInt(h, -k - 1);
    }
  }

  /** An iteration whose fetched frame fired the onset test ends by
      fetching again, with the tick at half the increment and the banked
      credit reduced by that much: the new frame is played right away and
      the next one follows after half the usual time. */
  lemma OnsetForcesFetch(s: WarpState, inc: real, half: int, outLen: int)
    requires Valid(s, half, outLen) && 0.0 < inc <= 1.0 && s.fetch
    ensures var t := Step(s, inc, half, outLen, true);
      && t.fetch
      && t.tick == inc / 2.0
      && t.credit == s.credit + 1.0 - inc / 2.0
  {
    var a := Snap(s, true);
    var b := MoveRead(MoveWrite(a, half, outLen), half);
    var c := Advance(b, inc);
    assert c.tick == 1.0 + inc / 2.0;
    FracOfShifted(c.tick);
  }

  /** The write cursor after k iterations is h * min(k, L / h): it moves
      on every iteration until the next chunk no longer fits, and then
      stays put for good, never covering the last L mod h samples. */
  lemma WriteCursorCount(half: int, outLen: int, k: int)
    requires half >= 1 && outLen >= 0 && k >= 0
    ensures var p := half * Min(k, outLen / half);
      && 0 <= p <= half * (outLen / half) <= outLen
      && (k == 0 ==> p == 0)
      && (p + half <= outLen <==> k < outLen / half)
      && (p + half <= outLen ==> p + half == half * Min(k + 1, outLen / half))
      && (p + half > outLen ==> p == half * Min(k + 1, outLen / half))
  {
    var q := outLen / half;
    assert outLen == half * q + outLen % half;
    MulNonnegInt(half, q);
    if k < q {
      MulNonnegInt(half, k);
      MulNonnegInt(half, q - k - 1);
      DistributeInt(half, k, 1);
      DistributeInt(half, k + 1, q - k - 1);
    } else {
      MulNonnegInt(half, q);
    }
  }

  // ---------------------------------------------------------------------
  // Termination: the measure the main loop decreases

  /** 0 while a fetch is pending, 1 while the tick is still rising. */
  function Phase(s: WarpState): int {
    if s.fetch then 0 else 1
  }

  /** How many more minimal tick rises (inc/2 each) fit below 1. */
  function TickBudget(s: WarpState, inc: real): int
    requires inc > 0.0
  {
    ((1.0 - s.tick) / (inc / 2.0)).Floor
  }

  /** The lexicographic order of (remaining input, phase, tick budget). */
  predicate Precedes(t: WarpState, s: WarpState, inc: real, bound: int)
    requires inc > 0.0
  {
    var rt, rs := bound - t.readPos, bound - s.readPos;
    || (rt < rs && rs >= 0)
    || (rt == rs && Phase(t) < Phase(s))
    || (rt == rs && Phase(t) == Phase(s) && TickBudget(t, inc) < TickBudget(s, inc)
        && TickBudget(s, inc) >= 0)
  }

  /** Every iteration of the loop `while start_pos < bound` makes progress:
      it consumes input, or turns a rising tick into a pending fetch, or
      raises the tick by at least inc/2. */
  lemma StepDecreases(s: WarpState, inc: real, half: int, outLen: int, onset: bool, bound: int)
    requires half >= 1 && Valid(s, half, outLen) && 0.0 < inc <= 1.0
    requires s.readPos < bound
    ensures Precedes(Step(s, inc, half, outLen, onset), s, inc, bound)
  {
    if !s.fetch {
      var b := MoveRead(MoveWrite(s, half, outLen), half);
      AdvanceEffect(b, inc);
      var c := Advance(b, inc);
      if c.tick < 1.0 {
        BudgetShrinks(s.tick, c.tick, inc / 2.0);
      }
    }
  }

  /** Raising a value below 1 by at least d lowers floor((1 - x) / d). */
  lemma BudgetShrinks(x: real, y: real, d: real)
    requires d > 0.0 && x < 1.0 && y >= x + d
    ensures ((1.0 - y) / d).Floor < ((1.0 - x) / d).Floor
    ensures ((1.0 - x) / d).Floor >= 0
  {
    var p, q := 1.0 - x, 1.0 - y;
    DivMonotone(q, p - d, d);
    DivShift(p, d);
    DivMonotone(0.0, p, d);
  }

  lemma DivMonotone(a: real, b: real, d: real)
    requires d > 0.0 && a <= b
    ensures a / d <= b / d
  {
    var qa, qb := a / d, b / d;
    assert qa * d == a && qb * d == b;
    if qa > qb {
      MulPositive(qa - qb, d);
      assert false;
    }
  }

  lemma DivShift(p: real, d: real)
    requires d > 0.0
    ensures (p - d) / d == p / d - 1.0
  {
    var x, y := (p - d) / d, p / d - 1.0;
    assert x * d == p - d;
    Distribute(p / d, -1.0, d);
    assert y * d == p - d;
    SameProduct(x, y, d);
  }

  /** Multiplication by a positive number is injective. */
  lemma SameProduct(x: real, y: real, d: real)
    requires d > 0.0 && x * d == y * d
    ensures x == y
  {
    Distribute(x, -y, d);
    if x > y {
      MulPositive(x - y, d);
    } else if y > x {
      MulPositive(y - x, d);
    }
  }

}
