/**
 * Frame timing of the viewer in test-render/main.c: the playback rate, the
 * clock that says which frame of a symbol is shown and for how many more
 * ticks, one tick of that clock, and the fractional accumulator that turns
 * elapsed time into whole ticks.
 *
 * Time is an exact real; the C code uses `float`.
 */
module Playback {
  import opened Pack

  /** `(sw.fps > 1.0f) ? sw.fps : 24.0f`: a pack rate of 1 or less falls back to 24. */
  function EffectiveFps(packFps: real): (r: real)
    ensures r > 1.0
    ensures packFps > 1.0 ==> r == packFps
    ensures packFps <= 1.0 ==> r == 24.0
  {
    if packFps > 1.0 then packFps else 24.0
  }

  /**
   * The symbol index the viewer may hold: the dropdown of an empty pack
   * still has one (empty) item, so index 0 is allowed there.
   */
  predicate SymbolIndexOk(pack: SwfPack, sym: nat)
  {
    if |pack.symbols| == 0 then sym == 0 else sym < |pack.symbols|
  }

  /** The frames of the selected symbol, none when the pack has no symbols. */
  function SymbolFrames(pack: SwfPack, sym: nat): seq<Frame>
    requires SymbolIndexOk(pack, sym)
  {
    if |pack.symbols| == 0 then [] else pack.symbols[sym].frames
  }

  /**
   * The ticks a reset leaves on frame 0: its duration when the selected
   * symbol has frames, 1 otherwise.
   */
  function StartDuration(pack: SwfPack, sym: nat): (r: int)
    requires SymbolIndexOk(pack, sym)
    ensures |SymbolFrames(pack, sym)| > 0 ==> r == SymbolFrames(pack, sym)[0].duration
    ensures |SymbolFrames(pack, sym)| == 0 ==> r == 1
  {
    if |pack.symbols| > 0 && |pack.symbols[sym].frames| > 0 then pack.symbols[sym].frames[0].duration else 1
  }

  /** `curFrame` and `curFrameDurationLeft`. */
  datatype Clock = Clock(frame: nat, left: int)

  /** The clock a reset sets: frame 0 with its whole duration still to run. */
  function StartClock(pack: SwfPack, sym: nat): Clock
    requires SymbolIndexOk(pack, sym)
  {
    Clock(0, StartDuration(pack, sym))
  }

  predicate ClockOk(c: Clock, frames: seq<Frame>)
  {
    c.frame < |frames|
  }

  /** `(i + 1) % n` for a frame index `i < n`: the next frame, wrapping to the first. */
  function Next(i: nat, n: nat): (r: nat)
    requires i < n
    ensures r < n
  {
    if i + 1 < n then i + 1 else 0
  }

  lemma NextIsRemainder(i: nat, n: nat)
    requires i < n
    ensures Next(i, n) == (i + 1) % n
  {
  }

  /**
   * One whole tick: one less tick left on the frame; when none is left the
   * next frame (wrapping to the first) is shown with its own duration.
   */
  function Step(c: Clock, frames: seq<Frame>): (r: Clock)
    requires ClockOk(c, frames)
    ensures ClockOk(r, frames)
    ensures c.left > 1 ==> r == Clock(c.frame, c.left - 1)
    ensures c.left <= 1 ==> r.frame == Next(c.frame, |frames|) && r.left == frames[r.frame].duration
  {
    var left := c.left - 1;
    if left <= 0 then
      var next := Next(c.frame, |frames|);
      Clock(next, frames[next].duration)
    else Clock(c.frame, left)
  }

  /** `n` ticks in a row. */
  function Steps(c: Clock, frames: seq<Frame>, n: nat): (r: Clock)
    requires ClockOk(c, frames)
    ensures ClockOk(r, frames)
  {
    if n == 0 then c else Step(Steps(c, frames, n - 1), frames)
  }

  /** Ticks compose: `n` ticks then `m` ticks are `n + m` ticks. */
  lemma {:induction false} StepsAdd(c: Clock, frames: seq<Frame>, n: nat, m: nat)
    requires ClockOk(c, frames)
    ensures Steps(Steps(c, frames, n), frames, m) == Steps(c, frames, n + m)
  {
    if m > 0 {
      StepsAdd(c, frames, n, m - 1);
    }
  }

  lemma StepsSucc(c: Clock, frames: seq<Frame>, k: nat)
    requires ClockOk(c, frames)
    ensures Steps(c, frames, k + 1) == Step(Steps(c, frames, k), frames)
  {
  }

  /** A frame with `left` ticks to go stays on screen for `left - 1` more ticks. */
  lemma {:induction false} HoldsForDuration(c: Clock, frames: seq<Frame>, k: nat)
    requires ClockOk(c, frames)
    requires k < c.left
    ensures Steps(c, frames, k) == Clock(c.frame, c.left - k)
  {
    if k > 0 {
      HoldsForDuration(c, frames, k - 1);
    }
  }

  /** ... and the `left`-th tick moves on to the next frame, with its full duration. */
  lemma AdvancesAfterDuration(frame: nat, left: int, frames: seq<Frame>)
    requires frame < |frames|
    requires left >= 1
    ensures Steps(Clock(frame, left), frames, left) ==
      Clock(Next(frame, |frames|), frames[Next(frame, |frames|)].duration)
  {
    var k: nat := left - 1;
    HoldsForDuration(Clock(frame, left), frames, k);
    StepsSucc(Clock(frame, left), frames, k);
  }

  /** The sum of the durations of `frames[..i]`. */
  function Elapsed(frames: seq<Frame>, i: nat): int
    requires i <= |frames|
  {
    if i == 0 then 0 else Elapsed(frames, i - 1) + frames[i - 1].duration
  }

  predicate PositiveDurations(frames: seq<Frame>)
  {
    forall i :: 0 <= i < |frames| ==> frames[i].duration >= 1
  }

  lemma {:induction false} ElapsedPositive(frames: seq<Frame>, i: nat)
    requires i <= |frames| && PositiveDurations(frames)
    ensures Elapsed(frames, i) >= i
  {
    if i > 0 {
      ElapsedPositive(frames, i - 1);
    }
  }

  /**
   * From a reset, frame `i` starts after the durations of the frames
   * before it have run out.
   */
  lemma {:induction false} FrameStartsAfterPredecessors(frames: seq<Frame>, i: nat)
    requires 0 < |frames| && i < |frames| && PositiveDurations(frames)
    ensures Elapsed(frames, i) >= 0
    ensures Steps(Clock(0, frames[0].duration), frames, Elapsed(frames, i)) == Clock(i, frames[i].duration)
  {
    ElapsedPositive(frames, i);
    if i > 0 {
      var start := Clock(0, frames[0].duration);
      FrameStartsAfterPredecessors(frames, i - 1);
      AdvancesAfterDuration(i - 1, frames[i - 1].duration, frames);
      StepsAdd(start, frames, Elapsed(frames, i - 1), frames[i - 1].duration);
    }
  }

  /**
   * With positive durations the animation loops: after the sum of all
   * durations the clock is back at the start of frame 0.
   */
  lemma {:induction false} LoopsAfterTotalDuration(frames: seq<Frame>)
    requires 0 < |frames| && PositiveDurations(frames)
    ensures Elapsed(frames, |frames|) >= |frames|
    ensures Steps(Clock(0, frames[0].duration), frames, Elapsed(frames, |frames|)) == Clock(0, frames[0].duration)
  {
    var n := |frames|;
    var start := Clock(0, frames[0].duration);
    ElapsedPositive(frames, n);
    ElapsedPositive(frames, n - 1);
    FrameStartsAfterPredecessors(frames, n - 1);
    AdvancesAfterDuration(n - 1, frames[n - 1].duration, frames);
    StepsAdd(start, frames, Elapsed(frames, n - 1), frames[n - 1].duration);
  }

  /**
   * The whole units the drain loop takes out of an accumulator holding `t`:
   * none below 1, otherwise the integer part.
   */
  function WholeUnits(t: real): (r: nat)
    ensures t < 1.0 ==> r == 0
    ensures t >= 0.0 ==> r as real <= t < r as real + 1.0
  {
    if t < 1.0 then 0 else t.Floor
  }

  /**
   * `acc += dt * fps * speed` followed by the drain loop: the clock makes as
   * many ticks as whole units in the accumulator, which keeps the rest.
   */
  function Advance(c: Clock, acc: real, delta: real, frames: seq<Frame>): (r: (Clock, real))
    requires ClockOk(c, frames)
    ensures ClockOk(r.0, frames)
    ensures acc + delta >= 0.0 ==> 0.0 <= r.1 < 1.0
    ensures acc + delta < 1.0 ==> r == (c, acc + delta)
  {
    var t := acc + delta;
    (Steps(c, frames, WholeUnits(t)), t - WholeUnits(t) as real)
  }

  /**
   * The animation update once a symbol with frames plays: the accumulator
   * gains `delta`, then while it holds a whole unit one unit is taken out
   * and the clock makes one tick.
   */
  method Drain(c: Clock, acc: real, delta: real, frames: seq<Frame>) returns (next: Clock, rest: real)
    requires ClockOk(c, frames)
    ensures (next, rest) == Advance(c, acc, delta, frames)
  {
    ghost var t := acc + delta;
    var curFrame: nat, left: int := c.frame, c.left;
    rest := acc + delta;
    ghost var n: nat := 0;
    while rest >= 1.0
      invariant curFrame < |frames|
      invariant n as real + rest == t && (n > 0 ==> rest >= 0.0)
      invariant n <= WholeUnits(t)
      invariant Clock(curFrame, left) == Steps(c, frames, n)
      decreases WholeUnits(t) - n
    {
      rest := rest - 1.0;
      left := left - 1;
      if left <= 0 {
        NextIsRemainder(curFrame, |frames|);
        curFrame := (curFrame + 1) % |frames|;
        left := frames[curFrame].duration;
      }
      StepsSucc(c, frames, n);
      n := n + 1;
    }
    assert WholeUnits(t) == n;
    next := Clock(curFrame, left);
  }

  lemma FloorShift(x: real, n: int)
    ensures (x + n as real).Floor == x.Floor + n
  {
    var k := x.Floor;
    assert k as real <= x < k as real + 1.0;
    assert (k + n) as real <= x + n as real < (k + n) as real + 1.0;
  }

  /**
   * Splitting elapsed time over two frames of the main loop does not change
   * where the animation ends up: no tick is lost or gained, and the same
   * fraction is carried.
   */
  lemma AdvanceAdditive(c: Clock, acc: real, d1: real, d2: real, frames: seq<Frame>)
    requires ClockOk(c, frames) && acc >= 0.0 && d1 >= 0.0 && d2 >= 0.0
    ensures Advance(Advance(c, acc, d1, frames).0, Advance(c, acc, d1, frames).1, d2, frames) ==
      Advance(c, acc, d1 + d2, frames)
  {
    var t1 := acc + d1;
    var f1 := WholeUnits(t1);
    var r1 := t1 - f1 as real;
    var t2 := r1 + d2;
    FloorShift(t2, f1);
    assert t2 + f1 as real == acc + (d1 + d2);
    StepsAdd(c, frames, f1, WholeUnits(t2));
  }
}
