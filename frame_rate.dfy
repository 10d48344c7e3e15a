/**
 * The frame-rate counter: it counts frames and, once a second has passed
 * since its window opened, logs the count and opens a new window.
 */
module FrameRate {

  const ONE_SECOND_NANOS := 1000000000
  const INT_MIN := -0x8000_0000
  const INT_MAX := 0x7fff_ffff

  /** A Kotlin Int result: wrap-around modulo 2^32 into [INT_MIN, INT_MAX]. */
  function WrapInt(x: int): (r: int)
    ensures INT_MIN <= r <= INT_MAX
    ensures INT_MIN <= x <= INT_MAX ==> r == x
    ensures x == INT_MAX + 1 ==> r == INT_MIN
  {
    (x - INT_MIN) % 0x1_0000_0000 + INT_MIN
  }

  /** The counter's fields: the start of the current window and the frames counted in it. */
  datatype Counter = Counter(startTime: int, frames: int)

  /**
   * One logFrame. The clock is read twice: `checkedAt` decides whether the
   * window is over, `restartedAt` becomes the start of the next one. The
   * result is the new counter and the values written to the log.
   */
  function FrameStep(c: Counter, checkedAt: int, restartedAt: int): (r: (Counter, seq<int>))
    ensures INT_MIN <= r.0.frames <= INT_MAX
    ensures |r.1| <= 1 && (r.1 != [] <==> checkedAt - c.startTime >= ONE_SECOND_NANOS)
    ensures r.1 != [] ==> r.0 == Counter(restartedAt, 0)
    ensures r.1 == [] ==> r.0.startTime == c.startTime
  {
    var frames := WrapInt(c.frames + 1);
    if checkedAt - c.startTime >= ONE_SECOND_NANOS then (Counter(restartedAt, 0), [frames])
    else (Counter(c.startTime, frames), [])
  }

  /**
   * Within the window the counter only counts the frame; once the window is
   * over it logs the count including this frame, and starts a new window at
   * the second clock reading with no frames.
   */
  lemma FrameStepCases(c: Counter, checkedAt: int, restartedAt: int)
    requires INT_MIN <= c.frames < INT_MAX
    ensures var (next, logged) := FrameStep(c, checkedAt, restartedAt);
      if checkedAt - c.startTime < ONE_SECOND_NANOS
      then next == Counter(c.startTime, c.frames + 1) && logged == []
      else next == Counter(restartedAt, 0) && logged == [c.frames + 1]
  {
  }

  /** The value logged when a window closes counts the current frame, so it is at least one. */
  lemma ResetLogsAtLeastOne(c: Counter, checkedAt: int, restartedAt: int)
    requires 0 <= c.frames < INT_MAX
    ensures var (next, logged) := FrameStep(c, checkedAt, restartedAt);
      0 <= next.frames && forall v :: v in logged ==> v >= 1
  {
  }

  /** Kotlin's Int wraps: a counter already at INT_MAX that does not reset goes negative. */
  lemma WrapsAtIntMax(startTime: int, checkedAt: int, restartedAt: int)
    requires checkedAt - startTime < ONE_SECOND_NANOS
    ensures FrameStep(Counter(startTime, INT_MAX), checkedAt, restartedAt).0.frames == INT_MIN
  {
  }

  /** The two clock readings of one logFrame. */
  datatype LogClock = LogClock(checkedAt: int, restartedAt: int)

  /** Consecutive logFrame calls: the final counter and everything logged. */
  function FrameSteps(c: Counter, clocks: seq<LogClock>): (Counter, seq<int>)
    decreases |clocks|
  {
    if clocks == [] then (c, [])
    else
      var (next, logged) := FrameStep(c, clocks[0].checkedAt, clocks[0].restartedAt);
      var (last, more) := FrameSteps(next, clocks[1..]);
      (last, logged + more)
  }

  function Sum(xs: seq<int>): int
  {
    if xs == [] then 0 else xs[0] + Sum(xs[1..])
  }

  lemma {:induction false} SumAppend(a: seq<int>, b: seq<int>)
    ensures Sum(a + b) == Sum(a) + Sum(b)
    decreases |a|
  {
    if a != [] {
      SumAppend(a[1..], b);
      assert (a + b)[1..] == a[1..] + b;
    } else {
      assert a + b == b;
    }
  }

  /**
   * No window of the run reaches INT_MAX frames: before every logFrame the
   * count is below INT_MAX, so its increment does not wrap.
   */
  predicate NoWrap(c: Counter, clocks: seq<LogClock>)
    decreases |clocks|
  {
    clocks == [] ||
    (c.frames < INT_MAX && NoWrap(FrameStep(c, clocks[0].checkedAt, clocks[0].restartedAt).0, clocks[1..]))
  }

  /** A run too short to reach INT_MAX frames, even without any reset, never wraps. */
  lemma {:induction false} ShortRunNoWrap(c: Counter, clocks: seq<LogClock>)
    requires 0 <= c.frames && c.frames + |clocks| <= INT_MAX
    ensures NoWrap(c, clocks)
    decreases |clocks|
  {
    if clocks != [] {
      var next := FrameStep(c, clocks[0].checkedAt, clocks[0].restartedAt).0;
      assert 0 <= next.frames <= c.frames + 1;
      ShortRunNoWrap(next, clocks[1..]);
    }
  }

  /** A run in which every logFrame closes its window never wraps, however long it is. */
  lemma {:induction false} ResettingRunNoWrap(c: Counter, clocks: seq<LogClock>)
    requires 0 <= c.frames < INT_MAX
    requires clocks != [] ==> clocks[0].checkedAt - c.startTime >= ONE_SECOND_NANOS
    requires forall i :: 0 <= i < |clocks| - 1 ==> clocks[i + 1].checkedAt - clocks[i].restartedAt >= ONE_SECOND_NANOS
    ensures NoWrap(c, clocks)
    decreases |clocks|
  {
    if clocks != [] {
      var next := FrameStep(c, clocks[0].checkedAt, clocks[0].restartedAt).0;
      assert next == Counter(clocks[0].restartedAt, 0);
      var tail := clocks[1..];
      assert forall i :: 0 <= i < |tail| ==> tail[i] == clocks[i + 1];
      ResettingRunNoWrap(next, tail);
    }
  }

  /**
   * Every frame is counted exactly once: over any run of logFrame calls in
   * which no window wraps, the logged counts plus the open window's count add
   * up to the frames seen, the count never goes negative, and every logged
   * count is at least one.
   */
  lemma {:induction false} EveryFrameCountedOnce(c: Counter, clocks: seq<LogClock>)
    requires 0 <= c.frames && NoWrap(c, clocks)
    ensures var (last, logged) := FrameSteps(c, clocks);
      Sum(logged) + last.frames == c.frames + |clocks| &&
      0 <= last.frames &&
      forall v :: v in logged ==> v >= 1
    decreases |clocks|
  {
    if clocks != [] {
      var (next, logged) := FrameStep(c, clocks[0].checkedAt, clocks[0].restartedAt);
      FrameStepCases(c, clocks[0].checkedAt, clocks[0].restartedAt);
      EveryFrameCountedOnce(next, clocks[1..]);
      var (last, more) := FrameSteps(next, clocks[1..]);
      SumAppend(logged, more);
    }
  }

  class FpsCounter {
    var startTime: int
    var frames: int
    /** The counts written to the log, oldest first. */
    ghost var log: seq<int>

    /** `frames` is a Kotlin Int. */
    ghost predicate Valid()
      reads this
    {
      INT_MIN <= frames <= INT_MAX
    }

    constructor (now: int)
      ensures Valid() && startTime == now && frames == 0 && log == []
    {
      startTime := now;
      frames := 0;
      log := [];
    }

    method LogFrame(checkedAt: int, restartedAt: int)
      modifies this
      ensures Valid()
      ensures var (next, logged) := FrameStep(Counter(old(startTime), old(frames)), checkedAt, restartedAt);
        startTime == next.startTime && frames == next.frames && log == old(log) + logged
    {
      frames := WrapInt(frames + 1);
      if checkedAt - startTime >= ONE_SECOND_NANOS {
        log := log + [frames];
        frames := 0;
        startTime := restartedAt;
      }
    }
  }
}
