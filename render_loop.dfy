/**
 * The render loop: a five-state machine driven by the GL surface callbacks
 * (surface created, surface changed, draw frame) and by the activity's pause,
 * which decides what each frame does to the current screen.
 */
module RenderLoop {
  import opened Screen
  import BasicGame

  datatype GLGameState = Initialized | Running | Paused | Finished | Idle

  /**
   * The two clock readings a running frame takes: the first gives the delta
   * handed to update, the second becomes the new start time.
   */
  datatype Reading = Reading(first: int, second: int)

  /** What one frame does: the calls made on the current screen, the new state and the new start time. */
  datatype Frame = Frame(calls: seq<Call>, state: GLGameState, startTime: int)

  /** One onDrawFrame, as a function of the state it observes. */
  function DrawFrame(state: GLGameState, startTime: int, clock: Reading): (f: Frame)
    ensures f.state == (if state == Paused || state == Finished then Idle else state)
    ensures f.calls == [] <==> state == Initialized || state == Idle
    ensures Dispose in f.calls <==> state == Finished
    ensures (exists d :: Update(d) in f.calls) <==> state == Running
    ensures Present in f.calls <==> state == Running
    ensures state != Running ==> f.startTime == startTime
  {
    match state
    case Running => Frame([Update(clock.first - startTime), Present], Running, clock.second)
    case Paused => Frame([Pause], Idle, startTime)
    case Finished => Frame([Pause, Dispose], Idle, startTime)
    case _ => Frame([], state, startTime)
  }

  /** The state onPause requests. */
  function PauseRequest(isFinishing: bool): (s: GLGameState)
    ensures s == Finished <==> isFinishing
    ensures s == Paused <==> !isFinishing
  {
    if isFinishing then Finished else Paused
  }

  /**
   * The handshake onPause waits for: whatever state the renderer was in, the
   * next frame pauses the screen (and disposes it when finishing) and parks
   * the loop in Idle.
   */
  lemma PauseHandshake(startTime: int, isFinishing: bool, clock: Reading)
    ensures DrawFrame(PauseRequest(isFinishing), startTime, clock) ==
      Frame(if isFinishing then [Pause, Dispose] else [Pause], Idle, startTime)
  {
  }

  /**
   * A running frame hands update the time since the start time at the first
   * reading, presents afterwards, stays running and restarts at the second reading.
   */
  lemma RunningFrame(startTime: int, clock: Reading)
    ensures DrawFrame(Running, startTime, clock) ==
      Frame([Update(clock.first - startTime), Present], Running, clock.second)
  {
  }

  /** Consecutive frames with the given clock readings. */
  function DrawFrames(state: GLGameState, startTime: int, clocks: seq<Reading>): Frame
    decreases |clocks|
  {
    if clocks == [] then Frame([], state, startTime)
    else
      var f := DrawFrame(state, startTime, clocks[0]);
      var g := DrawFrames(f.state, f.startTime, clocks[1..]);
      Frame(f.calls + g.calls, g.state, g.startTime)
  }

  /** The sum of the deltas handed to update. */
  function TotalDelta(calls: seq<Call>): int
  {
    if calls == [] then 0
    else (if calls[0].Update? then calls[0].deltaNanoTime else 0) + TotalDelta(calls[1..])
  }

  /** The time that passes between the two clock readings of each frame. */
  function Gaps(clocks: seq<Reading>): int
  {
    if clocks == [] then 0 else clocks[0].second - clocks[0].first + Gaps(clocks[1..])
  }

  lemma {:induction false} TotalDeltaAppend(a: seq<Call>, b: seq<Call>)
    ensures TotalDelta(a + b) == TotalDelta(a) + TotalDelta(b)
    decreases |a|
  {
    if a != [] {
      TotalDeltaAppend(a[1..], b);
      assert (a + b)[1..] == a[1..] + b;
    } else {
      assert a + b == b;
    }
  }

  /**
   * Running frames stay running, and the deltas they hand to update, together
   * with the time between each frame's two clock readings, add up to exactly
   * the time between the first start time and the last.
   */
  lemma {:induction false} DeltasAddUp(startTime: int, clocks: seq<Reading>)
    ensures DrawFrames(Running, startTime, clocks).state == Running
    ensures TotalDelta(DrawFrames(Running, startTime, clocks).calls) + Gaps(clocks) ==
      DrawFrames(Running, startTime, clocks).startTime - startTime
    decreases |clocks|
  {
    if clocks != [] {
      var f := DrawFrame(Running, startTime, clocks[0]);
      DeltasAddUp(f.startTime, clocks[1..]);
      TotalDeltaAppend(f.calls, DrawFrames(Running, f.startTime, clocks[1..]).calls);
      assert TotalDelta(f.calls) == clocks[0].first - startTime;
    }
  }

  /** In Initialized or Idle no number of frames makes a call or changes anything. */
  lemma {:induction false} QuietWhileIdle(state: GLGameState, startTime: int, clocks: seq<Reading>)
    requires state == Initialized || state == Idle
    ensures DrawFrames(state, startTime, clocks) == Frame([], state, startTime)
    decreases |clocks|
  {
    if clocks != [] {
      QuietWhileIdle(state, startTime, clocks[1..]);
    }
  }

  /**
   * A frame keeps the lifecycle discipline, and a running frame leaves the
   * current screen resumed.
   */
  lemma DrawFrameKeepsDiscipline(trace: seq<Event>, screen: ScreenId, state: GLGameState, startTime: int, clock: Reading)
    requires state == Running ==> PhaseAfter(CallsTo(trace, screen)) == Resumed
    ensures var t := trace + On(screen, DrawFrame(state, startTime, clock).calls, screen);
      (Disciplined(trace) ==> Disciplined(t)) &&
      (DrawFrame(state, startTime, clock).state == Running ==> PhaseAfter(CallsTo(t, screen)) == Resumed)
  {
    var f := DrawFrame(state, startTime, clock);
    var h := CallsTo(trace, screen);
    DisciplinedOn(trace, screen, f.calls, screen);
    CallsToOn(trace, screen, f.calls, screen, screen);
    match state
    case Running =>
      var u := Update(clock.first - startTime);
      FitsPair(h, u, Present);
      PhaseAfterSnoc(h, u);
      PhaseAfterSnoc(h + [u], Present);
      assert h + [u, Present] == (h + [u]) + [Present];
    case Paused =>
      FitsOne(h, Pause);
    case Finished =>
      FitsPair(h, Pause, Dispose);
      PhaseAfterSnoc(h, Pause);
    case _ =>
  }

  class Renderer {
    var state: GLGameState
    var startTime: int
    /** The Game singleton whose current screen every callback addresses. */
    const game: BasicGame.Game

    /** While running, the current screen has been resumed and not paused or disposed since. */
    ghost predicate Valid()
      reads this, game
    {
      state == Running ==> PhaseAfter(CallsTo(game.trace, game.screen)) == Resumed
    }

    constructor (game: BasicGame.Game, now: int)
      ensures this.game == game && state == Initialized && startTime == now
      ensures Valid()
    {
      this.game := game;
      state := Initialized;
      startTime := now;
    }

    /** Start (or restart) the loop: resume the current screen and reset the start time. */
    method OnSurfaceCreated(now: int)
      modifies this, game`trace
      ensures state == Running && startTime == now
      ensures game.trace == old(game.trace) + [Event(game.screen, Resume, game.screen)]
      ensures Disciplined(old(game.trace)) ==> Disciplined(game.trace)
      ensures Valid()
    {
      var e := Event(game.screen, Resume, game.screen);
      DisciplinedSnoc(game.trace, e);
      CallsToSnoc(game.trace, e, game.screen);
      PhaseAfterSnoc(CallsTo(game.trace, game.screen), Resume);
      state := Running;
      game.trace := game.trace + [e];
      startTime := now;
    }

    /** Hand the new surface size straight to the current screen; the Game's own record of the size is not touched. */
    method OnSurfaceChanged(width: int, height: int)
      requires Valid()
      modifies game`trace
      ensures state == old(state) && startTime == old(startTime)
      ensures game.trace == old(game.trace) + [Event(game.screen, Resize(width, height), game.screen)]
      ensures Disciplined(old(game.trace)) ==> Disciplined(game.trace)
      ensures Valid()
    {
      var e := Event(game.screen, Resize(width, height), game.screen);
      DisciplinedSnoc(game.trace, e);
      CallsToSnoc(game.trace, e, game.screen);
      PhaseAfterSnoc(CallsTo(game.trace, game.screen), e.call);
      game.trace := game.trace + [e];
    }

    method OnDrawFrame(clock: Reading)
      requires Valid()
      modifies this, game`trace
      ensures var f := DrawFrame(old(state), old(startTime), clock);
        state == f.state && startTime == f.startTime &&
        game.trace == old(game.trace) + On(game.screen, f.calls, game.screen)
      ensures Disciplined(old(game.trace)) ==> Disciplined(game.trace)
      ensures Valid()
    {
      DrawFrameKeepsDiscipline(game.trace, game.screen, state, startTime, clock);
      OnShape(game.screen, DrawFrame(state, startTime, clock).calls, game.screen);
      var s := game.screen;
      var observed := state;
      if observed == Running {
        var delta := clock.first - startTime;
        startTime := clock.second;
        game.trace := game.trace + [Event(s, Update(delta), s)];
        game.trace := game.trace + [Event(s, Present, s)];
      } else if observed == Paused {
        game.trace := game.trace + [Event(s, Pause, s)];
        state := Idle;
      } else if observed == Finished {
        game.trace := game.trace + [Event(s, Pause, s)];
        game.trace := game.trace + [Event(s, Dispose, s)];
        state := Idle;
      }
    }

    /** Request a pause, or the end of the activity; the next frame carries it out. */
    method OnPause(isFinishing: bool)
      modifies this`state
      ensures state == PauseRequest(isFinishing) && startTime == old(startTime)
      ensures Valid()
    {
      state := if isFinishing then Finished else Paused;
    }
  }
}
