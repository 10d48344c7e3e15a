/**
 * The Screen lifecycle: the six methods the framework calls on a screen, and
 * the discipline those calls follow (update and present only while the last
 * resume, pause or dispose the screen received was resume, dispose only while
 * it was pause).
 */
module Screen {

  /** Identity of a Screen object; the framework only passes screens around and calls them. */
  type ScreenId = nat

  /** The six lifecycle methods every Screen implements. */
  datatype Call =
    | Update(deltaNanoTime: int)
    | Present
    | Resume
    | Resize(width: int, height: int)
    | Pause
    | Dispose

  /**
   * One call made by the framework: the screen that receives it, the method,
   * and the screen that Game.screen designated at the moment of the call.
   */
  datatype Event = Event(target: ScreenId, call: Call, current: ScreenId)

  /** Where a screen stands after the calls it has received. */
  datatype Phase = Fresh | Resumed | Suspended | Disposed

  function PhaseAfter(calls: seq<Call>): Phase
  {
    if calls == [] then Fresh
    else
      var last := calls[|calls| - 1];
      if last.Resume? then Resumed
      else if last.Pause? then Suspended
      else if last.Dispose? then Disposed
      else PhaseAfter(calls[..|calls| - 1])
  }

  /** The calls made on one screen `s`, in order. */
  function CallsTo(trace: seq<Event>, s: ScreenId): seq<Call>
  {
    if trace == [] then []
    else
      var last := trace[|trace| - 1];
      CallsTo(trace[..|trace| - 1], s) + (if last.target == s then [last.call] else [])
  }

  /** The calls `calls` made on `target` while Game.screen designates `current`. */
  function On(target: ScreenId, calls: seq<Call>, current: ScreenId): seq<Event>
  {
    if calls == [] then [] else On(target, calls[..|calls| - 1], current) + [Event(target, calls[|calls| - 1], current)]
  }

  /** May a screen in phase `p` receive `c`? */
  predicate Allowed(p: Phase, c: Call)
  {
    match c
    case Update(_) => p == Resumed
    case Present => p == Resumed
    case Dispose => p == Suspended
    case _ => true
  }

  /** Every call of the trace was allowed for its receiver, checked from the last call back. */
  predicate Disciplined(trace: seq<Event>)
  {
    trace == [] ||
    var last := trace[|trace| - 1];
    var before := trace[..|trace| - 1];
    Disciplined(before) && Allowed(PhaseAfter(CallsTo(before, last.target)), last.call)
  }

  /** The same discipline stated position by position. */
  ghost predicate EveryCallAllowed(trace: seq<Event>)
  {
    forall i :: 0 <= i < |trace| ==> Allowed(PhaseAfter(CallsTo(trace[..i], trace[i].target)), trace[i].call)
  }

  /** `calls` may follow `history` on one screen. */
  predicate Fits(history: seq<Call>, calls: seq<Call>)
  {
    calls == [] ||
    (Fits(history, calls[..|calls| - 1]) && Allowed(PhaseAfter(history + calls[..|calls| - 1]), calls[|calls| - 1]))
  }

  lemma {:induction false} DisciplinedIff(trace: seq<Event>)
    ensures Disciplined(trace) <==> EveryCallAllowed(trace)
  {
    if trace != [] {
      var n := |trace| - 1;
      var before := trace[..n];
      DisciplinedIff(before);
      forall i | 0 <= i < n
        ensures trace[..i] == before[..i] && trace[i] == before[i]
      {
      }
      assert trace[..n] == before;
    }
  }

  lemma PhaseAfterSnoc(calls: seq<Call>, c: Call)
    ensures PhaseAfter(calls + [c]) ==
      if c.Resume? then Resumed
      else if c.Pause? then Suspended
      else if c.Dispose? then Disposed
      else PhaseAfter(calls)
  {
  }

  lemma CallsToSnoc(trace: seq<Event>, e: Event, s: ScreenId)
    ensures CallsTo(trace + [e], s) == CallsTo(trace, s) + (if e.target == s then [e.call] else [])
  {
  }

  lemma DisciplinedSnoc(trace: seq<Event>, e: Event)
    ensures Disciplined(trace + [e]) <==> Disciplined(trace) && Allowed(PhaseAfter(CallsTo(trace, e.target)), e.call)
  {
  }

  lemma {:induction false} OnShape(target: ScreenId, calls: seq<Call>, current: ScreenId)
    ensures |On(target, calls, current)| == |calls|
    ensures forall i :: 0 <= i < |calls| ==> On(target, calls, current)[i] == Event(target, calls[i], current)
    decreases |calls|
  {
    if calls != [] {
      OnShape(target, calls[..|calls| - 1], current);
    }
  }

  lemma FitsOne(history: seq<Call>, a: Call)
    ensures Fits(history, [a]) <==> Allowed(PhaseAfter(history), a)
  {
    assert [a][..0] == [];
    assert history + [] == history;
  }

  lemma FitsPair(history: seq<Call>, a: Call, b: Call)
    ensures Fits(history, [a, b]) <==> Allowed(PhaseAfter(history), a) && Allowed(PhaseAfter(history + [a]), b)
  {
    assert [a, b][..1] == [a];
    assert [a][..0] == [];
    assert history + [] == history;
    assert Fits(history, [a]) <==> Allowed(PhaseAfter(history), a);
  }

  lemma FitsTriple(history: seq<Call>, a: Call, b: Call, c: Call)
    ensures Fits(history, [a, b, c]) <==>
      Allowed(PhaseAfter(history), a) && Allowed(PhaseAfter(history + [a]), b) && Allowed(PhaseAfter(history + [a, b]), c)
  {
    assert [a, b, c][..2] == [a, b];
    FitsPair(history, a, b);
  }

  /** Appending calls on one screen adds exactly those calls to its history and none to any other's. */
  lemma {:induction false} CallsToOn(trace: seq<Event>, target: ScreenId, calls: seq<Call>, current: ScreenId, s: ScreenId)
    ensures CallsTo(trace + On(target, calls, current), s) == CallsTo(trace, s) + (if s == target then calls else [])
    decreases |calls|
  {
    if calls != [] {
      var n := |calls| - 1;
      var e := Event(target, calls[n], current);
      CallsToOn(trace, target, calls[..n], current, s);
      assert trace + On(target, calls, current) == (trace + On(target, calls[..n], current)) + [e];
      CallsToSnoc(trace + On(target, calls[..n], current), e, s);
      assert calls == calls[..n] + [calls[n]];
    } else {
      assert trace + On(target, calls, current) == trace;
    }
  }

  /** Appending calls on one screen keeps the trace disciplined exactly when they fit that screen's history. */
  lemma {:induction false} DisciplinedOn(trace: seq<Event>, target: ScreenId, calls: seq<Call>, current: ScreenId)
    ensures Disciplined(trace + On(target, calls, current)) <==> Disciplined(trace) && Fits(CallsTo(trace, target), calls)
    decreases |calls|
  {
    if calls != [] {
      var n := |calls| - 1;
      var e := Event(target, calls[n], current);
      var t := trace + On(target, calls[..n], current);
      DisciplinedOn(trace, target, calls[..n], current);
      assert trace + On(target, calls, current) == t + [e];
      DisciplinedSnoc(t, e);
      CallsToOn(trace, target, calls[..n], current, target);
    } else {
      assert trace + On(target, calls, current) == trace;
    }
  }
}
