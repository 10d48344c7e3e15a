/**
 * The Game singleton of the Java source tree: it holds the current screen and
 * switches screens without re-sizing the incoming one.
 */
module BasicGame {
  import opened Screen

  /**
   * The calls one switch makes: pause and dispose on the outgoing screen, then
   * resume and update(0) on the incoming one, all while Game.screen still
   * designates the outgoing screen.
   */
  function SwitchEvents(outgoing: ScreenId, incoming: ScreenId): (es: seq<Event>)
    ensures |es| == 4
    ensures forall e :: e in es ==> e.current == outgoing && (e.target == outgoing || e.target == incoming)
    ensures es[..2] == [Event(outgoing, Pause, outgoing), Event(outgoing, Dispose, outgoing)]
  {
    OnShape(outgoing, [Pause, Dispose], outgoing);
    OnShape(incoming, [Resume, Update(0)], outgoing);
    On(outgoing, [Pause, Dispose], outgoing) + On(incoming, [Resume, Update(0)], outgoing)
  }

  /** A switch is exactly four calls, in this order, and the pointer is replaced only after all of them. */
  lemma SwitchOrder(outgoing: ScreenId, incoming: ScreenId)
    ensures SwitchEvents(outgoing, incoming) ==
      [Event(outgoing, Pause, outgoing), Event(outgoing, Dispose, outgoing),
       Event(incoming, Resume, outgoing), Event(incoming, Update(0), outgoing)]
    ensures forall e :: e in SwitchEvents(outgoing, incoming) ==> e.current == outgoing && !e.call.Resize?
  {
    OnShape(outgoing, [Pause, Dispose], outgoing);
    OnShape(incoming, [Resume, Update(0)], outgoing);
  }

  /**
   * What each screen receives: the outgoing screen only pause then dispose, the
   * incoming one only resume then update(0), any other screen nothing.
   */
  lemma SwitchCalls(trace: seq<Event>, outgoing: ScreenId, incoming: ScreenId, s: ScreenId)
    requires outgoing != incoming
    ensures CallsTo(trace + SwitchEvents(outgoing, incoming), s) ==
      CallsTo(trace, s) +
      (if s == outgoing then [Pause, Dispose] else if s == incoming then [Resume, Update(0)] else [])
  {
    var t1 := trace + On(outgoing, [Pause, Dispose], outgoing);
    assert trace + SwitchEvents(outgoing, incoming) == t1 + On(incoming, [Resume, Update(0)], outgoing);
    CallsToOn(trace, outgoing, [Pause, Dispose], outgoing, s);
    CallsToOn(t1, incoming, [Resume, Update(0)], outgoing, s);
  }

  /**
   * A switch keeps the lifecycle discipline, leaves the incoming screen resumed
   * and, when it is a different object, the outgoing screen disposed.
   */
  lemma SwitchKeepsDiscipline(trace: seq<Event>, outgoing: ScreenId, incoming: ScreenId)
    ensures Disciplined(trace) ==> Disciplined(trace + SwitchEvents(outgoing, incoming))
    ensures PhaseAfter(CallsTo(trace + SwitchEvents(outgoing, incoming), incoming)) == Resumed
    ensures outgoing != incoming ==>
      PhaseAfter(CallsTo(trace + SwitchEvents(outgoing, incoming), outgoing)) == Disposed
  {
    var h := CallsTo(trace, outgoing);
    var t1 := trace + On(outgoing, [Pause, Dispose], outgoing);
    var t2 := t1 + On(incoming, [Resume, Update(0)], outgoing);
    assert trace + SwitchEvents(outgoing, incoming) == t2;
    DisciplinedOn(trace, outgoing, [Pause, Dispose], outgoing);
    FitsPair(h, Pause, Dispose);
    PhaseAfterSnoc(h, Pause);
    PhaseAfterSnoc(h + [Pause], Dispose);
    assert h + [Pause, Dispose] == (h + [Pause]) + [Dispose];
    DisciplinedOn(t1, incoming, [Resume, Update(0)], outgoing);
    var g := CallsTo(t1, incoming);
    FitsPair(g, Resume, Update(0));
    PhaseAfterSnoc(g, Resume);
    PhaseAfterSnoc(g + [Resume], Update(0));
    assert g + [Resume, Update(0)] == (g + [Resume]) + [Update(0)];
    CallsToOn(trace, outgoing, [Pause, Dispose], outgoing, outgoing);
    CallsToOn(t1, incoming, [Resume, Update(0)], outgoing, incoming);
    CallsToOn(t1, incoming, [Resume, Update(0)], outgoing, outgoing);
  }

  /** The Game object; `trace` records every call made on any screen through it. */
  class Game {
    var screen: ScreenId
    ghost var trace: seq<Event>

    /** The activity installs the start screen before anything else happens. */
    constructor (start: ScreenId)
      ensures screen == start && trace == []
    {
      screen := start;
      trace := [];
    }

    method ChangeScreen(next: ScreenId)
      modifies this
      ensures screen == next
      ensures trace == old(trace) + SwitchEvents(old(screen), next)
      ensures Disciplined(old(trace)) ==> Disciplined(trace)
      ensures PhaseAfter(CallsTo(trace, screen)) == Resumed
    {
      SwitchOrder(screen, next);
      SwitchKeepsDiscipline(trace, screen, next);
      trace := trace + [Event(screen, Pause, screen)];
      trace := trace + [Event(screen, Dispose, screen)];
      trace := trace + [Event(next, Resume, screen)];
      trace := trace + [Event(next, Update(0), screen)];
      screen := next;
    }
  }
}
