/**
 * The Game singleton of the Kotlin source tree: besides the current screen it
 * remembers the surface size and re-sizes every incoming screen with it.
 */
module ResizingGame {
  import opened Screen

  /**
   * The calls one switch makes: pause and dispose on the outgoing screen, then
   * resume, resize to the remembered size and update(0) on the incoming one,
   * all while Game.screen still designates the outgoing screen.
   */
  function SwitchEvents(outgoing: ScreenId, incoming: ScreenId, width: int, height: int): (es: seq<Event>)
    ensures |es| == 5
    ensures forall e :: e in es ==> e.current == outgoing && (e.target == outgoing || e.target == incoming)
    ensures es[..2] == [Event(outgoing, Pause, outgoing), Event(outgoing, Dispose, outgoing)]
  {
    OnShape(outgoing, [Pause, Dispose], outgoing);
    OnShape(incoming, [Resume, Resize(width, height), Update(0)], outgoing);
    On(outgoing, [Pause, Dispose], outgoing) + On(incoming, [Resume, Resize(width, height), Update(0)], outgoing)
  }

  /** A switch is exactly these five calls in this order, and the pointer is replaced only after all of them. */
  lemma SwitchOrder(outgoing: ScreenId, incoming: ScreenId, width: int, height: int)
    ensures SwitchEvents(outgoing, incoming, width, height) ==
      [Event(outgoing, Pause, outgoing), Event(outgoing, Dispose, outgoing),
       Event(incoming, Resume, outgoing), Event(incoming, Resize(width, height), outgoing),
       Event(incoming, Update(0), outgoing)]
    ensures forall e :: e in SwitchEvents(outgoing, incoming, width, height) ==> e.current == outgoing
  {
    OnShape(outgoing, [Pause, Dispose], outgoing);
    OnShape(incoming, [Resume, Resize(width, height), Update(0)], outgoing);
  }

  /**
   * What each screen receives: the outgoing screen only pause then dispose, the
   * incoming one only resume, resize(width, height) then update(0), any other
   * screen nothing.
   */
  lemma SwitchCalls(trace: seq<Event>, outgoing: ScreenId, incoming: ScreenId, width: int, height: int, s: ScreenId)
    requires outgoing != incoming
    ensures CallsTo(trace + SwitchEvents(outgoing, incoming, width, height), s) ==
      CallsTo(trace, s) +
      (if s == outgoing then [Pause, Dispose]
       else if s == incoming then [Resume, Resize(width, height), Update(0)]
       else [])
  {
    var t1 := trace + On(outgoing, [Pause, Dispose], outgoing);
    assert trace + SwitchEvents(outgoing, incoming, width, height) ==
      t1 + On(incoming, [Resume, Resize(width, height), Update(0)], outgoing);
    CallsToOn(trace, outgoing, [Pause, Dispose], outgoing, s);
    CallsToOn(t1, incoming, [Resume, Resize(width, height), Update(0)], outgoing, s);
  }

  /**
   * A switch keeps the lifecycle discipline, leaves the incoming screen resumed
   * and, when it is a different object, the outgoing screen disposed.
   */
  lemma SwitchKeepsDiscipline(trace: seq<Event>, outgoing: ScreenId, incoming: ScreenId, width: int, height: int)
    ensures Disciplined(trace) ==> Disciplined(trace + SwitchEvents(outgoing, incoming, width, height))
    ensures PhaseAfter(CallsTo(trace + SwitchEvents(outgoing, incoming, width, height), incoming)) == Resumed
    ensures outgoing != incoming ==>
      PhaseAfter(CallsTo(trace + SwitchEvents(outgoing, incoming, width, height), outgoing)) == Disposed
  {
    var incomingCalls := [Resume, Resize(width, height), Update(0)];
    var h := CallsTo(trace, outgoing);
    var t1 := trace + On(outgoing, [Pause, Dispose], outgoing);
    var t2 := t1 + On(incoming, incomingCalls, outgoing);
    assert trace + SwitchEvents(outgoing, incoming, width, height) == t2;
    DisciplinedOn(trace, outgoing, [Pause, Dispose], outgoing);
    FitsPair(h, Pause, Dispose);
    PhaseAfterSnoc(h, Pause);
    PhaseAfterSnoc(h + [Pause], Dispose);
    assert h + [Pause, Dispose] == (h + [Pause]) + [Dispose];
    DisciplinedOn(t1, incoming, incomingCalls, outgoing);
    var g := CallsTo(t1, incoming);
    FitsTriple(g, Resume, Resize(width, height), Update(0));
    PhaseAfterSnoc(g, Resume);
    PhaseAfterSnoc(g + [Resume], Resize(width, height));
    assert g + [Resume, Resize(width, height)] == (g + [Resume]) + [Resize(width, height)];
    PhaseAfterSnoc(g + [Resume, Resize(width, height)], Update(0));
    assert g + incomingCalls == (g + [Resume, Resize(width, height)]) + [Update(0)];
    CallsToOn(trace, outgoing, [Pause, Dispose], outgoing, outgoing);
    CallsToOn(t1, incoming, incomingCalls, outgoing, incoming);
    CallsToOn(t1, incoming, incomingCalls, outgoing, outgoing);
  }

  /** A resize is always allowed and moves no screen to another phase. */
  lemma ResizeKeepsDiscipline(trace: seq<Event>, s: ScreenId, width: int, height: int, other: ScreenId)
    ensures var t := trace + [Event(s, Resize(width, height), s)];
      (Disciplined(t) <==> Disciplined(trace)) &&
      PhaseAfter(CallsTo(t, other)) == PhaseAfter(CallsTo(trace, other))
  {
    var e := Event(s, Resize(width, height), s);
    DisciplinedSnoc(trace, e);
    CallsToSnoc(trace, e, other);
    PhaseAfterSnoc(CallsTo(trace, other), e.call);
    assert CallsTo(trace, other) + [] == CallsTo(trace, other);
  }

  /** The Game object; `trace` records every call made on any screen through it. */
  class Game {
    var screen: ScreenId
    var width: int
    var height: int
    ghost var trace: seq<Event>

    /** The activity installs the start screen before anything else happens; the size starts at zero. */
    constructor (start: ScreenId)
      ensures screen == start && width == 0 && height == 0 && trace == []
    {
      screen := start;
      width, height := 0, 0;
      trace := [];
    }

    /** Remember the new surface size and pass it on to the current screen. */
    method OnSurfaceChanged(width: int, height: int)
      modifies this
      ensures this.width == width && this.height == height && screen == old(screen)
      ensures trace == old(trace) + [Event(screen, Resize(width, height), screen)]
      ensures Disciplined(trace) <==> Disciplined(old(trace))
      ensures PhaseAfter(CallsTo(trace, screen)) == PhaseAfter(CallsTo(old(trace), screen))
    {
      ResizeKeepsDiscipline(trace, screen, width, height, screen);
      this.width := width;
      this.height := height;
      trace := trace + [Event(screen, Resize(width, height), screen)];
    }

    method ChangeScreen(next: ScreenId)
      modifies this
      ensures screen == next && width == old(width) && height == old(height)
      ensures trace == old(trace) + SwitchEvents(old(screen), next, width, height)
      ensures Disciplined(old(trace)) ==> Disciplined(trace)
      ensures PhaseAfter(CallsTo(trace, screen)) == Resumed
    {
      SwitchOrder(screen, next, width, height);
      SwitchKeepsDiscipline(trace, screen, next, width, height);
      trace := trace + [Event(screen, Pause, screen)];
      trace := trace + [Event(screen, Dispose, screen)];
      trace := trace + [Event(next, Resume, screen)];
      trace := trace + [Event(next, Resize(width, height), screen)];
      trace := trace + [Event(next, Update(0), screen)];
      screen := next;
    }
  }
}
