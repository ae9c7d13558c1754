/**
 * The viewer's event handlers as pure reactions: each takes the two script
 * variables (`isZoomed` and the wheel timer) and an event, and gives the new
 * variables and the commands sent to the page-flip book and the page styles.
 * The book itself is an opaque sink: `turn('next')`/`turn('previous')` are
 * recorded as commands, and only the size and display mode it was last given
 * are tracked, to state that the layout follows the window.
 */
module Input {
  import opened Wrappers
  import opened Layout

  const KEY_LEFT: int := 37
  const KEY_RIGHT: int := 39
  const KEY_ESCAPE: int := 27
  /** Milliseconds during which further wheel events are dropped. */
  const WHEEL_COOLDOWN: int := 250

  /** The window size the handlers read with `$(window).width()` and `.height()`. */
  datatype Viewport = Viewport(width: real, height: real)

  predicate Measurable(vp: Viewport) {
    LayoutDefined(vp.width, vp.height)
  }

  datatype Effect =
    | TurnNext
    | TurnPrevious
    | SetSize(width: real, height: real)
    | SetDisplay(mode: DisplayMode)
    | Center
    | Enlarge   // scale(1.5), z-index 200, page scrolls
    | Restore   // scale(1), z-index auto, page does not scroll

  datatype Event =
    | KeyDown(keyCode: int)
    | Wheel(deltaY: real, time: int)
    | Click(x: real, width: real)   // x measured from the book's left edge
    | DoubleClick
    | PrevButton
    | NextButton
    | WindowResize

  /**
   * `isZoomed`, and the wheel timer as the time it expires (None before the
   * first accepted wheel event).
   */
  datatype ViewerState = ViewerState(zoomed: bool, wheelUntil: Option<int>)

  datatype Reaction = Reaction(state: ViewerState, effects: seq<Effect>)

  const INITIAL: ViewerState := ViewerState(false, None)

  predicate CoolingDown(s: ViewerState, time: int) {
    s.wheelUntil.Some? && time < s.wheelUntil.value
  }

  function ResizeBook(s: ViewerState, vp: Viewport): Reaction
    requires !s.zoomed ==> Measurable(vp)
  {
    if s.zoomed then Reaction(s, [])
    else
      Reaction(s, LayoutEffects(ComputeLayout(vp.width, vp.height)))
  }

  /** `turn('size', ...)`, `turn('display', ...)`, `turn('center')`. */
  function LayoutEffects(size: Size): seq<Effect> {
    [SetSize(size.width, size.height), SetDisplay(size.display), Center]
  }

  function ToggleZoom(s: ViewerState, vp: Viewport): Reaction
    requires s.zoomed ==> Measurable(vp)
  {
    if !s.zoomed then Reaction(s.(zoomed := true), [Enlarge])
    else
      var r := ResizeBook(s.(zoomed := false), vp);
      Reaction(r.state, [Restore] + r.effects)
  }

  /** The events whose handling reaches resizeBook's arithmetic. */
  predicate NeedsViewport(s: ViewerState, e: Event) {
    match e
    case KeyDown(code) => code == KEY_ESCAPE && s.zoomed
    case DoubleClick => s.zoomed
    case WindowResize => !s.zoomed
    case _ => false
  }

  function KeyReaction(s: ViewerState, code: int, vp: Viewport): Reaction
    requires code == KEY_ESCAPE && s.zoomed ==> Measurable(vp)
  {
    if code == KEY_LEFT then Reaction(s, [TurnPrevious])
    else if code == KEY_RIGHT then Reaction(s, [TurnNext])
    else if code == KEY_ESCAPE && s.zoomed then ToggleZoom(s, vp)
    else Reaction(s, [])
  }

  function WheelReaction(s: ViewerState, deltaY: real, time: int): Reaction {
    if s.zoomed || CoolingDown(s, time) then Reaction(s, [])
    else
      Reaction(s.(wheelUntil := Some(time + WHEEL_COOLDOWN)),
               [if deltaY > 0.0 then TurnNext else TurnPrevious])
  }

  function ClickReaction(s: ViewerState, x: real, width: real): Reaction {
    if s.zoomed then Reaction(s, [])
    else Reaction(s, [if x > width / 2.0 then TurnNext else TurnPrevious])
  }

  function Handle(s: ViewerState, e: Event, vp: Viewport): Reaction
    requires NeedsViewport(s, e) ==> Measurable(vp)
  {
    match e
    case KeyDown(code) => KeyReaction(s, code, vp)
    case Wheel(deltaY, time) => WheelReaction(s, deltaY, time)
    case Click(x, width) => ClickReaction(s, x, width)
    case DoubleClick => ToggleZoom(s, vp)
    case PrevButton => Reaction(s, [TurnPrevious])
    case NextButton => Reaction(s, [TurnNext])
    case WindowResize => ResizeBook(s, vp)
  }

  /** Creating the book at 920 by 650 in double mode, then the first resizeBook. */
  function Startup(vp: Viewport): Reaction
    requires Measurable(vp)
  {
    var r := ResizeBook(INITIAL, vp);
    Reaction(r.state, [SetSize(BOOK_WIDTH, BOOK_HEIGHT), SetDisplay(Double)] + r.effects)
  }

  /** The size and display mode the book holds after receiving `effects`. */
  function Apply(book: Size, effects: seq<Effect>): Size
    decreases |effects|
  {
    if effects == [] then book
    else
      var next := match effects[0]
        case SetSize(w, h) => book.(width := w, height := h)
        case SetDisplay(m) => book.(display := m)
        case _ => book;
      Apply(next, effects[1..])
  }

  lemma {:induction false} ApplyConcat(book: Size, a: seq<Effect>, b: seq<Effect>)
    ensures Apply(book, a + b) == Apply(Apply(book, a), b)
    decreases |a|
  {
    if a != [] {
      assert (a + b)[0] == a[0] && (a + b)[1..] == a[1..] + b;
      var next := match a[0]
        case SetSize(w, h) => book.(width := w, height := h)
        case SetDisplay(m) => book.(display := m)
        case _ => book;
      ApplyConcat(next, a[1..], b);
    } else {
      assert a + b == b;
    }
  }

  /** The number of page turns requested. */
  function Turns(effects: seq<Effect>): nat
    decreases |effects|
  {
    if effects == [] then 0
    else (if effects[0] == TurnNext || effects[0] == TurnPrevious then 1 else 0) + Turns(effects[1..])
  }

  lemma {:induction false} TurnsConcat(a: seq<Effect>, b: seq<Effect>)
    ensures Turns(a + b) == Turns(a) + Turns(b)
    decreases |a|
  {
    if a != [] {
      assert (a + b)[0] == a[0] && (a + b)[1..] == a[1..] + b;
      TurnsConcat(a[1..], b);
    } else {
      assert a + b == b;
    }
  }

  /** The layout commands leave the book with exactly that layout. */
  lemma ApplyLayoutEffects(book: Size, size: Size)
    ensures Apply(book, LayoutEffects(size)) == size
    ensures Turns(LayoutEffects(size)) == 0
  {
    var e := LayoutEffects(size);
    assert e[1..] == [SetDisplay(size.display), Center];
    assert e[1..][1..] == [Center];
    assert e[1..][1..][1..] == [];
    assert Turns(e) == Turns(e[1..]) == Turns(e[1..][1..]) == Turns(e[1..][1..][1..]);
    var b1 := book.(width := size.width, height := size.height);
    assert Apply(book, e) == Apply(b1, e[1..]);
    var b2 := b1.(display := size.display);
    assert Apply(b1, e[1..]) == Apply(b2, e[1..][1..]);
    assert Apply(b2, e[1..][1..]) == Apply(b2, e[1..][1..][1..]) == b2;
    assert b2 == size;
  }

  /** The style commands do not touch the book. */
  lemma ApplyStyle(book: Size, rest: seq<Effect>)
    ensures Apply(book, [Restore] + rest) == Apply(book, rest)
    ensures Apply(book, [Enlarge]) == book
    ensures Turns([Restore] + rest) == Turns(rest)
    ensures Turns([Enlarge]) == 0
  {
    assert ([Restore] + rest)[1..] == rest;
    assert [Enlarge][1..] == [];
  }

  /** While not zoomed, the book has the layout of the current window. */
  predicate Synced(s: ViewerState, book: Size, vp: Viewport)
    requires Measurable(vp)
  {
    !s.zoomed ==> book == ComputeLayout(vp.width, vp.height)
  }

  /**
   * resizeBook does nothing while zoomed; otherwise it gives the book the
   * computed layout and leaves the variables alone.
   */
  lemma ResizeBookSpec(s: ViewerState, vp: Viewport, book: Size)
    requires !s.zoomed ==> Measurable(vp)
    ensures s.zoomed ==> ResizeBook(s, vp) == Reaction(s, [])
    ensures ResizeBook(s, vp).state == s
    ensures Turns(ResizeBook(s, vp).effects) == 0
    ensures !s.zoomed ==> Apply(book, ResizeBook(s, vp).effects) == ComputeLayout(vp.width, vp.height)
  {
    if !s.zoomed {
      ApplyLayoutEffects(book, ComputeLayout(vp.width, vp.height));
    }
  }

  /**
   * Keys 37 and 39 always turn back and forward; Escape unzooms when zoomed and
   * is otherwise ignored, as is every other key.
   */
  lemma KeyRouting(s: ViewerState, code: int, vp: Viewport)
    requires NeedsViewport(s, KeyDown(code)) ==> Measurable(vp)
    ensures code == KEY_LEFT ==> Handle(s, KeyDown(code), vp) == Reaction(s, [TurnPrevious])
    ensures code == KEY_RIGHT ==> Handle(s, KeyDown(code), vp) == Reaction(s, [TurnNext])
    ensures code == KEY_ESCAPE && s.zoomed ==>
      Handle(s, KeyDown(code), vp) == ToggleZoom(s, vp) &&
      !Handle(s, KeyDown(code), vp).state.zoomed
    ensures code == KEY_ESCAPE && !s.zoomed ==> Handle(s, KeyDown(code), vp) == Reaction(s, [])
    ensures code !in {KEY_LEFT, KEY_RIGHT, KEY_ESCAPE} ==> Handle(s, KeyDown(code), vp) == Reaction(s, [])
  {
  }

  /**
   * The buttons, like the arrow keys, turn whatever the zoom and the wheel
   * timer are, and change neither.
   */
  lemma ButtonRouting(s: ViewerState, vp: Viewport)
    ensures Handle(s, PrevButton, vp) == Reaction(s, [TurnPrevious])
    ensures Handle(s, NextButton, vp) == Reaction(s, [TurnNext])
  {
  }

  /**
   * Clicks and wheel events are ignored while zoomed; otherwise a click in the
   * right half turns forward and one elsewhere turns back.
   */
  lemma PointerRouting(s: ViewerState, x: real, width: real, deltaY: real, time: int, vp: Viewport)
    ensures s.zoomed ==> Handle(s, Click(x, width), vp) == Reaction(s, [])
    ensures s.zoomed ==> Handle(s, Wheel(deltaY, time), vp) == Reaction(s, [])
    ensures !s.zoomed ==> Handle(s, Click(x, width), vp).state == s
    ensures !s.zoomed ==>
      Handle(s, Click(x, width), vp).effects == [if x > width / 2.0 then TurnNext else TurnPrevious]
  {
  }

  /**
   * A wheel event during the cooldown is dropped; otherwise it starts a new
   * cooldown of 250 ms and turns forward for a positive deltaY, back otherwise.
   */
  lemma WheelDebounce(s: ViewerState, deltaY: real, time: int, vp: Viewport)
    requires !s.zoomed
    ensures CoolingDown(s, time) ==> Handle(s, Wheel(deltaY, time), vp) == Reaction(s, [])
    ensures !CoolingDown(s, time) ==>
      var r := Handle(s, Wheel(deltaY, time), vp);
      && r.state == s.(wheelUntil := Some(time + WHEEL_COOLDOWN))
      && r.effects == [if deltaY > 0.0 then TurnNext else TurnPrevious]
  {
  }

  /**
   * Two wheel events `gap` ms apart, starting outside any cooldown: the second
   * one turns a page too exactly when it comes 250 ms or more after the first.
   */
  lemma TwoWheels(s: ViewerState, d1: real, d2: real, time: int, gap: nat, vp: Viewport)
    requires !s.zoomed && !CoolingDown(s, time)
    ensures var r1 := Handle(s, Wheel(d1, time), vp);
      var r2 := Handle(r1.state, Wheel(d2, time + gap), vp);
      Turns(r1.effects + r2.effects) == if gap < WHEEL_COOLDOWN then 1 else 2
  {
    var r1 := Handle(s, Wheel(d1, time), vp);
    var r2 := Handle(r1.state, Wheel(d2, time + gap), vp);
    TurnsConcat(r1.effects, r2.effects);
  }

  /**
   * Zoom flips exactly on a double-click, or on Escape while zoomed; the
   * wheel timer is never touched by zooming.
   */
  lemma ZoomOnlyByToggle(s: ViewerState, e: Event, vp: Viewport)
    requires NeedsViewport(s, e) ==> Measurable(vp)
    ensures Handle(s, e, vp).state.zoomed != s.zoomed
        <==> e == DoubleClick || (e == KeyDown(KEY_ESCAPE) && s.zoomed)
    ensures !e.Wheel? ==> Handle(s, e, vp).state.wheelUntil == s.wheelUntil
  {
  }

  /**
   * Toggling zoom twice restores both variables, and the unzooming half of the
   * pair gives the book the layout of the current window, whichever state the
   * pair started in.
   */
  lemma ToggleTwice(s: ViewerState, vp: Viewport, book: Size)
    requires Measurable(vp)
    ensures var r1 := ToggleZoom(s, vp);
      var r2 := ToggleZoom(r1.state, vp);
      && r2.state == s
      && Apply(book, r1.effects + r2.effects) == ComputeLayout(vp.width, vp.height)
      && Turns(r1.effects + r2.effects) == 0
  {
    var r1 := ToggleZoom(s, vp);
    var r2 := ToggleZoom(r1.state, vp);
    var size := ComputeLayout(vp.width, vp.height);
    ApplyConcat(book, r1.effects, r2.effects);
    TurnsConcat(r1.effects, r2.effects);
    ApplyLayoutEffects(book, size);
    ApplyStyle(book, LayoutEffects(size));
    if s.zoomed {
      ApplyStyle(size, []);
    } else {
      ApplyLayoutEffects(Apply(book, r1.effects), size);
      ApplyStyle(Apply(book, r1.effects), LayoutEffects(size));
    }
  }

  /** While zoom stays on, nothing an event does changes the book's layout. */
  lemma ZoomFreezesLayout(s: ViewerState, e: Event, vp: Viewport, book: Size)
    requires NeedsViewport(s, e) ==> Measurable(vp)
    requires s.zoomed && Handle(s, e, vp).state.zoomed
    ensures Apply(book, Handle(s, e, vp).effects) == book
  {
  }

  /**
   * Every event keeps the book in step with the window, and a window resize
   * puts it back in step: while zoomed the new size is not applied, and the
   * unzoom applies it.
   */
  lemma HandleKeepsSynced(s: ViewerState, book: Size, e: Event, vp: Viewport)
    requires Measurable(vp)
    requires Synced(s, book, vp) || e == WindowResize
    ensures var r := Handle(s, e, vp);
      Synced(r.state, Apply(book, r.effects), vp)
  {
    var r := Handle(s, e, vp);
    var size := ComputeLayout(vp.width, vp.height);
    ApplyLayoutEffects(book, size);
    ApplyStyle(book, LayoutEffects(size));
  }

  lemma StartupSynced(vp: Viewport, book: Size)
    requires Measurable(vp)
    ensures Startup(vp).state == INITIAL
    ensures Synced(Startup(vp).state, Apply(book, Startup(vp).effects), vp)
  {
    var init := [SetSize(BOOK_WIDTH, BOOK_HEIGHT), SetDisplay(Double)];
    var size := ComputeLayout(vp.width, vp.height);
    ApplyConcat(book, init, LayoutEffects(size));
    ApplyLayoutEffects(Apply(book, init), size);
  }

  /** One delivered event with the window size at that moment. */
  datatype Step = Step(event: Event, viewport: Viewport)

  /** A session never changes the window size without a resize event. */
  predicate Signalled(vp: Viewport, steps: seq<Step>)
    decreases |steps|
  {
    steps == [] ||
    ((steps[0].viewport != vp ==> steps[0].event == WindowResize) &&
     Signalled(steps[0].viewport, steps[1..]))
  }

  predicate AllMeasurable(steps: seq<Step>) {
    forall i :: 0 <= i < |steps| ==> Measurable(steps[i].viewport)
  }

  /** The variables and the book after a run of events. */
  function Run(s: ViewerState, book: Size, steps: seq<Step>): (ViewerState, Size)
    requires AllMeasurable(steps)
    decreases |steps|
  {
    if steps == [] then (s, book)
    else
      var r := Handle(s, steps[0].event, steps[0].viewport);
      Run(r.state, Apply(book, r.effects), steps[1..])
  }

  function LastViewport(vp: Viewport, steps: seq<Step>): Viewport {
    if steps == [] then vp else steps[|steps| - 1].viewport
  }

  /**
   * Over any session in which size changes are announced by resize events, the
   * book always has the layout of the current window whenever zoom is off.
   */
  lemma {:induction false} RunSynced(s: ViewerState, book: Size, vp: Viewport, steps: seq<Step>)
    requires Measurable(vp) && AllMeasurable(steps)
    requires Synced(s, book, vp)
    requires Signalled(vp, steps)
    ensures var (s', book') := Run(s, book, steps);
      Synced(s', book', LastViewport(vp, steps))
    decreases |steps|
  {
    if steps != [] {
      var step := steps[0];
      if step.viewport == vp {
        HandleKeepsSynced(s, book, step.event, vp);
      } else {
        HandleKeepsSynced(s, book, step.event, step.viewport);
      }
      var r := Handle(s, step.event, step.viewport);
      var rest := steps[1..];
      assert AllMeasurable(rest);
      RunSynced(r.state, Apply(book, r.effects), step.viewport, rest);
      if rest != [] {
        assert LastViewport(step.viewport, rest) == LastViewport(vp, steps);
      }
    }
  }
}
