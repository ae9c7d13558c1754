/**
 * The viewer script's two variables and its handlers, as an object whose
 * methods update the variables in place and return the commands they send.
 * Each handler is proved to react as the corresponding function of `Input`.
 */
module ViewerScript {
  import opened Wrappers
  import opened Layout
  import opened Input

  class Viewer {
    var isZoomed: bool
    /** When the running wheel timer clears `scrollTimeout`; None when none ran yet. */
    var wheelUntil: Option<int>

    function State(): ViewerState
      reads this
    {
      ViewerState(isZoomed, wheelUntil)
    }

    constructor ()
      ensures State() == INITIAL
    {
      isZoomed := false;
      wheelUntil := None;
    }

    /** The document-ready body: create the book, then lay it out once. */
    method Ready(vp: Viewport) returns (effects: seq<Effect>)
      requires Measurable(vp)
      requires State() == INITIAL
      ensures effects == Startup(vp).effects
    {
      var layout := ResizeBook(vp);
      effects := [SetSize(BOOK_WIDTH, BOOK_HEIGHT), SetDisplay(Double)] + layout;
    }

    method ResizeBook(vp: Viewport) returns (effects: seq<Effect>)
      requires !isZoomed ==> Measurable(vp)
      ensures effects == Input.ResizeBook(State(), vp).effects
    {
      if isZoomed {
        return [];
      }
      var size := ComputeLayout(vp.width, vp.height);
      effects := [SetSize(size.width, size.height), SetDisplay(size.display), Center];
    }

    method ToggleZoom(vp: Viewport) returns (effects: seq<Effect>)
      requires isZoomed ==> Measurable(vp)
      modifies this
      ensures Reaction(State(), effects) == Input.ToggleZoom(old(State()), vp)
    {
      isZoomed := !isZoomed;
      if isZoomed {
        effects := [Enlarge];
      } else {
        var layout := ResizeBook(vp);
        effects := [Restore] + layout;
      }
    }

    method OnKeyDown(code: int, vp: Viewport) returns (effects: seq<Effect>)
      requires code == KEY_ESCAPE && isZoomed ==> Measurable(vp)
      modifies this
      ensures Reaction(State(), effects) == KeyReaction(old(State()), code, vp)
    {
      if code == KEY_LEFT {
        effects := [TurnPrevious];
      } else if code == KEY_RIGHT {
        effects := [TurnNext];
      } else if code == KEY_ESCAPE {
        effects := [];
        if isZoomed {
          effects := ToggleZoom(vp);
        }
      } else {
        effects := [];
      }
    }

    method OnWheel(deltaY: real, time: int) returns (effects: seq<Effect>)
      modifies this
      ensures Reaction(State(), effects) == WheelReaction(old(State()), deltaY, time)
    {
      if isZoomed {
        return [];
      }
      if wheelUntil.Some? && time < wheelUntil.value {
        return [];
      }
      wheelUntil := Some(time + WHEEL_COOLDOWN);
      if deltaY > 0.0 {
        effects := [TurnNext];
      } else {
        effects := [TurnPrevious];
      }
    }

    method OnDoubleClick(vp: Viewport) returns (effects: seq<Effect>)
      requires isZoomed ==> Measurable(vp)
      modifies this
      ensures Reaction(State(), effects) == Input.ToggleZoom(old(State()), vp)
    {
      effects := ToggleZoom(vp);
    }

    method OnClick(x: real, width: real) returns (effects: seq<Effect>)
      ensures effects == ClickReaction(State(), x, width).effects
    {
      if isZoomed {
        return [];
      }
      if x > width / 2.0 {
        effects := [TurnNext];
      } else {
        effects := [TurnPrevious];
      }
    }

    method OnPrevButton() returns (effects: seq<Effect>)
      ensures effects == [TurnPrevious]
    {
      effects := [TurnPrevious];
    }

    method OnNextButton() returns (effects: seq<Effect>)
      ensures effects == [TurnNext]
    {
      effects := [TurnNext];
    }

    method OnWindowResize(vp: Viewport) returns (effects: seq<Effect>)
      requires !isZoomed ==> Measurable(vp)
      ensures effects == Handle(State(), WindowResize, vp).effects
    {
      effects := ResizeBook(vp);
    }
  }
}
