/**
 The example program's callbacks over its file-level statics, as a class
 whose fields are those statics. The drawing calls each callback issues are
 appended, in order, to the ghost trace `calls`.

 Every method is specified by the matching function of `Transitions`: the
 new statics and the calls appended are exactly what that function gives
 for the old statics. The object invariant `Valid` is the gesture invariant
 together with the agreement between the flags and what the trace has left
 on screen.
 */
module Example {
  import opened Graphics
  import opened Transitions

  class Window {
    var rubberBandOn: bool
    var haveEnteredLine: bool
    var haveRubberLine: bool
    var lineEnteringDemo: bool
    var x1: real
    var y1: real
    var x2: real
    var y2: real
    var numNewButtonClicks: nat

    /** Every drawing call issued so far, oldest first. */
    ghost var calls: seq<DrawCall>

    function Statics(): State
      reads this
    {
      State(lineEnteringDemo, rubberBandOn, haveEnteredLine, haveRubberLine,
            Point(x1, y1), Point(x2, y2), numNewButtonClicks)
    }

    ghost predicate Valid()
      reads this
    {
      Inv(Statics()) && Consistent(Statics(), Replay(Start, calls))
    }

    /** Program start: static storage zeroed, nothing drawn yet. */
    constructor ()
      ensures Valid()
      ensures Statics() == Init && calls == []
    {
      rubberBandOn, haveEnteredLine, haveRubberLine, lineEnteringDemo := false, false, false, false;
      x1, y1, x2, y2 := 0.0, 0.0, 0.0, 0.0;
      numNewButtonClicks := 0;
      calls := [];
    }

    /** main, before its second event loop: switch the line-entering demo on. */
    method EnableLineEntering()
      requires Valid()
      modifies this
      ensures Valid()
      ensures Statics() == Transitions.EnableLineEntering(old(Statics())).after
      ensures calls == old(calls)
    {
      lineEnteringDemo := true;
    }

    /** The rubber-band parts of drawscreen. Callable in any state (the button
        press calls it half-way through its own update); it keeps the object
        invariant when called from a valid state. */
    method DrawScreen()
      modifies this
      ensures Statics() == Transitions.DrawScreen(old(Statics())).after
      ensures calls == old(calls) + Transitions.DrawScreen(old(Statics())).calls
      ensures old(Valid()) ==> Valid()
    {
      ghost var before := Statics();
      calls := calls + [SetMode(Normal), Scene];
      if haveEnteredLine {
        calls := calls + [Line(Point(x1, y1), Point(x2, y2))];
      }
      haveRubberLine := false;
      if old(Valid()) {
        StepKeepsConsistent(before, Replay(Start, old(calls)), Expose);
        ReplayAppend(Start, old(calls), Transitions.DrawScreen(before).calls);
      }
    }

    /** act_on_button_press at (x, y). */
    method ActOnButtonPress(x: real, y: real)
      requires Valid()
      modifies this
      ensures Valid()
      ensures Statics() == ButtonPress(old(Statics()), Point(x, y)).after
      ensures calls == old(calls) + ButtonPress(old(Statics()), Point(x, y)).calls
    {
      ghost var before := Statics();
      if lineEnteringDemo {
        if rubberBandOn {
          rubberBandOn := false;
          x2 := x;
          y2 := y;
          haveEnteredLine := true;
          DrawScreen();
        } else {
          rubberBandOn := true;
          x1 := x;
          y1 := y;
          haveEnteredLine := false;
          haveRubberLine := false;
        }
      }
      StepKeepsConsistent(before, Replay(Start, old(calls)), Press(Point(x, y)));
      ReplayAppend(Start, old(calls), ButtonPress(before, Point(x, y)).calls);
    }

    /** act_on_mouse_move to (x, y). */
    method ActOnMouseMove(x: real, y: real)
      requires Valid()
      modifies this
      ensures Valid()
      ensures Statics() == MouseMove(old(Statics()), Point(x, y)).after
      ensures calls == old(calls) + MouseMove(old(Statics()), Point(x, y)).calls
    {
      ghost var before := Statics();
      if rubberBandOn {
        calls := calls + [SetMode(Xor)];
        if haveRubberLine {
          calls := calls + [Line(Point(x1, y1), Point(x2, y2))];
        }
        haveRubberLine := true;
        x2 := x;
        y2 := y;
        calls := calls + [Line(Point(x1, y1), Point(x2, y2))];
      }
      assert calls == old(calls) + MouseMove(before, Point(x, y)).calls;
      StepKeepsConsistent(before, Replay(Start, old(calls)), Move(Point(x, y)));
      ReplayAppend(Start, old(calls), MouseMove(before, Point(x, y)).calls);
    }

    /** act_on_new_button_func: the message, then the relabelling from the old
        count to the new one. */
    method ActOnNewButton()
      requires Valid()
      modifies this
      ensures Valid()
      ensures Statics() == NewButton(old(Statics())).after
      ensures calls == old(calls) + NewButton(old(Statics())).calls
    {
      ghost var before := Statics();
      calls := calls + [Text(ButtonMessage)];
      var oldName := ButtonLabel(numNewButtonClicks);
      numNewButtonClicks := numNewButtonClicks + 1;
      var newName := ButtonLabel(numNewButtonClicks);
      calls := calls + [Rename(oldName, newName)];
      assert calls == old(calls) + NewButton(before).calls;
      StepKeepsConsistent(before, Replay(Start, old(calls)), NewButtonClick);
      ReplayAppend(Start, old(calls), NewButton(before).calls);
    }
  }
}
