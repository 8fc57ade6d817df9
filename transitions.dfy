/**
 The rubber-band line entry of the example program as a pure state machine.

 A `State` holds the program's file-level statics; each callback becomes a
 function from the state before the call to the state after it together with
 the drawing calls it issues, in order. `Run` feeds a whole sequence of
 window events through them. The lemmas state what the callbacks promise:
 the gesture invariants, the exact draw calls of a preview step, that a
 repaint drops the preview but keeps an open gesture, and that the flags
 always describe what is on screen.
 */
module Transitions {
  import opened Graphics
  import Decimal

  /** The file-level statics: rubber_band_on, have_entered_line, have_rubber_line,
      line_entering_demo, (x1, y1), (x2, y2) and num_new_button_clicks. */
  datatype State = State(
    lineEnteringDemo: bool,
    rubberBandOn: bool,
    haveEnteredLine: bool,
    haveRubberLine: bool,
    anchor: Point,     // (x1, y1)
    cursor: Point,     // (x2, y2)
    clicks: nat)       // num_new_button_clicks

  /** Static storage starts zeroed: every flag false, every coordinate 0, no clicks. */
  const Init: State := State(false, false, false, false, Point(0.0, 0.0), Point(0.0, 0.0), 0)

  /** A callback's result: the new statics and the drawing calls it issued, in order. */
  datatype Effect = Effect(after: State, calls: seq<DrawCall>)

  /** The text drawn when the user-created button is pressed. */
  const ButtonMessage: string := "You pressed the new button!"

  /** The button's label for a count n, as `sprintf(..., "%d Clicks", n)` writes it. */
  function ButtonLabel(n: nat): (text: string)
    ensures |text| > 7 && text[|text| - 7..] == " Clicks"
    ensures Decimal.AllDigits(text[..|text| - 7]) && Decimal.Value(text[..|text| - 7]) == n
  {
    var digits := Decimal.Show(n);
    Decimal.ValueShow(n);
    assert (digits + " Clicks")[..|digits|] == digits;
    digits + " Clicks"
  }

  /** The view before any callback has run: nothing drawn, the button labelled "0 Clicks". */
  const Start: View := View(Normal, {}, {}, "0 Clicks")

  /** The gesture invariants every reachable state keeps. */
  predicate Inv(s: State)
  {
    && (s.haveRubberLine ==> s.rubberBandOn)
    && (s.haveEnteredLine ==> !s.rubberBandOn)
    && (s.rubberBandOn || s.haveEnteredLine ==> s.lineEnteringDemo)
  }

  /** The flags describe the screen: a preview shows exactly while have_rubber_line
      holds, an entered line has been painted since the last clear, and the
      button's label shows the click count. */
  predicate Consistent(s: State, v: View)
  {
    && v.preview == (if s.haveRubberLine then {Segment(s.anchor, s.cursor)} else {})
    && (s.haveEnteredLine ==> Segment(s.anchor, s.cursor) in v.painted)
    && v.button == ButtonLabel(s.clicks)
  }

  // ---------------------------------------------------------------------------
  // The callbacks

  /** The rubber-band parts of drawscreen: back to normal mode, the fixed
      picture, the entered line if there is one; any preview is gone. */
  function DrawScreen(s: State): (r: Effect)
    ensures !r.after.haveRubberLine && r.after.(haveRubberLine := s.haveRubberLine) == s
    ensures Inv(s) ==> Inv(r.after)
    ensures forall k :: 0 <= k < |r.calls| ==> r.calls[k] != SetMode(Xor)
  {
    Effect(s.(haveRubberLine := false),
           [SetMode(Normal), Scene] + (if s.haveEnteredLine then [Line(s.anchor, s.cursor)] else []))
  }

  /** act_on_button_press: the first click anchors the line, the second one
      fixes its end and repaints. Nothing happens before the demo is on. */
  function ButtonPress(s: State, p: Point): (r: Effect)
    ensures Inv(s) ==> Inv(r.after)
    ensures r.after.clicks == s.clicks && r.after.lineEnteringDemo == s.lineEnteringDemo
    ensures r.calls != [] <==> s.lineEnteringDemo && s.rubberBandOn
  {
    if !s.lineEnteringDemo then Effect(s, [])
    else if s.rubberBandOn then
      DrawScreen(s.(rubberBandOn := false, cursor := p, haveEnteredLine := true))
    else
      Effect(s.(rubberBandOn := true, anchor := p, haveEnteredLine := false, haveRubberLine := false), [])
  }

  /** act_on_mouse_move: while rubber-banding, erase the old preview (if one
      shows) by drawing it again in exclusive-or mode, then draw the new one. */
  function MouseMove(s: State, p: Point): (r: Effect)
    ensures Inv(s) ==> Inv(r.after)
    ensures r.after.anchor == s.anchor && r.after.rubberBandOn == s.rubberBandOn
    ensures r.after.haveEnteredLine == s.haveEnteredLine && r.after.clicks == s.clicks
    ensures r.after.lineEnteringDemo == s.lineEnteringDemo
    ensures r.calls != [] <==> s.rubberBandOn
  {
    if !s.rubberBandOn then Effect(s, [])
    else
      Effect(s.(haveRubberLine := true, cursor := p),
             [SetMode(Xor)]
             + (if s.haveRubberLine then [Line(s.anchor, s.cursor)] else [])
             + [Line(s.anchor, p)])
  }

  /** act_on_new_button_func: show a message, count the click, relabel the button. */
  function NewButton(s: State): (r: Effect)
    ensures Inv(s) ==> Inv(r.after)
    ensures r.after.clicks == s.clicks + 1
    ensures forall k :: 0 <= k < |r.calls| ==> !r.calls[k].Line? && !r.calls[k].SetMode?
  {
    Effect(s.(clicks := s.clicks + 1),
           [Text(ButtonMessage), Rename(ButtonLabel(s.clicks), ButtonLabel(s.clicks + 1))])
  }

  /** main switching the line-entering demo on before its second event loop. */
  function EnableLineEntering(s: State): (r: Effect)
    ensures Inv(s) ==> Inv(r.after)
    ensures r.after.lineEnteringDemo && r.calls == []
  {
    Effect(s.(lineEnteringDemo := true), [])
  }

  /** The events the window delivers to the program. */
  datatype Input =
    | Press(at: Point)
    | Move(to: Point)
    | Expose          // the library asks for a repaint
    | NewButtonClick
    | StartLineDemo

  /** One event handled by the callback the window system dispatches it to. */
  function Step(s: State, i: Input): (r: Effect)
    ensures Inv(s) ==> Inv(r.after)
    ensures r.after.clicks == s.clicks + (if i == NewButtonClick then 1 else 0)
  {
    match i
    case Press(p) => ButtonPress(s, p)
    case Move(p) => MouseMove(s, p)
    case Expose => DrawScreen(s)
    case NewButtonClick => NewButton(s)
    case StartLineDemo => EnableLineEntering(s)
  }

  /** The events delivered one after another; the calls of each follow those of the one before. */
  function Run(s: State, inputs: seq<Input>): (r: Effect)
    ensures Inv(s) ==> Inv(r.after)
    decreases |inputs|
  {
    if inputs == [] then Effect(s, [])
    else
      var first := Step(s, inputs[0]);
      var rest := Run(first.after, inputs[1..]);
      Effect(rest.after, first.calls + rest.calls)
  }

  /** One event, then the rest. */
  lemma RunCons(s: State, i: Input, rest: seq<Input>)
    ensures var first := Step(s, i);
      Run(s, [i] + rest) == Effect(Run(first.after, rest).after, first.calls + Run(first.after, rest).calls)
  {
    assert ([i] + rest)[1..] == rest;
  }

  lemma RunOne(s: State, i: Input)
    ensures Run(s, [i]) == Step(s, i)
  {
    RunCons(s, i, []);
    assert [i] + [] == [i];
    assert Step(s, i).calls + [] == Step(s, i).calls;
  }

  // ---------------------------------------------------------------------------
  // One callback at a time

  /** A mouse move while not rubber-banding changes nothing and draws nothing. */
  lemma IdleMoveIsNoOp(s: State, p: Point)
    requires !s.rubberBandOn
    ensures MouseMove(s, p) == Effect(s, [])
  {
  }

  /** Before the demo is switched on a click changes no flag and no coordinate. */
  lemma PressBeforeDemoIsNoOp(s: State, p: Point)
    requires !s.lineEnteringDemo
    ensures ButtonPress(s, p) == Effect(s, [])
  {
  }

  /** The first click anchors a new gesture, drops any entered line and
      preview, and draws nothing. */
  lemma FirstClickAnchors(s: State, p: Point)
    requires s.lineEnteringDemo && !s.rubberBandOn
    ensures var e := ButtonPress(s, p);
      && e.after.rubberBandOn && e.after.anchor == p
      && !e.after.haveEnteredLine && !e.after.haveRubberLine
      && e.after.cursor == s.cursor && e.after.clicks == s.clicks
      && e.calls == []
  {
  }

  /** The second click enters the line from the anchor to the click point and
      repaints, drawing that line after switching back to normal mode. */
  lemma SecondClickEnters(s: State, p: Point)
    requires s.lineEnteringDemo && s.rubberBandOn
    ensures var e := ButtonPress(s, p);
      && !e.after.rubberBandOn && e.after.haveEnteredLine && !e.after.haveRubberLine
      && e.after.anchor == s.anchor && e.after.cursor == p
      && e.after.clicks == s.clicks && e.after.lineEnteringDemo
      && e.calls == [SetMode(Normal), Scene, Line(s.anchor, p)]
  {
  }

  /** A preview step: exclusive-or mode, then the old preview again if one
      shows, then the segment to the pointer; afterwards a preview shows and
      (x2, y2) is the pointer. */
  lemma PreviewStep(s: State, p: Point)
    requires s.rubberBandOn
    ensures var e := MouseMove(s, p);
      && e.calls[0] == SetMode(Xor)
      && |e.calls| == (if s.haveRubberLine then 3 else 2)
      && (s.haveRubberLine ==> e.calls[1] == Line(s.anchor, s.cursor))
      && e.calls[|e.calls| - 1] == Line(s.anchor, p)
      && e.after == s.(haveRubberLine := true, cursor := p)
  {
  }

  /** A repaint always drops the preview flag and leaves the gesture alone;
      an entered line is drawn, in normal mode, exactly when there is one. */
  lemma RepaintKeepsGesture(s: State)
    ensures var e := DrawScreen(s);
      && !e.after.haveRubberLine
      && e.after.rubberBandOn == s.rubberBandOn && e.after.anchor == s.anchor
      && e.after.haveEnteredLine == s.haveEnteredLine && e.after.cursor == s.cursor
      && e.after.clicks == s.clicks && e.after.lineEnteringDemo == s.lineEnteringDemo
      && |e.calls| == (if s.haveEnteredLine then 3 else 2)
      && e.calls[..2] == [SetMode(Normal), Scene]
      && (Line(s.anchor, s.cursor) in e.calls <==> s.haveEnteredLine)
  {
  }

  /** Each press of the user-created button shows the message, adds exactly
      one click and relabels the button from the old count to the new one. */
  lemma NewButtonCounts(s: State)
    ensures var e := NewButton(s);
      && e.after == s.(clicks := s.clicks + 1)
      && e.calls == [Text(ButtonMessage), Rename(ButtonLabel(s.clicks), ButtonLabel(e.after.clicks))]
  {
  }

  /** The relabelling is visible: the new label always differs from the old one. */
  lemma RelabelChangesText(n: nat)
    ensures ButtonLabel(n) != ButtonLabel(n + 1)
  {
  }

  /** The label the program gives the button on its first press matches the
      label main creates the button with. */
  lemma FirstLabelIsCreatedLabel()
    ensures ButtonLabel(0) == Start.button
  {
  }

  // ---------------------------------------------------------------------------
  // Invariants over any sequence of events

  /** A repaint makes the flags describe the screen, whatever was on it. */
  lemma RepaintIsConsistent(s: State, v: View)
    requires v.button == ButtonLabel(s.clicks)
    ensures Consistent(DrawScreen(s).after, Replay(v, DrawScreen(s).calls))
  {
    var tail: seq<DrawCall> := if s.haveEnteredLine then [Line(s.anchor, s.cursor)] else [];
    var normal := Apply(v, SetMode(Normal));
    assert DrawScreen(s).calls == [SetMode(Normal)] + ([Scene] + tail);
    ReplayCons(v, SetMode(Normal), [Scene] + tail);
    ReplayCons(normal, Scene, tail);
    if s.haveEnteredLine {
      ReplayOne(Apply(normal, Scene), Line(s.anchor, s.cursor));
    }
  }

  lemma StepKeepsConsistent(s: State, v: View, i: Input)
    requires Inv(s) && Consistent(s, v)
    ensures Consistent(Step(s, i).after, Replay(v, Step(s, i).calls))
  {
    match i
    case Press(p) =>
      if s.lineEnteringDemo && s.rubberBandOn {
        RepaintIsConsistent(s.(rubberBandOn := false, cursor := p, haveEnteredLine := true), v);
      }
    case Move(p) =>
      if s.rubberBandOn {
        var xor := Apply(v, SetMode(Xor));
        var mid: seq<DrawCall> := if s.haveRubberLine then [Line(s.anchor, s.cursor)] else [];
        assert Step(s, i).calls == [SetMode(Xor)] + (mid + [Line(s.anchor, p)]);
        ReplayCons(v, SetMode(Xor), mid + [Line(s.anchor, p)]);
        if s.haveRubberLine {
          ReplayCons(xor, Line(s.anchor, s.cursor), [Line(s.anchor, p)]);
          ReplayOne(Apply(xor, Line(s.anchor, s.cursor)), Line(s.anchor, p));
        } else {
          assert mid + [Line(s.anchor, p)] == [Line(s.anchor, p)];
          ReplayOne(xor, Line(s.anchor, p));
        }
      }
    case Expose =>
      RepaintIsConsistent(s, v);
    case NewButtonClick =>
      var calls := Step(s, i).calls;
      assert calls == [calls[0]] + [calls[1]];
      ReplayCons(v, calls[0], [calls[1]]);
      ReplayOne(Apply(v, calls[0]), calls[1]);
    case StartLineDemo =>
  }

  lemma {:induction false} RunKeepsConsistent(s: State, v: View, inputs: seq<Input>)
    requires Inv(s) && Consistent(s, v)
    ensures Consistent(Run(s, inputs).after, Replay(v, Run(s, inputs).calls))
    decreases |inputs|
  {
    if inputs != [] {
      var first := Step(s, inputs[0]);
      var rest := Run(first.after, inputs[1..]);
      StepKeepsConsistent(s, v, inputs[0]);
      RunKeepsConsistent(first.after, Replay(v, first.calls), inputs[1..]);
      ReplayAppend(v, first.calls, rest.calls);
    }
  }

  /** A repaint starts from a cleared screen in normal mode, so its lines
      never land on a preview, and it leaves no preview. */
  lemma RepaintDrawsSafely(s: State, v: View)
    ensures NormalOnlyOverClear(v, DrawScreen(s).calls) && ModeOk(Replay(v, DrawScreen(s).calls))
  {
    var tail: seq<DrawCall> := if s.haveEnteredLine then [Line(s.anchor, s.cursor)] else [];
    var normal := Apply(v, SetMode(Normal));
    var cleared := Apply(normal, Scene);
    assert DrawScreen(s).calls == [SetMode(Normal)] + ([Scene] + tail);
    ReplayCons(v, SetMode(Normal), [Scene] + tail);
    ReplayCons(normal, Scene, tail);
    NormalOnlyOverClearCons(v, SetMode(Normal), [Scene] + tail);
    NormalOnlyOverClearCons(normal, Scene, tail);
    if s.haveEnteredLine {
      ReplayOne(cleared, Line(s.anchor, s.cursor));
      NormalOnlyOverClearCons(cleared, Line(s.anchor, s.cursor), []);
    }
  }

  /** No callback draws in normal mode over a showing preview, and each leaves
      a showing preview only in exclusive-or mode. */
  lemma StepDrawsSafely(s: State, v: View, i: Input)
    requires ModeOk(v)
    ensures NormalOnlyOverClear(v, Step(s, i).calls) && ModeOk(Replay(v, Step(s, i).calls))
  {
    var calls := Step(s, i).calls;
    match i
    case Press(p) =>
      if s.lineEnteringDemo && s.rubberBandOn {
        RepaintDrawsSafely(s.(rubberBandOn := false, cursor := p, haveEnteredLine := true), v);
      }
    case Move(p) =>
      if s.rubberBandOn {
        assert calls == [SetMode(Xor)] + calls[1..];
        ReplayCons(v, SetMode(Xor), calls[1..]);
        NormalOnlyOverClearCons(v, SetMode(Xor), calls[1..]);
        XorLinesAreSafe(Apply(v, SetMode(Xor)), calls[1..]);
      }
    case Expose =>
      RepaintDrawsSafely(s, v);
    case NewButtonClick =>
      assert calls == [calls[0]] + [calls[1]];
      ReplayCons(v, calls[0], [calls[1]]);
      ReplayOne(Apply(v, calls[0]), calls[1]);
      NormalOnlyOverClearCons(v, calls[0], [calls[1]]);
      NormalOnlyOverClearCons(Apply(v, calls[0]), calls[1], []);
    case StartLineDemo =>
  }

  lemma {:induction false} RunDrawsSafely(s: State, v: View, inputs: seq<Input>)
    requires ModeOk(v)
    ensures NormalOnlyOverClear(v, Run(s, inputs).calls) && ModeOk(Replay(v, Run(s, inputs).calls))
    decreases |inputs|
  {
    if inputs != [] {
      var first := Step(s, inputs[0]);
      var rest := Run(first.after, inputs[1..]);
      StepDrawsSafely(s, v, inputs[0]);
      RunDrawsSafely(first.after, Replay(v, first.calls), inputs[1..]);
      ReplayAppend(v, first.calls, rest.calls);
      NormalOnlyOverClearAppend(v, first.calls, rest.calls);
    }
  }

  /** Whatever the user does, the invariants hold and the flags match the
      screen: have_rubber_line is set exactly when the preview segment from
      (x1, y1) to (x2, y2) is the one exclusive-or segment on screen, so each
      erase draws over the segment that is actually showing; and no line is
      ever drawn in normal mode over a showing preview. */
  lemma Reachable(inputs: seq<Input>)
    ensures Inv(Run(Init, inputs).after)
    ensures Consistent(Run(Init, inputs).after, Replay(Start, Run(Init, inputs).calls))
    ensures NormalOnlyOverClear(Start, Run(Init, inputs).calls)
  {
    RunKeepsConsistent(Init, Start, inputs);
    RunDrawsSafely(Init, Start, inputs);
  }

  /** How many presses of the user-created button a sequence of events holds. */
  function ButtonClicks(inputs: seq<Input>): nat
    decreases |inputs|
  {
    if inputs == [] then 0
    else (if inputs[0] == NewButtonClick then 1 else 0) + ButtonClicks(inputs[1..])
  }

  /** The click counter counts exactly the presses of the new button. */
  lemma {:induction false} RunCountsClicks(s: State, inputs: seq<Input>)
    ensures Run(s, inputs).after.clicks == s.clicks + ButtonClicks(inputs)
    decreases |inputs|
  {
    if inputs != [] {
      RunCountsClicks(Step(s, inputs[0]).after, inputs[1..]);
    }
  }

  // ---------------------------------------------------------------------------
  // Gestures

  /** Between the two clicks of a gesture anything but a click may happen:
      moves, repaints, button presses. */
  predicate NoClicks(inputs: seq<Input>)
  {
    forall k :: 0 <= k < |inputs| ==> !inputs[k].Press?
  }

  /** Events other than clicks keep the gesture open and its anchor fixed. */
  lemma {:induction false} GestureSurvives(s: State, inputs: seq<Input>)
    requires NoClicks(inputs)
    ensures var t := Run(s, inputs).after;
      && t.rubberBandOn == s.rubberBandOn && t.anchor == s.anchor
      && (s.lineEnteringDemo ==> t.lineEnteringDemo)
    decreases |inputs|
  {
    if inputs != [] {
      assert !inputs[0].Press?;
      assert NoClicks(inputs[1..]) by {
        forall k | 0 <= k < |inputs| - 1 ensures !inputs[1..][k].Press? {
          assert inputs[1..][k] == inputs[k + 1];
        }
      }
      GestureSurvives(Step(s, inputs[0]).after, inputs[1..]);
    }
  }

  lemma {:induction false} RunAppend(s: State, a: seq<Input>, b: seq<Input>)
    ensures Run(s, a + b).after == Run(Run(s, a).after, b).after
    decreases |a|
  {
    if a == [] {
      assert a + b == b;
    } else {
      assert (a + b)[0] == a[0];
      assert (a + b)[1..] == a[1..] + b;
      RunAppend(Step(s, a[0]).after, a[1..], b);
    }
  }

  /** Click at a, anything but clicks, click at b: the line from a to b is
      entered and the gesture is closed, however many repaints came between. */
  lemma TwoClickGesture(s: State, a: Point, between: seq<Input>, b: Point)
    requires s.lineEnteringDemo && !s.rubberBandOn
    requires NoClicks(between)
    ensures var t := Run(s, [Press(a)] + between + [Press(b)]).after;
      && t.haveEnteredLine && !t.rubberBandOn && !t.haveRubberLine
      && t.anchor == a && t.cursor == b
  {
    var s1 := Step(s, Press(a)).after;
    GestureSurvives(s1, between);
    RunAppend(s, [Press(a)], between);
    RunAppend(s, [Press(a)] + between, [Press(b)]);
  }

  /** The preview example: click (0,0), move to (2,2), move to (3,3) draws the
      first preview, erases it and draws the second. */
  lemma PreviewExample(s: State)
    requires s.lineEnteringDemo && !s.rubberBandOn
    ensures var o, p, q := Point(0.0, 0.0), Point(2.0, 2.0), Point(3.0, 3.0);
      Run(s, [Press(o), Move(p), Move(q)]).calls
        == [SetMode(Xor), Line(o, p), SetMode(Xor), Line(o, p), Line(o, q)]
  {
    var o, p, q := Point(0.0, 0.0), Point(2.0, 2.0), Point(3.0, 3.0);
    var s1 := Step(s, Press(o)).after;
    var s2 := Step(s1, Move(p)).after;
    assert [Press(o), Move(p), Move(q)] == [Press(o)] + ([Move(p)] + [Move(q)]);
    RunCons(s, Press(o), [Move(p)] + [Move(q)]);
    RunCons(s1, Move(p), [Move(q)]);
    RunOne(s2, Move(q));
  }

  /** After a repaint in the middle of a gesture the next move draws only the
      new preview: there is nothing left to erase. */
  lemma MoveAfterRepaint(s: State, p: Point)
    requires s.rubberBandOn
    ensures Run(s, [Expose, Move(p)]).calls
      == DrawScreen(s).calls + [SetMode(Xor), Line(s.anchor, p)]
  {
    RunCons(s, Expose, [Move(p)]);
    assert [Expose] + [Move(p)] == [Expose, Move(p)];
    RunOne(DrawScreen(s).after, Move(p));
  }
}
