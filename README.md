# Rubber-band line entry of the graphics example program

The example program (`code/example.cpp`) drives a 2D graphics library. Its one
piece of real logic is the interactive line entry: the first mouse click
anchors a line at `(x1, y1)`, every mouse move then draws a live preview from
the anchor to the pointer in exclusive-or mode (erasing the previous preview by
drawing it again), and the second click fixes `(x2, y2)`, marks the line as
entered and repaints the whole screen, which draws the entered line. A repaint
(`drawscreen`) clears the preview flag but leaves an open gesture alone. A
user-created button counts its presses and relabels itself `"<n> Clicks"`.

The model has four modules:

- `Graphics` (`graphics.dfy`): the drawing calls whose order matters
  (`SetMode`, `Scene`, `Line`, `Text`, `Rename`), and `Replay`, an abstract
  account of what a sequence of calls leaves on screen. It records which
  segments have been drawn an odd number of times in exclusive-or mode since
  the last clear, which were drawn in normal mode, and the button's label.
- `Decimal` (`decimal.dfy`): the text `sprintf` writes for `%d` of a
  non-negative count, with its inverse.
- `Transitions` (`transitions.dfy`): the statics of lines 17-21 as a `State`
  value. Each callback is a function from the old state to the new state plus
  the calls it issued. `Run` feeds a sequence of window events through the
  callbacks. The lemmas state the gesture invariants, the exact draw calls of
  each callback, that the flags always describe the screen, and that no line
  is ever drawn in normal mode over a showing preview.
- `Example` (`example.dfy`): class `Window`, whose fields are the statics and
  whose ghost field `calls` is the trace of drawing calls. Its methods update
  the fields step by step as the C++ callbacks do; `ActOnButtonPress` calls
  `DrawScreen` exactly where the source does. Each method's contract says that
  the new fields and the appended calls are what the matching `Transitions`
  function gives. Each method keeps the object invariant `Valid`: the gesture
  invariant plus agreement between the flags and the replayed trace.

The central result is `Transitions.Reachable`. After any sequence of clicks,
moves, repaints and button presses from the zeroed statics, the invariants
`have_rubber_line ⇒ rubber_band_on` and `have_entered_line ⇒ !rubber_band_on`
hold. Also, `have_rubber_line` is set exactly when the segment from `(x1, y1)`
to `(x2, y2)` is the one exclusive-or segment on screen. So the erase in
`act_on_mouse_move` always draws over the segment that is actually showing, and
a repaint, which clears the screen, is right to drop the flag. Nothing is ever
drawn in normal mode while a preview shows, so counting exclusive-or draws per
segment is a sound account of the preview.

Two details of the program that the model keeps:

- The first click of a new gesture clears `have_entered_line` (line 387). The
  entered line is therefore dropped when the next gesture starts, not when it
  completes. It still stays on screen until the next repaint.
- The second click calls `drawscreen` directly (line 381), synchronously. It
  does not post a redraw request.

## Model

| member | source | states |
|---|---|---|
| `Graphics.XorTwiceRestores` | code/example.cpp:409-411 | drawing the same segment twice in exclusive-or mode leaves the screen as it was, which is the erase the mouse-move callback relies on |
| `Decimal.Show` | code/example.cpp:350 | `%d` of a count is a non-empty string of digits, `"0"` exactly for 0, and otherwise has no leading zero |
| `Decimal.ValueShow` | code/example.cpp:350-352 | reading back the printed numeral gives the count |
| `Decimal.ShowInjective` | code/example.cpp:350-352 | two counts print the same numeral if and only if they are equal |
| `Transitions.ButtonLabel` | code/example.cpp:350-352 | the label for a count n is a numeral followed by `" Clicks"`, and the numeral reads back as n |
| `Transitions.DrawScreen` | code/example.cpp:97-330 | the definition of the rubber-band parts of `drawscreen`: the preview flag is cleared and nothing else changes, the gesture invariants are kept, and exclusive-or mode is never set; `RepaintKeepsGesture` gives its exact calls |
| `Transitions.ButtonPress` | code/example.cpp:357-392 | the definition of `act_on_button_press`: it keeps the gesture invariants, never changes the count or the demo switch, and draws only on the second click of a gesture; `PressBeforeDemoIsNoOp`, `FirstClickAnchors` and `SecondClickEnters` give each branch exactly |
| `Transitions.MouseMove` | code/example.cpp:396-418 | the definition of `act_on_mouse_move`: it keeps the gesture invariants, the anchor, the rubber-band and entered-line flags, the count and the demo switch, and draws exactly when rubber-banding; `IdleMoveIsNoOp` and `PreviewStep` give each branch exactly |
| `Transitions.NewButton` | code/example.cpp:343-354 | the definition of `act_on_new_button_func`: it keeps the gesture invariants, adds one to the count, and issues no line and no mode change; `NewButtonCounts` gives its exact calls |
| `Transitions.EnableLineEntering` | code/example.cpp:76 | the definition of `main` switching the demo on: the switch is on afterwards, nothing is drawn, and the gesture invariants are kept |
| `Transitions.Step` | code/example.cpp:82 | one event dispatched to its callback, as the second event loop does: every event keeps the gesture invariants `have_rubber_line ⇒ rubber_band_on`, `have_entered_line ⇒ !rubber_band_on` and "a gesture exists only once the demo is on", and only a new-button press changes the count, by one |
| `Transitions.Run` | code/example.cpp:82 | events delivered one after another, each callback's calls following the previous one's: any sequence of events keeps the gesture invariants |
| `Transitions.IdleMoveIsNoOp` | code/example.cpp:401-417 | a mouse move while not rubber-banding changes no static and issues no drawing call |
| `Transitions.PressBeforeDemoIsNoOp` | code/example.cpp:373-390 | a click before the line-entering demo is on changes no flag and no coordinate and draws nothing |
| `Transitions.FirstClickAnchors` | code/example.cpp:383-389 | the first click turns rubber-banding on, sets the anchor to the click point, clears the entered-line and preview flags, keeps `(x2, y2)` and the count, and draws nothing |
| `Transitions.SecondClickEnters` | code/example.cpp:374-381 | the second click turns rubber-banding off, enters the line from the anchor to the click point, clears the preview flag, keeps the count and the demo switch, and issues exactly normal mode, the scene, then that line |
| `Transitions.PreviewStep` | code/example.cpp:404-416 | a move while rubber-banding issues exclusive-or mode, then the old preview segment if and only if one was showing, then the segment from the anchor to the pointer, and nothing else; afterwards the preview flag is set, `(x2, y2)` is the pointer and every other static is unchanged |
| `Transitions.RepaintKeepsGesture` | code/example.cpp:97-330 | a repaint clears the preview flag, leaves rubber-banding, both endpoints, the entered-line flag, the count and the demo switch unchanged, and issues exactly normal mode and the scene, followed by the entered line once if there is one and by nothing otherwise |
| `Transitions.NewButtonCounts` | code/example.cpp:349-353 | a button press adds exactly one to the count, changes nothing else, and issues exactly the message text, then the rename of the button from the label of the old count to that of the new one |
| `Transitions.RelabelChangesText` | code/example.cpp:350-353 | the label after a press always differs from the label before it |
| `Transitions.FirstLabelIsCreatedLabel` | code/example.cpp:70 | the label the first press renames from is the label `main` creates the button with |
| `Transitions.RepaintIsConsistent` | code/example.cpp:326-330 | after a repaint, from any screen, no preview shows, the flag says so, and an entered line has been painted |
| `Transitions.StepKeepsConsistent` | code/example.cpp:401-416 | each callback keeps the flags in agreement with the screen: the preview flag holds exactly when the anchor-to-`(x2, y2)` segment is the one exclusive-or segment showing, an entered line is painted, and the button shows the count |
| `Transitions.RunKeepsConsistent` | code/example.cpp:17-21 | the same agreement holds after any sequence of events |
| `Transitions.RepaintDrawsSafely` | code/example.cpp:97-98 | a repaint switches to normal mode and clears the screen before its line, so it never draws over a preview, and it leaves none |
| `Transitions.StepDrawsSafely` | code/example.cpp:404-416 | from a screen where a showing preview implies exclusive-or mode, no callback draws a line in normal mode over a showing preview, and that property of the screen is kept |
| `Transitions.RunDrawsSafely` | code/example.cpp:97 | the same holds over any sequence of events |
| `Transitions.Reachable` | code/example.cpp:17-21 | from the zeroed statics, every reachable state satisfies the invariants and agrees with what its calls left on screen, and no line was ever drawn in normal mode over a showing preview |
| `Transitions.RunCountsClicks` | code/example.cpp:351 | the click count grows by exactly the number of presses of the new button |
| `Transitions.GestureSurvives` | code/example.cpp:326-330 | moves, repaints and button presses leave rubber-banding and the anchor unchanged, so an open gesture survives a repaint |
| `Transitions.TwoClickGesture` | code/example.cpp:373-389 | a click at a, any events other than clicks, then a click at b leave the line from a to b entered, the gesture closed and no preview flag |
| `Transitions.PreviewExample` | code/example.cpp:404-416 | click (0,0), move to (2,2), move to (3,3) issue exclusive-or mode, the segment to (2,2), exclusive-or mode, the segment to (2,2) again, then the segment to (3,3) |
| `Transitions.MoveAfterRepaint` | code/example.cpp:330 | after a repaint during a gesture the next move draws only the new preview, with no erase |
| `Example.Window.constructor` | code/example.cpp:17-21 | the statics start zeroed (the constant `Transitions.Init`) with nothing drawn, and the object invariant holds |
| `Example.Window.EnableLineEntering` | code/example.cpp:76 | switches the line-entering demo on, changes nothing else, and draws nothing |
| `Example.Window.DrawScreen` | code/example.cpp:91-331 | the new statics and appended calls are those of a repaint; a valid window stays valid |
| `Example.Window.ActOnButtonPress` | code/example.cpp:357-392 | the new statics and appended calls are those of a click at (x, y), and the object invariant is kept |
| `Example.Window.ActOnMouseMove` | code/example.cpp:396-418 | the new statics and appended calls are those of a move to (x, y), and the object invariant is kept |
| `Example.Window.ActOnNewButton` | code/example.cpp:343-354 | the new statics and appended calls are those of a press of the new button, and the object invariant is kept |

## Left out

- Logging: every `printf` and `putchar` (lines 29, 85, 346, 363-371, 400). The modifier keys of a click are only printed, so the model's click takes just the point. `act_on_key_press` (lines 421-424) only prints, so it is not modelled.
- The fixed picture of `drawscreen` (lines 98-324) is one opaque `Scene` call. This covers the clear of line 98, colours, random RGB values, text, arcs, polygons and rectangles. The colour, width and style settings in the callbacks are not modelled as calls either.
- `main` is not modelled as a whole: window set-up, both event loops, saving and restoring the visible world, the animation loop with its point arithmetic (lines 59-65), and `close_graphics`. Only switching the demo on (line 76) is modelled, by `EnableLineEntering`. The event loop's own requests for a repaint are the `Expose` event. Which events the window system delivers, and when, is not part of this model.
- `delay` (lines 334-340) only sleeps.
- In the model the user-created button exists from the start. In the program, `main` creates it at line 70, before its second event loop.
- Coordinates are `real`. The program's `float` values are only copied, never computed on, so rounding plays no part.
- `Transitions.NewButtonCounts`: the count is a `nat`. The program's `int` would overflow after `INT_MAX` presses, which is undefined behaviour in C++; that is not modelled.
- The graphics library (`graphics.h`) is not part of this model. The view computed by `Graphics.Replay` is an abstraction and does not model pixels. It assumes that exclusive-or drawing toggles a segment, that clearing the screen drops everything drawn, and that `change_button_text` relabels the button whose label equals the old name.
- `code_unitTest/tests/TestMoney.cpp` tests a `Money` type whose header, `Money.h`, is not part of this model.
