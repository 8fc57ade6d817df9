/**
 The drawing vocabulary the example program uses from its graphics library,
 reduced to the calls whose order matters for rubber-banding, together with
 an abstract account of what a sequence of such calls leaves on screen.

 The view does not model pixels. It records, per segment, whether an odd
 number of exclusive-or draws of it has happened since the screen was last
 cleared (drawing the same segment twice in exclusive-or mode restores what
 was there), which segments were drawn in normal mode since the last clear,
 and the label of the one user-created button.
 */
module Graphics {

  /** A point in world coordinates; the program only ever copies them. */
  datatype Point = Point(x: real, y: real)

  /** A line segment as it is passed to `drawline`: from, then to. */
  datatype Segment = Segment(from: Point, to: Point)

  datatype DrawMode = Normal | Xor

  /** The library calls whose order the model keeps. */
  datatype DrawCall =
    | SetMode(mode: DrawMode)             // set_draw_mode
    | Scene                               // clearscreen and the fixed picture of drawscreen
    | Line(from: Point, to: Point)        // drawline
    | Text(text: string)                  // drawtext
    | Rename(before: string, after: string)  // change_button_text

  /** What the calls issued so far have left on screen. */
  datatype View = View(
    mode: DrawMode,
    preview: set<Segment>,   // segments drawn an odd number of times in Xor mode since the last clear
    painted: set<Segment>,   // segments drawn in Normal mode since the last clear
    button: string)          // the label of the user-created button

  /** Drawing a segment in exclusive-or mode flips whether it shows. */
  function Toggle(shown: set<Segment>, s: Segment): (r: set<Segment>)
    ensures s in r <==> s !in shown
    ensures forall t :: t != s ==> (t in r <==> t in shown)
  {
    if s in shown then shown - {s} else shown + {s}
  }

  /** The effect of one call on the view. */
  function Apply(v: View, c: DrawCall): View
  {
    match c
    case SetMode(m) => v.(mode := m)
    case Scene => v.(preview := {}, painted := {})
    case Line(p, q) =>
      if v.mode == Xor then v.(preview := Toggle(v.preview, Segment(p, q)))
      else v.(painted := v.painted + {Segment(p, q)})
    case Text(_) => v
    case Rename(before, after) => if v.button == before then v.(button := after) else v
  }

  /** The view after issuing `calls`, in order, starting from `v`. */
  function Replay(v: View, calls: seq<DrawCall>): View
    decreases |calls|
  {
    if calls == [] then v else Replay(Apply(v, calls[0]), calls[1..])
  }

  /** Issuing two batches of calls one after the other is issuing their concatenation. */
  lemma {:induction false} ReplayAppend(v: View, a: seq<DrawCall>, b: seq<DrawCall>)
    ensures Replay(v, a + b) == Replay(Replay(v, a), b)
    decreases |a|
  {
    if a == [] {
      assert a + b == b;
    } else {
      assert (a + b)[0] == a[0];
      assert (a + b)[1..] == a[1..] + b;
      ReplayAppend(Apply(v, a[0]), a[1..], b);
    }
  }

  /** Issuing one call, then the rest. */
  lemma ReplayCons(v: View, c: DrawCall, rest: seq<DrawCall>)
    ensures Replay(v, [c] + rest) == Replay(Apply(v, c), rest)
  {
    assert ([c] + rest)[1..] == rest;
  }

  lemma ReplayOne(v: View, c: DrawCall)
    ensures Replay(v, [c]) == Apply(v, c)
  {
    ReplayCons(v, c, []);
    assert [c] + [] == [c];
  }

  /** Erase-by-redraw: drawing the same segment twice in exclusive-or mode leaves the view as it was. */
  lemma {:induction false} XorTwiceRestores(v: View, p: Point, q: Point)
    requires v.mode == Xor
    ensures Replay(v, [Line(p, q), Line(p, q)]) == v
  {
    var once := Apply(v, Line(p, q));
    ReplayCons(v, Line(p, q), [Line(p, q)]);
    assert [Line(p, q)] + [Line(p, q)] == [Line(p, q), Line(p, q)];
    ReplayOne(once, Line(p, q));
    assert Toggle(Toggle(v.preview, Segment(p, q)), Segment(p, q)) == v.preview;
  }

  /** Exclusive-or drawing is only sound while nothing is drawn in normal mode
      over a showing preview; this holds of a view in which a showing preview
      implies exclusive-or mode. */
  predicate ModeOk(v: View)
  {
    v.preview != {} ==> v.mode == Xor
  }

  /** No call of `calls`, issued from `v` on, draws a line in normal mode while
      an exclusive-or segment shows. */
  predicate NormalOnlyOverClear(v: View, calls: seq<DrawCall>)
    decreases |calls|
  {
    calls == [] ||
    (&& (calls[0].Line? && v.mode == Normal ==> v.preview == {})
     && NormalOnlyOverClear(Apply(v, calls[0]), calls[1..]))
  }

  lemma NormalOnlyOverClearCons(v: View, c: DrawCall, rest: seq<DrawCall>)
    ensures NormalOnlyOverClear(v, [c] + rest)
      <==> (c.Line? && v.mode == Normal ==> v.preview == {}) && NormalOnlyOverClear(Apply(v, c), rest)
  {
    assert ([c] + rest)[0] == c;
    assert ([c] + rest)[1..] == rest;
  }

  lemma {:induction false} NormalOnlyOverClearAppend(v: View, a: seq<DrawCall>, b: seq<DrawCall>)
    ensures NormalOnlyOverClear(v, a + b)
      <==> NormalOnlyOverClear(v, a) && NormalOnlyOverClear(Replay(v, a), b)
    decreases |a|
  {
    if a == [] {
      assert a + b == b;
    } else {
      assert (a + b)[0] == a[0];
      assert (a + b)[1..] == a[1..] + b;
      NormalOnlyOverClearAppend(Apply(v, a[0]), a[1..], b);
    }
  }

  /** Lines drawn in exclusive-or mode never draw over a preview in normal mode,
      and the mode stays exclusive-or. */
  lemma {:induction false} XorLinesAreSafe(v: View, lines: seq<DrawCall>)
    requires v.mode == Xor
    requires forall k :: 0 <= k < |lines| ==> lines[k].Line?
    ensures NormalOnlyOverClear(v, lines) && Replay(v, lines).mode == Xor
    decreases |lines|
  {
    if lines != [] {
      XorLinesAreSafe(Apply(v, lines[0]), lines[1..]);
    }
  }
}
