/** Whole interaction sessions: a sequence of browser events applied one
    handler at a time from the mount state, and the invariants every
    reachable state keeps. */
module Session {
  import opened Shapes
  import opened HitTest
  import opened Canvas

  /** One browser event, with the inputs its handler reads. */
  datatype Event =
    | MouseDownAt(p: Point)
    | MouseMoveTo(p: Point)
    | MouseUpAt(p: Point, now: int, id: Id)
    | ClickAt(p: Point, now: int)
    | KeyPress(key: string)
    | ModeChange(mode: Mode)

  function Step(s: State, e: Event): State
  {
    match e
    case MouseDownAt(p) => MouseDown(s, p)
    case MouseMoveTo(p) => MouseMove(s, p)
    case MouseUpAt(p, now, id) => MouseUp(s, p, now, id)
    case ClickAt(p, now) => Click(s, p, now)
    case KeyPress(key) => KeyDown(s, key)
    case ModeChange(m) => SetMode(s, m)
  }

  function Run(s: State, events: seq<Event>): State
    decreases |events|
  {
    if |events| == 0 then s else Run(Step(s, events[0]), events[1..])
  }

  /** The anchor exists exactly while drawing is on, and a live end point
      only during a gesture. */
  predicate GestureConsistent(s: State)
  {
    && (s.isDrawing <==> s.startCoordinates.Some?)
    && (s.endCoordinates.Some? ==> s.isDrawing)
  }

  /** Every stored rectangle passed the commit threshold. */
  predicate AllCommitted(rs: seq<Rectangle>)
  {
    forall i :: 0 <= i < |rs| ==> rs[i].width > MinExtent && rs[i].height > MinExtent
  }

  /** With nothing selected every rectangle is in the default colour; with an
      id selected some rectangle carrying that id is highlighted. */
  ghost predicate SelectionConsistent(s: State)
  {
    && (s.selectedRectangleId.None? ==>
          forall i :: 0 <= i < |s.rectangles| ==> s.rectangles[i].colour == Default)
    && (s.selectedRectangleId.Some? ==>
          exists i :: 0 <= i < |s.rectangles|
                      && s.rectangles[i].id == s.selectedRectangleId.value
                      && s.rectangles[i].colour == Selected)
  }

  ghost predicate Invariant(s: State)
  {
    GestureConsistent(s) && AllCommitted(s.rectangles) && SelectionConsistent(s)
  }

  lemma InitInvariant()
    ensures Invariant(Init())
  {
  }

  lemma StepPreservesInvariant(s: State, e: Event)
    requires Invariant(s)
    ensures Invariant(Step(s, e))
  {
    var t := Step(s, e);
    match e {
      case MouseUpAt(p, now, id) =>
        if s.selectedRectangleId.Some? {
          var i :| 0 <= i < |s.rectangles|
                   && s.rectangles[i].id == s.selectedRectangleId.value
                   && s.rectangles[i].colour == Selected;
          assert t.rectangles[i] == t.rectangles[..|s.rectangles|][i];
        }
      case ClickAt(p, now) =>
        if !Suppressed(s, now) {
          var hit := LastHit(s.rectangles, p);
          if hit != s.selectedRectangleId && hit.Some? {
            var i :| IsLastHit(s.rectangles, p, i) && s.rectangles[i].id == hit.value;
            assert SameShape(t.rectangles[i], s.rectangles[i]);
          }
        }
      case _ =>
    }
  }

  /** Every state reached from a state satisfying the invariant satisfies it. */
  lemma {:induction false} RunPreservesInvariant(s: State, events: seq<Event>)
    requires Invariant(s)
    ensures Invariant(Run(s, events))
    decreases |events|
  {
    if |events| > 0 {
      StepPreservesInvariant(s, events[0]);
      RunPreservesInvariant(Step(s, events[0]), events[1..]);
    }
  }

  /** A handler never removes or reshapes a stored rectangle: the old list is,
      up to colour, a prefix of the new one. */
  lemma StepKeepsShapes(s: State, e: Event)
    ensures |s.rectangles| <= |Step(s, e).rectangles|
    ensures SameShapes(s.rectangles, Step(s, e).rectangles[..|s.rectangles|])
  {
    var t := Step(s, e);
    match e {
      case MouseUpAt(p, now, id) =>
        assert t.rectangles[..|s.rectangles|] == s.rectangles;
      case ClickAt(p, now) =>
        assert t.rectangles[..|s.rectangles|] == t.rectangles;
      case _ =>
        assert t.rectangles[..|s.rectangles|] == s.rectangles;
    }
  }

  /** Rectangles are never deleted and never move or change shape in a
      session; only their colours change. */
  lemma {:induction false} RunKeepsShapes(s: State, events: seq<Event>)
    ensures |s.rectangles| <= |Run(s, events).rectangles|
    ensures SameShapes(s.rectangles, Run(s, events).rectangles[..|s.rectangles|])
    decreases |events|
  {
    if |events| > 0 {
      var m := Step(s, events[0]);
      StepKeepsShapes(s, events[0]);
      RunKeepsShapes(m, events[1..]);
      var t := Run(s, events);
      assert t == Run(m, events[1..]);
      var n := |s.rectangles|;
      forall i | 0 <= i < n
        ensures SameShape(s.rectangles[i], t.rectangles[..n][i])
      {
        assert SameShape(s.rectangles[i], m.rectangles[..n][i]);
        assert SameShape(m.rectangles[i], t.rectangles[..|m.rectangles|][i]);
      }
    }
  }
}
