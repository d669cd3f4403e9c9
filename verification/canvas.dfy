/** The interaction state of the annotation canvas and its event handlers,
    each one atomic transition from a state to the next. The DOM inputs
    become parameters: the canvas-local pointer position, the clock reading
    `now` in milliseconds, a freshly generated rectangle id, and the key name. */
module Canvas {
  import opened Wrappers
  import opened Shapes
  import opened HitTest
  import opened TextEdit

  datatype Mode = Rect | Text

  /** A drag must exceed this many units on both axes to commit a rectangle. */
  const MinExtent: real := 5.0

  /** A click less than this many milliseconds after a commit is ignored. */
  const ClickGuardMs: int := 200

  datatype State = State(
    startCoordinates: Option<Point>,
    endCoordinates: Option<Point>,
    isDrawing: bool,
    rectangles: seq<Rectangle>,
    selectedRectangleId: Option<Id>,
    text: string,
    mode: Mode,
    lastDrawnTime: int)

  /** The state the component mounts with. */
  function Init(): State
  {
    State(None, None, false, [], None, "", Rect, 0)
  }

  /** A gesture is in progress: an anchor is recorded and drawing is on. */
  predicate Gesturing(s: State)
  {
    s.startCoordinates.Some? && s.isDrawing
  }

  /** A release at `pointer` is far enough from `anchor` on both axes. */
  predicate BigEnough(anchor: Point, pointer: Point)
  {
    Abs(pointer.x - anchor.x) > MinExtent && Abs(pointer.y - anchor.y) > MinExtent
  }

  /** A click at `now` falls inside the guard window after the last commit. */
  predicate Suppressed(s: State, now: int)
  {
    now - s.lastDrawnTime < ClickGuardMs
  }

  /** Pointer down: anchor a new gesture at `p` and start the caret text afresh. */
  function MouseDown(s: State, p: Point): (t: State)
    ensures t.startCoordinates == Some(p) && t.isDrawing && Gesturing(t)
    ensures t.text == ""
    ensures t == s.(startCoordinates := t.startCoordinates, isDrawing := t.isDrawing, text := t.text)
  {
    s.(startCoordinates := Some(p), text := "", isDrawing := true)
  }

  /** Pointer move: track the live end point while a gesture is in progress. */
  function MouseMove(s: State, p: Point): (t: State)
    ensures !Gesturing(s) ==> t == s
    ensures Gesturing(s) ==> t.endCoordinates == Some(p)
    ensures t == s.(endCoordinates := t.endCoordinates)
  {
    if !Gesturing(s) then s else s.(endCoordinates := Some(p))
  }

  /** The release's commit rule, read off the rectangle it would build. */
  predicate Commits(r: Rectangle, mode: Mode)
  {
    r.width > MinExtent && r.height > MinExtent && mode == Rect
  }

  /** Pointer up at `p`: build the normalised rectangle from the anchor,
      append it if it is big enough and the mode draws rectangles, and end
      the gesture either way. Outside a gesture nothing happens. */
  function MouseUp(s: State, p: Point, now: int, id: Id): (t: State)
    ensures !Gesturing(s) ==> t == s
    ensures Gesturing(s) ==> t.startCoordinates.None? && t.endCoordinates.None? && !t.isDrawing
    ensures |s.rectangles| <= |t.rectangles| <= |s.rectangles| + 1
    ensures t.rectangles[..|s.rectangles|] == s.rectangles
    ensures |t.rectangles| == |s.rectangles| + 1
        <==> Gesturing(s) && BigEnough(s.startCoordinates.value, p) && s.mode == Rect
    ensures |t.rectangles| == |s.rectangles| + 1 ==>
              && t.rectangles[|s.rectangles|] == FromDrag(s.startCoordinates.value, p, id)
              && t.lastDrawnTime == now
    ensures |t.rectangles| == |s.rectangles| ==> t.lastDrawnTime == s.lastDrawnTime
    ensures t.selectedRectangleId == s.selectedRectangleId
    ensures t.text == s.text && t.mode == s.mode
  {
    if !Gesturing(s) then s
    else
      var r := FromDrag(s.startCoordinates.value, p, id);
      var committed :=
        if Commits(r, s.mode) then s.(rectangles := s.rectangles + [r], lastDrawnTime := now)
        else s;
      committed.(startCoordinates := None, endCoordinates := None, isDrawing := false)
  }

  /** Click at `p`: ignored inside the guard window; otherwise the last
      rectangle containing `p` becomes the selection (every containing
      rectangle is highlighted), unless it already is the selection, in
      which case everything is deselected. */
  function Click(s: State, p: Point, now: int): (t: State)
    ensures Suppressed(s, now) ==> t == s
    ensures !Suppressed(s, now) ==> SameShapes(t.rectangles, s.rectangles)
    ensures t == s.(rectangles := t.rectangles, selectedRectangleId := t.selectedRectangleId)
    ensures !Suppressed(s, now) && LastHit(s.rectangles, p) != s.selectedRectangleId ==>
              && t.selectedRectangleId == LastHit(s.rectangles, p)
              && forall i :: 0 <= i < |t.rectangles| ==>
                   (t.rectangles[i].colour == Selected <==> Contains(s.rectangles[i], p))
    ensures !Suppressed(s, now) && LastHit(s.rectangles, p) == s.selectedRectangleId ==>
              && t.selectedRectangleId.None?
              && forall i :: 0 <= i < |t.rectangles| ==> t.rectangles[i].colour == Default
  {
    if Suppressed(s, now) then s
    else
      var clicked := LastHit(s.rectangles, p);
      if clicked != s.selectedRectangleId then
        s.(rectangles := Highlight(s.rectangles, p), selectedRectangleId := clicked)
      else
        s.(rectangles := ClearHighlight(s.rectangles), selectedRectangleId := None)
  }

  /** Key press: edit the caret text while an anchor exists, whatever the mode. */
  function KeyDown(s: State, key: string): (t: State)
    ensures s.startCoordinates.None? ==> t == s
    ensures t == s.(text := t.text)
    ensures s.startCoordinates.Some? && key == Backspace ==> t.text <= s.text && |t.text| == if |s.text| == 0 then 0 else |s.text| - 1
    ensures s.startCoordinates.Some? && key != Backspace && |key| == 1 ==> t.text == s.text + key
    ensures key != Backspace && |key| != 1 ==> t == s
  {
    if s.startCoordinates.Some? then s.(text := ApplyKey(s.text, key)) else s
  }

  /** The mode selector: switching mode keeps every in-progress field. */
  function SetMode(s: State, m: Mode): (t: State)
    ensures t.mode == m
    ensures t == s.(mode := t.mode)
  {
    s.(mode := m)
  }

  /** The live end point is preview only: moving before releasing never
      changes what the release does. */
  lemma MoveDoesNotAffectRelease(s: State, q: Point, p: Point, now: int, id: Id)
    ensures MouseUp(MouseMove(s, q), p, now, id) == MouseUp(s, p, now, id)
  {
  }

  /** A press at `a` and a release at `b` commit exactly the normalised
      rectangle of the drag when it exceeds the threshold on both axes in
      rectangle mode, and nothing otherwise; the gesture ends either way. */
  lemma PressReleaseCommits(s: State, a: Point, b: Point, now: int, id: Id)
    ensures var t := MouseUp(MouseDown(s, a), b, now, id);
      && !Gesturing(t)
      && (if BigEnough(a, b) && s.mode == Rect
          then t.rectangles == s.rectangles + [FromDrag(a, b, id)] && t.lastDrawnTime == now
          else t.rectangles == s.rectangles && t.lastDrawnTime == s.lastDrawnTime)
  {
    var d := MouseDown(s, a);
    var t := MouseUp(d, b, now, id);
    if BigEnough(a, b) && s.mode == Rect {
      assert t.rectangles == t.rectangles[..|s.rectangles|] + [t.rectangles[|s.rectangles|]];
    } else {
      assert |t.rectangles| == |s.rectangles|;
    }
  }

  /** A drag that commits shields itself: a click whose clock reading is less
      than the guard window after the release changes nothing at all, also
      when the clock reads earlier than the release. */
  lemma CommitShieldsClick(s: State, a: Point, b: Point, down: int, id: Id, p: Point, now: int)
    requires BigEnough(a, b) && s.mode == Rect
    requires now < down + ClickGuardMs
    ensures var t := MouseUp(MouseDown(s, a), b, down, id);
      Click(t, p, now) == t
  {
    PressReleaseCommits(s, a, b, down, id);
  }

  /** A click that changes the selection, repeated at the same point outside
      the guard window, undoes it: nothing stays selected and every rectangle
      is back in the default colour. */
  lemma ClickTwiceDeselects(s: State, p: Point, now1: int, now2: int)
    requires !Suppressed(s, now1) && !Suppressed(s, now2)
    requires LastHit(s.rectangles, p) != s.selectedRectangleId
    ensures var t := Click(Click(s, p, now1), p, now2);
      && t.selectedRectangleId.None?
      && SameShapes(t.rectangles, s.rectangles)
      && forall i :: 0 <= i < |t.rectangles| ==> t.rectangles[i].colour == Default
  {
    var t1 := Click(s, p, now1);
    LastHitIgnoresColour(t1.rectangles, s.rectangles, p);
    var t2 := Click(t1, p, now2);
    assert SameShapes(t2.rectangles, s.rectangles) by {
      forall i | 0 <= i < |t2.rectangles| ensures SameShape(t2.rectangles[i], s.rectangles[i]) {
        assert SameShape(t2.rectangles[i], t1.rectangles[i]);
        assert SameShape(t1.rectangles[i], s.rectangles[i]);
      }
    }
  }

  /** A release on the canvas ends the anchor in every mode, so after it the
      key handler ignores every key until the next press. */
  lemma ReleaseEndsTyping(s: State, p: Point, now: int, id: Id, key: string)
    requires Gesturing(s)
    ensures var t := MouseUp(s, p, now, id);
      KeyDown(t, key) == t
  {
  }

  /** The key handler does not look at the mode: with an anchor it edits the
      text in rectangle mode exactly as in text mode. */
  lemma KeyDownIgnoresMode(s: State, key: string)
    ensures KeyDown(s.(mode := Rect), key).text == KeyDown(s.(mode := Text), key).text
  {
  }
}
