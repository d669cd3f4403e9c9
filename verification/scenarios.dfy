/** Concrete interaction sessions worked through the handlers. */
module Scenarios {
  import opened Wrappers
  import opened Shapes
  import opened HitTest
  import opened TextEdit
  import opened Canvas

  /** Drag from (10,10) to (60,70), then click (30,30) twice: the drag commits
      {10, 10, 50, 60}, the first click selects it and the second deselects it. */
  lemma DragSelectDeselect()
    ensures var s1 := MouseDown(Init(), Point(10.0, 10.0));
      var s2 := MouseUp(s1, Point(60.0, 70.0), 1000, "r1");
      var s3 := Click(s2, Point(30.0, 30.0), 2000);
      var s4 := Click(s3, Point(30.0, 30.0), 3000);
      && s2.rectangles == [Rectangle(10.0, 10.0, 50.0, 60.0, "r1", Default)]
      && s3.selectedRectangleId == Some("r1")
      && s3.rectangles == [Rectangle(10.0, 10.0, 50.0, 60.0, "r1", Selected)]
      && s4.selectedRectangleId == None
      && s4.rectangles == [Rectangle(10.0, 10.0, 50.0, 60.0, "r1", Default)]
  {
    var r := Rectangle(10.0, 10.0, 50.0, 60.0, "r1", Default);
    var q := Point(30.0, 30.0);
    var s1 := MouseDown(Init(), Point(10.0, 10.0));
    var s2 := MouseUp(s1, Point(60.0, 70.0), 1000, "r1");
    assert s2.rectangles == [r] by {
      assert FromDrag(Point(10.0, 10.0), Point(60.0, 70.0), "r1") == r;
    }
    assert LastHit([r], q) == Some("r1");
    var s3 := Click(s2, q, 2000);
    assert s3.rectangles == Highlight([r], q);
    assert Highlight([r], q) == [r.(colour := Selected)];
    assert LastHit([r.(colour := Selected)], q) == Some("r1");
    var s4 := Click(s3, q, 3000);
    assert s4.rectangles == ClearHighlight([r.(colour := Selected)]);
  }

  /** The click that ends a committing drag, 50 ms after the release, leaves
      the state exactly as the release did. */
  lemma TerminatingClickIgnored()
    ensures var s1 := MouseDown(Init(), Point(10.0, 10.0));
      var s2 := MouseUp(s1, Point(60.0, 70.0), 1000, "r1");
      Click(s2, Point(60.0, 70.0), 1050) == s2
  {
    var s1 := MouseDown(Init(), Point(10.0, 10.0));
    var s2 := MouseUp(s1, Point(60.0, 70.0), 1000, "r1");
    assert s2.lastDrawnTime == 1000;
  }

  /** A release that moved 5 units or less on one axis stores nothing. */
  lemma SmallDragDiscarded()
    ensures var s1 := MouseDown(Init(), Point(10.0, 10.0));
      var s2 := MouseUp(s1, Point(15.0, 70.0), 1000, "r1");
      s2.rectangles == [] && !s2.isDrawing && s2.lastDrawnTime == 0
  {
    var s1 := MouseDown(Init(), Point(10.0, 10.0));
    assert Abs(15.0 - 10.0) == 5.0;
  }

  /** Two overlapping rectangles, the click in their overlap: BOTH are
      highlighted and the selection is the LATER one, so hits are not
      first-match and more than one rectangle can be highlighted at once. */
  lemma OverlapHighlightsAll()
    ensures var a := Rectangle(0.0, 0.0, 20.0, 20.0, "a", Default);
      var b := Rectangle(10.0, 10.0, 20.0, 20.0, "b", Default);
      var s := Init().(rectangles := [a, b], lastDrawnTime := 0);
      var t := Click(s, Point(15.0, 15.0), 1000);
      && t.selectedRectangleId == Some("b")
      && t.rectangles[0].colour == Selected
      && t.rectangles[1].colour == Selected
  {
    var a := Rectangle(0.0, 0.0, 20.0, 20.0, "a", Default);
    var b := Rectangle(10.0, 10.0, 20.0, 20.0, "b", Default);
    var rs := [a, b];
    assert rs[..1] == [a];
    assert LastHit(rs, Point(15.0, 15.0)) == Some("b");
  }

  /** Typing A, B, Backspace, C while the pointer is held yields "AC", in
      either mode; after the release on the canvas keys change nothing. */
  lemma TypeWhileHeld(m: Mode)
    ensures var s1 := MouseDown(Init().(mode := m), Point(40.0, 40.0));
      var s5 := KeyDown(KeyDown(KeyDown(KeyDown(s1, "A"), "B"), Backspace), "C");
      var s6 := MouseUp(s5, Point(40.0, 40.0), 1000, "t");
      && s5.text == "AC"
      && KeyDown(s6, "X") == s6
  {
    var s1 := MouseDown(Init().(mode := m), Point(40.0, 40.0));
    var s2 := KeyDown(s1, "A");
    assert s2.text == "A";
    var s3 := KeyDown(s2, "B");
    assert s3.text == "AB";
    var s4 := KeyDown(s3, Backspace);
    assert s4.text == "A";
  }
}
