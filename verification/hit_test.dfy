/** The click handler's scan over the rectangle list: every rectangle is
    recoloured by whether it contains the click, and the id remembered is
    that of the LAST containing rectangle in list order. */
module HitTest {
  import opened Wrappers
  import opened Shapes

  /** The colour a rectangle gets from the scan: Selected when it contains
      the click, Default otherwise. */
  function Paint(r: Rectangle, p: Point): (q: Rectangle)
    ensures SameShape(q, r)
    ensures q.colour == Selected <==> Contains(r, p)
  {
    r.(colour := if Contains(r, p) then Selected else Default)
  }

  /** The list the scan produces when the click changes the selection. */
  function Highlight(rs: seq<Rectangle>, p: Point): (out: seq<Rectangle>)
    ensures SameShapes(out, rs)
    ensures forall i :: 0 <= i < |out| ==> (out[i].colour == Selected <==> Contains(rs[i], p))
  {
    seq(|rs|, i requires 0 <= i < |rs| => Paint(rs[i], p))
  }

  /** The list the click handler produces when it deselects. */
  function ClearHighlight(rs: seq<Rectangle>): (out: seq<Rectangle>)
    ensures SameShapes(out, rs)
    ensures forall i :: 0 <= i < |out| ==> out[i].colour == Default
  {
    seq(|rs|, i requires 0 <= i < |rs| => rs[i].(colour := Default))
  }

  /** Index `i` holds a rectangle containing `p` and no later one does. */
  ghost predicate IsLastHit(rs: seq<Rectangle>, p: Point, i: int)
  {
    && 0 <= i < |rs|
    && Contains(rs[i], p)
    && forall j :: i < j < |rs| ==> !Contains(rs[j], p)
  }

  /** The id of the last rectangle containing `p`, or None when none does. */
  function LastHit(rs: seq<Rectangle>, p: Point): (h: Option<Id>)
    ensures h.Some? <==> exists i :: 0 <= i < |rs| && Contains(rs[i], p)
    ensures h.Some? ==> exists i :: IsLastHit(rs, p, i) && rs[i].id == h.value
    decreases |rs|
  {
    if |rs| == 0 then None
    else if Contains(rs[|rs| - 1], p) then
      assert IsLastHit(rs, p, |rs| - 1);
      Some(rs[|rs| - 1].id)
    else
      var front := rs[..|rs| - 1];
      var h := LastHit(front, p);
      assert forall i :: 0 <= i < |front| ==> front[i] == rs[i];
      assert forall i :: IsLastHit(front, p, i) ==> IsLastHit(rs, p, i);
      h
  }

  /** The hit test ignores colours, so recolouring the list leaves the last
      hit of every point unchanged. */
  lemma {:induction false} LastHitIgnoresColour(a: seq<Rectangle>, b: seq<Rectangle>, p: Point)
    requires SameShapes(a, b)
    ensures LastHit(a, p) == LastHit(b, p)
    decreases |a|
  {
    if |a| > 0 {
      var n := |a| - 1;
      assert SameShape(a[n], b[n]);
      assert SameShapes(a[..n], b[..n]) by {
        forall i | 0 <= i < n ensures SameShape(a[..n][i], b[..n][i]) {
          assert SameShape(a[i], b[i]);
        }
      }
      LastHitIgnoresColour(a[..n], b[..n], p);
    }
  }

  /** Extending a prefix by one rectangle: the new last hit is that
      rectangle's id if it contains the point, else the prefix's last hit. */
  lemma LastHitExtend(rs: seq<Rectangle>, k: int, p: Point)
    requires 0 <= k < |rs|
    ensures LastHit(rs[..k + 1], p)
         == (if Contains(rs[k], p) then Some(rs[k].id) else LastHit(rs[..k], p))
  {
    assert rs[..k + 1][..k] == rs[..k];
  }

  /** The scan as the click handler writes it: one pass in list order that
      recolours each rectangle and overwrites the remembered id on every
      hit. It computes the last hit and the highlighted list. */
  method ScanClick(rs: seq<Rectangle>, p: Point) returns (updated: seq<Rectangle>, clicked: Option<Id>)
    ensures updated == Highlight(rs, p)
    ensures clicked == LastHit(rs, p)
  {
    updated := [];
    clicked := None;
    var k := 0;
    while k < |rs|
      invariant 0 <= k <= |rs|
      invariant |updated| == k
      invariant forall i :: 0 <= i < k ==> updated[i] == Paint(rs[i], p)
      invariant clicked == LastHit(rs[..k], p)
    {
      if Contains(rs[k], p) {
        clicked := Some(rs[k].id);
      }
      LastHitExtend(rs, k, p);
      updated := updated + [Paint(rs[k], p)];
      k := k + 1;
    }
    assert rs[..k] == rs;
    assert forall i :: 0 <= i < |rs| ==> updated[i] == Highlight(rs, p)[i];
  }
}
