/**
 * `PointInPoly` and the hover test of `main`: the even-odd (ray casting)
 * rule over the edges of a polygon whose vertices are placed on screen as
 * `offset + vertex * scale`, and the OR of that test over a frame's
 * polygons. Coordinates are exact reals.
 */
module HitTest {
  import opened Pack

  /** A polygon vertex placed on screen. */
  function Placed(pt: Pt, offx: real, offy: real, scale: real): Pt
  {
    Pt(offx + pt.x * scale, offy + pt.y * scale)
  }

  /**
   * The edge from `a` (vertex i) to `b` (vertex j) crosses the ray leaving
   * `p` to the right: it straddles the height of `p`, and `p` lies left of
   * the point where it meets that height. A straddling edge is never
   * horizontal, so the division is defined.
   */
  predicate Crosses(p: Pt, a: Pt, b: Pt)
  {
    (a.y > p.y) != (b.y > p.y) && p.x < (b.x - a.x) * (p.y - a.y) / (b.y - a.y) + a.x
  }

  /** The vertex before `i` on the ring: `j` of the loop. */
  function Prev(i: nat, n: nat): nat
    requires i < n
  {
    if i == 0 then n - 1 else i - 1
  }

  /** How many of the edges (i, Prev(i)) with i < k cross the ray from `p`. */
  function Crossings(p: Pt, pts: seq<Pt>, offx: real, offy: real, scale: real, k: nat): nat
    requires k <= |pts|
  {
    if k == 0 then 0
    else
      Crossings(p, pts, offx, offy, scale, k - 1) +
      (if Crosses(p, Placed(pts[k - 1], offx, offy, scale), Placed(pts[Prev(k - 1, |pts|)], offx, offy, scale))
       then 1 else 0)
  }

  /** The even-odd rule: an odd number of crossing edges. */
  predicate InPolygon(p: Pt, pts: seq<Pt>, offx: real, offy: real, scale: real)
  {
    Crossings(p, pts, offx, offy, scale, |pts|) % 2 == 1
  }

  /**
   * The edge test of `PointInPoly` as written, with its guard against a zero
   * denominator: it agrees with `Crosses`, because only a straddling edge
   * reaches the division and a straddling edge is not horizontal.
   */
  function EdgeTest(p: Pt, xi: real, yi: real, xj: real, yj: real): (r: bool)
    ensures r == Crosses(p, Pt(xi, yi), Pt(xj, yj))
  {
    ((yi > p.y) != (yj > p.y)) &&
    (p.x < (xj - xi) * (p.y - yi) / (if yj - yi != 0.0 then yj - yi else 0.000001) + xi)
  }

  /** `PointInPoly`: toggles `inside` once per crossing edge. */
  method PointInPoly(p: Pt, poly: Poly, offx: real, offy: real, scale: real) returns (inside: bool)
    ensures inside == InPolygon(p, poly.pts, offx, offy, scale)
  {
    var pts := poly.pts;
    var n := |pts|;
    inside := false;
    var i: nat, j: int := 0, n - 1;
    while i < n
      invariant i <= n
      invariant j == if i == 0 then n - 1 else i - 1
      invariant inside == (Crossings(p, pts, offx, offy, scale, i) % 2 == 1)
    {
      var vi := Placed(pts[i], offx, offy, scale);
      var vj := Placed(pts[j], offx, offy, scale);
      var intersect := EdgeTest(p, vi.x, vi.y, vj.x, vj.y);
      if intersect {
        inside := !inside;
      }
      j, i := i, i + 1;
    }
  }

  /**
   * The hover loop: polygons are tried in order until one contains the
   * point; the result is whether any does.
   */
  method AnyPolyHit(m: Pt, polys: seq<Poly>, offx: real, offy: real, scale: real) returns (hovered: bool)
    ensures hovered <==> exists k :: 0 <= k < |polys| && InPolygon(m, polys[k].pts, offx, offy, scale)
  {
    hovered := false;
    var pi := 0;
    while pi < |polys| && !hovered
      invariant pi <= |polys|
      invariant !hovered ==> forall k :: 0 <= k < pi ==> !InPolygon(m, polys[k].pts, offx, offy, scale)
      invariant hovered ==> 0 < pi && InPolygon(m, polys[pi - 1].pts, offx, offy, scale)
    {
      hovered := PointInPoly(m, polys[pi], offx, offy, scale);
      pi := pi + 1;
    }
  }

  /** An edge crosses the ray exactly when the same edge walked backwards does. */
  lemma CrossesSymmetric(p: Pt, a: Pt, b: Pt)
    ensures Crosses(p, a, b) == Crosses(p, b, a)
  {
    if (a.y > p.y) != (b.y > p.y) {
      var d := b.y - a.y;
      assert (a.x - b.x) * (p.y - b.y) / (a.y - b.y) + b.x == (b.x - a.x) * (p.y - a.y) / d + a.x by {
        assert (a.x - b.x) * (p.y - b.y) / (a.y - b.y) == (b.x - a.x) * (p.y - b.y) / d;
        assert (b.x - a.x) * (p.y - a.y) / d - (b.x - a.x) * (p.y - b.y) / d == (b.x - a.x) * (b.y - a.y) / d;
        assert (b.x - a.x) * (b.y - a.y) / d == b.x - a.x;
      }
    }
  }

  /**
   * A polygon of fewer than three points has no inside: with none or one
   * no edge straddles anything, and the two edges of a two-point polygon
   * are one segment walked both ways, so their crossings cancel.
   */
  lemma FewerThanThreePointsNeverHit(p: Pt, pts: seq<Pt>, offx: real, offy: real, scale: real)
    requires |pts| < 3
    ensures !InPolygon(p, pts, offx, offy, scale)
  {
    if |pts| == 2 {
      var a, b := Placed(pts[0], offx, offy, scale), Placed(pts[1], offx, offy, scale);
      CrossesSymmetric(p, a, b);
      assert Crossings(p, pts, offx, offy, scale, 1) == if Crosses(p, a, b) then 1 else 0;
      assert Crossings(p, pts, offx, offy, scale, 2) == if Crosses(p, a, b) then 2 else 0;
    } else if |pts| == 1 {
      assert Crossings(p, pts, offx, offy, scale, 1) == 0;
    }
  }

  /** The square (0,0) (10,0) (10,10) (0,10) placed as it is contains (5,5) and not (15,15). */
  lemma SquareExample()
    ensures InPolygon(Pt(5.0, 5.0), [Pt(0.0, 0.0), Pt(10.0, 0.0), Pt(10.0, 10.0), Pt(0.0, 10.0)], 0.0, 0.0, 1.0)
    ensures !InPolygon(Pt(15.0, 15.0), [Pt(0.0, 0.0), Pt(10.0, 0.0), Pt(10.0, 10.0), Pt(0.0, 10.0)], 0.0, 0.0, 1.0)
  {
    var sq := [Pt(0.0, 0.0), Pt(10.0, 0.0), Pt(10.0, 10.0), Pt(0.0, 10.0)];
    assert Crossings(Pt(5.0, 5.0), sq, 0.0, 0.0, 1.0, 4) == 1;
    assert Crossings(Pt(15.0, 15.0), sq, 0.0, 0.0, 1.0, 4) == 0;
  }
}
