/**
 * The glyph preview utility: a FreeType outline is a flat list of points and the index
 * of the last point of each contour; `glyph_to_polygons` cuts the scaled points into
 * contours and keeps those with at least three points, in outline order.
 */
module PreviewFreetype {
  import opened Numbers
  import opened Sorting

  /** An outline point (x, y). */
  datatype Point = Point(x: real, y: real)

  /** `points * scale`: every coordinate multiplied by the scale. */
  function Scaled(points: seq<Point>, scale: real): (r: seq<Point>)
    ensures |r| == |points|
    ensures forall k :: 0 <= k < |r| ==> r[k] == Point(points[k].x * scale, points[k].y * scale)
  {
    seq(|points|, k requires 0 <= k < |points| => Point(points[k].x * scale, points[k].y * scale))
  }

  /** Scaling by one leaves the points alone, and scaling twice multiplies the scales. */
  lemma ScaledCompose(points: seq<Point>, a: real, b: real)
    ensures Scaled(points, 1.0) == points
    ensures Scaled(Scaled(points, a), b) == Scaled(points, a * b)
  {
    forall k | 0 <= k < |points| ensures Scaled(points, 1.0)[k] == points[k] {
      assert Scaled(points, 1.0)[k] == Point(points[k].x, points[k].y);
    }
    forall k | 0 <= k < |points|
      ensures Scaled(Scaled(points, a), b)[k] == Scaled(points, a * b)[k]
    {
      var p := points[k];
      assert p.x * a * b == p.x * (a * b) && p.y * a * b == p.y * (a * b);
    }
  }

  /** The `points[lo:hi]` of numpy for non-negative bounds: clipped to the array, empty when `hi <= lo`. */
  function Slice<T>(s: seq<T>, lo: nat, hi: nat): (r: seq<T>)
    ensures lo <= hi <= |s| ==> r == s[lo..hi]
    ensures |r| == Max(0, Min(hi, |s|) - lo)
  {
    var h := Min(hi, |s|);
    if lo < h then s[lo..h] else []
  }

  /** Where contour `k` starts: at 0 for the first, after the previous contour's end otherwise. */
  function StartOf(ends: seq<nat>, k: nat): nat
    requires k <= |ends|
  {
    if k == 0 then 0 else ends[k - 1] + 1
  }

  /** Every contour of the outline, the short ones included. */
  function Pieces(points: seq<Point>, ends: seq<nat>): (r: seq<seq<Point>>)
    ensures |r| == |ends|
    decreases |ends|
  {
    if |ends| == 0 then []
    else
      var n := |ends| - 1;
      Pieces(points, ends[..n]) + [Slice(points, StartOf(ends, n), ends[n] + 1)]
  }

  /** Contour `k` runs from its start through its end point, clipped to the points. */
  lemma {:induction false} PiecesAt(points: seq<Point>, ends: seq<nat>, k: nat)
    requires k < |ends|
    ensures Pieces(points, ends)[k] == Slice(points, StartOf(ends, k), ends[k] + 1)
    decreases |ends|
  {
    var n := |ends| - 1;
    if k < n {
      var front := ends[..n];
      PiecesAt(points, front, k);
      assert StartOf(front, k) == StartOf(ends, k) && front[k] == ends[k];
    }
  }

  /** A contour is drawn when it has three points or more. */
  predicate Drawn(contour: seq<Point>) { |contour| >= 3 }

  /** The polygons: the drawn contours, in outline order. */
  function Polygons(points: seq<Point>, ends: seq<nat>): (r: seq<seq<Point>>)
    ensures |r| <= |ends|
    ensures forall k :: 0 <= k < |r| ==> |r[k]| >= 3
  {
    Filter(Pieces(points, ends), Drawn)
  }

  /** The concatenation of a sequence of contours. */
  function Flatten(cs: seq<seq<Point>>): (r: seq<Point>)
    decreases |cs|
  {
    if |cs| == 0 then [] else Flatten(cs[..|cs| - 1]) + cs[|cs| - 1]
  }

  /** Contour ends that rise strictly and stay within the points. */
  predicate WellFormed(points: seq<Point>, ends: seq<nat>)
  {
    (forall k :: 0 < k < |ends| ==> ends[k - 1] < ends[k]) &&
    (forall k :: 0 <= k < |ends| ==> ends[k] < |points|)
  }

  /**
   * For a well-formed outline the contours, short ones included, cover the points up to
   * the last end exactly once and in order: a dropped contour's points are skipped, not
   * handed to the next one.
   */
  lemma {:induction false} PiecesPartition(points: seq<Point>, ends: seq<nat>)
    requires WellFormed(points, ends) && |ends| > 0
    ensures Flatten(Pieces(points, ends)) == points[..ends[|ends| - 1] + 1]
    decreases |ends|
  {
    var n := |ends| - 1;
    var front := ends[..n];
    var pieces := Pieces(points, ends);
    assert pieces[..n] == Pieces(points, front);
    PiecesAt(points, ends, n);
    assert pieces[n] == points[StartOf(ends, n)..ends[n] + 1];
    if n == 0 {
      assert Flatten(pieces) == Flatten(pieces[..0]) + pieces[0];
    } else {
      PiecesPartition(points, front);
      assert points[..ends[n] + 1] == points[..ends[n - 1] + 1] + points[ends[n - 1] + 1..ends[n] + 1];
    }
  }

  /** Cutting scaled points is scaling the cut. */
  lemma SliceScaled(points: seq<Point>, lo: nat, hi: nat, scale: real)
    ensures Slice(Scaled(points, scale), lo, hi) == Scaled(Slice(points, lo, hi), scale)
  {
    var l := Slice(Scaled(points, scale), lo, hi);
    var r := Scaled(Slice(points, lo, hi), scale);
    forall i | 0 <= i < |l| ensures l[i] == r[i] {
      assert Slice(points, lo, hi)[i] == points[lo + i];
    }
  }

  /** Scaling the points first scales every contour. */
  lemma PiecesScaled(points: seq<Point>, ends: seq<nat>, scale: real, k: nat)
    requires k < |ends|
    ensures Pieces(Scaled(points, scale), ends)[k] == Scaled(Pieces(points, ends)[k], scale)
  {
    PiecesAt(points, ends, k);
    PiecesAt(Scaled(points, scale), ends, k);
    SliceScaled(points, StartOf(ends, k), ends[k] + 1, scale);
  }

  /** `glyph_to_polygons` on the outline of an already loaded glyph. */
  method GlyphToPolygons(outlinePoints: seq<Point>, contours: seq<nat>, scale: real) returns (polys: seq<seq<Point>>)
    ensures polys == Polygons(Scaled(outlinePoints, scale), contours)
  {
    var points := Scaled(outlinePoints, scale);
    polys := [];
    var start: nat := 0;
    for i := 0 to |contours|
      invariant start == StartOf(contours, i)
      invariant polys == Filter(Pieces(points, contours[..i]), Drawn)
    {
      var end := contours[i];
      var contour := Slice(points, start, end + 1);
      assert contours[..i + 1][..i] == contours[..i];
      assert Pieces(points, contours[..i + 1]) == Pieces(points, contours[..i]) + [contour];
      if |contour| >= 3 {
        polys := polys + [contour];
      }
      start := end + 1;
    }
    assert contours[..|contours|] == contours;
  }
}
