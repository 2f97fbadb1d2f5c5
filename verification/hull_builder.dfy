/** The convex hull of a point set by the monotone chain: sort the points by x,
    build a lower chain left to right and an upper chain right to left, drop
    the last point of each chain and join them. */
module HullBuilder {
  import opened Geometry
  import SortByX
  import opened MonotoneChain

  /** The outcome of the hull construction. With no points at all getConvexHull
      fails when it drops the last point of the empty lower chain. */
  datatype HullResult = Hull(vertices: seq<Point>) | EmptyPointSet

  function Reverse(s: seq<Point>): seq<Point>
  {
    seq(|s|, i requires 0 <= i < |s| => s[|s| - 1 - i])
  }

  /** The lower chain, as positions into the sorted points: the scan from the
      leftmost point to the rightmost. */
  function LowerChain(sorted: seq<Point>): (c: seq<nat>)
    ensures InRange(c, |sorted|) && |c| <= |sorted|
    ensures StrictlyIncreasing(c)
    ensures |sorted| > 0 ==> |c| > 0 && c[0] == 0 && c[|c| - 1] == |sorted| - 1
    ensures |sorted| > 1 ==> |c| > 1
    ensures AllLeftTurns(PointsAt(sorted, c))
  {
    Scan(sorted, |sorted|)
  }

  /** The upper chain, as positions into the sorted points: the same scan run
      from the rightmost point back to the leftmost. */
  function UpperChain(sorted: seq<Point>): (c: seq<nat>)
    ensures InRange(c, |sorted|) && |c| <= |sorted|
    ensures StrictlyDecreasing(c)
    ensures |sorted| > 0 ==> |c| > 0 && c[0] == |sorted| - 1 && c[|c| - 1] == 0
    ensures |sorted| > 1 ==> |c| > 1
    ensures AllLeftTurns(PointsAt(sorted, c))
  {
    var back := Reverse(sorted);
    var r := Scan(back, |sorted|);
    MirroredScan(sorted, r);
    Mirror(r, |sorted|)
  }

  /** Positions into the reversed sequence, turned into positions into the
      unreversed one. */
  function Mirror(r: seq<nat>, n: nat): seq<nat>
    requires InRange(r, n)
  {
    seq(|r|, k requires 0 <= k < |r| => n - 1 - r[k])
  }

  /** Mirroring the positions of a scan of the reversed points yields a chain
      over the points themselves with the same points, in decreasing order. */
  lemma MirroredScan(sorted: seq<Point>, r: seq<nat>)
    requires InRange(r, |sorted|) && StrictlyIncreasing(r)
    ensures var c := Mirror(r, |sorted|);
      && InRange(c, |sorted|)
      && StrictlyDecreasing(c)
      && PointsAt(sorted, c) == PointsAt(Reverse(sorted), r)
  {
  }

  /** Each chain without its last point, the lower one first. */
  function Join(lower: seq<Point>, upper: seq<Point>): seq<Point>
    requires |lower| > 0 && |upper| > 0
  {
    lower[..|lower| - 1] + upper[..|upper| - 1]
  }

  /** The hull of points already in scan order. */
  function HullOfSorted(sorted: seq<Point>): seq<Point>
    requires |sorted| > 0
  {
    Join(PointsAt(sorted, LowerChain(sorted)), PointsAt(sorted, UpperChain(sorted)))
  }

  /** When every sorted point is an input point, so is every point of a chain
      over them. */
  lemma ChainPointsAreInputPoints(sorted: seq<Point>, points: seq<Point>, c: seq<nat>)
    requires InRange(c, |sorted|)
    requires forall i :: 0 <= i < |sorted| ==> sorted[i] in points
    ensures forall v :: v in PointsAt(sorted, c) ==> v in points
  {
  }

  /** The hull vertices: the lower chain without its last point followed by the
      upper chain without its last point. */
  function ConvexHull(points: seq<Point>): (r: HullResult)
    ensures r.EmptyPointSet? <==> |points| == 0
    ensures r.Hull? ==>
      var sorted := SortByX.Sort(points);
      |r.vertices| == |LowerChain(sorted)| + |UpperChain(sorted)| - 2
    ensures r.Hull? ==> |r.vertices| <= 2 * |points| - 2
    ensures |points| == 1 ==> r == Hull([])
    ensures |points| > 1 ==> r.Hull? && |r.vertices| >= 2
    ensures r.Hull? ==> forall v :: v in r.vertices ==> v in points
  {
    if |points| == 0 then EmptyPointSet
    else
      var sorted := SortByX.Sort(points);
      var lower := PointsAt(sorted, LowerChain(sorted));
      var upper := PointsAt(sorted, UpperChain(sorted));
      SortByX.SortedPointsAreInputPoints(points);
      ChainPointsAreInputPoints(sorted, points, LowerChain(sorted));
      ChainPointsAreInputPoints(sorted, points, UpperChain(sorted));
      JoinKeepsMembership(lower, upper, points);
      Hull(HullOfSorted(sorted))
  }

  /** Joining drops points and adds none. */
  lemma JoinKeepsMembership(lower: seq<Point>, upper: seq<Point>, points: seq<Point>)
    requires |lower| > 0 && |upper| > 0
    requires forall v :: v in lower ==> v in points
    requires forall v :: v in upper ==> v in points
    ensures forall v :: v in Join(lower, upper) ==> v in points
  {
  }

  /** Along the lower chain x never decreases, along the upper chain it never
      increases: each chain visits the sorted points in scan order. */
  lemma ChainsAreXMonotone(sorted: seq<Point>)
    requires SortByX.SortedByX(sorted)
    ensures var lower := PointsAt(sorted, LowerChain(sorted));
      forall i, j :: 0 <= i < j < |lower| ==> lower[i].x <= lower[j].x
    ensures var upper := PointsAt(sorted, UpperChain(sorted));
      forall i, j :: 0 <= i < j < |upper| ==> upper[i].x >= upper[j].x
  {
  }

  /** Joining two left-turning chains that meet end to end: every triple of the
      joined polygon turns left except the two centred on a meeting point. */
  lemma {:induction false} JoinTurnsLeft(lower: seq<Point>, upper: seq<Point>)
    requires |lower| > 1 && |upper| > 1
    requires AllLeftTurns(lower) && AllLeftTurns(upper)
    requires lower[|lower| - 1] == upper[0]
    ensures var h, a := Join(lower, upper), |lower|;
      && (forall k: nat :: k + 2 < |h| && k != a - 2 ==> TurnsLeftAt(h, k))
      && (|upper| > 2 ==> LeftTurn(h[|h| - 2], h[|h| - 1], upper[|upper| - 1]))
  {
    var h := Join(lower, upper);
    var a, b := |lower|, |upper|;
    forall k: nat | k + 2 < |h| && k != a - 2
      ensures TurnsLeftAt(h, k)
    {
      if k + 2 < a {
        assert TurnsLeftAt(lower, k);
        assert h[k] == lower[k] && h[k + 1] == lower[k + 1];
        if k + 2 < a - 1 {
          assert h[k + 2] == lower[k + 2];
        } else {
          assert h[k + 2] == upper[0];
        }
      } else {
        var j := k - (a - 1);
        assert TurnsLeftAt(upper, j);
        assert h[k] == upper[j] && h[k + 1] == upper[j + 1] && h[k + 2] == upper[j + 2];
      }
    }
    if b > 2 {
      assert TurnsLeftAt(upper, b - 3);
      assert h[|h| - 2] == upper[b - 3] && h[|h| - 1] == upper[b - 2];
    }
  }

  /** The hull polygon starts at the leftmost sorted point, reaches the
      rightmost one right after the lower chain, and every triple of
      consecutive vertices turns strictly left, except the two triples whose
      middle vertex is where the chains meet (the first vertex and the
      rightmost one). */
  lemma HullOfSortedTurnsLeft(sorted: seq<Point>)
    requires |sorted| > 1
    ensures var h, a := HullOfSorted(sorted), |LowerChain(sorted)|;
      && |h| == a + |UpperChain(sorted)| - 2
      && h[0] == sorted[0]
      && h[a - 1] == sorted[|sorted| - 1]
      && (forall k: nat :: k + 2 < |h| && k != a - 2 ==> TurnsLeftAt(h, k))
      && (|UpperChain(sorted)| > 2 ==> LeftTurn(h[|h| - 2], h[|h| - 1], h[0]))
  {
    var lower := PointsAt(sorted, LowerChain(sorted));
    var upper := PointsAt(sorted, UpperChain(sorted));
    var h := Join(lower, upper);
    assert lower[|lower| - 1] == sorted[|sorted| - 1] == upper[0];
    assert upper[|upper| - 1] == sorted[0] == lower[0];
    assert h[0] == lower[0];
    assert h[|lower| - 1] == upper[0];
    JoinTurnsLeft(lower, upper);
  }

  /** The same for the hull of an arbitrary point set of two or more points. */
  lemma HullTurnsLeftAwayFromJoints(points: seq<Point>)
    requires |points| > 1
    ensures var sorted := SortByX.Sort(points);
      var h := ConvexHull(points).vertices;
      var a := |LowerChain(sorted)|;
      && h[0] == sorted[0]
      && h[a - 1] == sorted[|sorted| - 1]
      && (forall k: nat :: k + 2 < |h| && k != a - 2 ==> TurnsLeftAt(h, k))
      && (|UpperChain(sorted)| > 2 ==> LeftTurn(h[|h| - 2], h[|h| - 1], h[0]))
  {
    var sorted := SortByX.Sort(points);
    assert ConvexHull(points) == Hull(HullOfSorted(sorted));
    HullOfSortedTurnsLeft(sorted);
  }

  /** The inner loop of a scan: pop the top of the point stack while its last
      turn towards p is not strictly left. pos are the positions of the
      stack's points in q. */
  method PopLoop(q: seq<Point>, ghost pos: seq<nat>, chain: seq<Point>, p: Point)
    returns (popped: seq<Point>)
    requires InRange(pos, |q|) && chain == PointsAt(q, pos)
    ensures popped == PointsAt(q, PopWhile(q, pos, p))
  {
    popped := chain;
    ghost var rest := pos;
    while |popped| >= 2 && Cross(popped[|popped| - 2], popped[|popped| - 1], p) <= 0.0
      invariant InRange(rest, |q|) && popped == PointsAt(q, rest)
      invariant PopWhile(q, rest, p) == PopWhile(q, pos, p)
      decreases |popped|
    {
      PointsAtPop(q, rest);
      popped := popped[..|popped| - 1];
      rest := rest[..|rest| - 1];
    }
  }

  /** One scan written as the application's loop: for each point, pop the top
      of the point stack while its last turn towards the point is not strictly
      left, then push the point. */
  method ScanLoop(q: seq<Point>) returns (chain: seq<Point>)
    ensures |chain| <= |q|
    ensures |q| > 0 ==> |chain| > 0 && chain[0] == q[0] && chain[|chain| - 1] == q[|q| - 1]
    ensures chain == PointsAt(q, Scan(q, |q|))
  {
    chain := [];
    ghost var pos: seq<nat> := [];
    var i := 0;
    while i < |q|
      invariant i <= |q|
      invariant pos == Scan(q, i)
      invariant chain == PointsAt(q, pos)
    {
      var p := q[i];
      chain := PopLoop(q, pos, chain, p);
      pos := PopWhile(q, pos, p);
      PointsAtPush(q, pos, i);
      chain := chain + [p];
      pos := pos + [i];
      i := i + 1;
    }
  }

  /** The hull construction as the application runs it: sort, scan the sorted
      points forwards for the lower chain and backwards for the upper chain,
      drop each chain's last point and append the upper chain to the lower. */
  method GetConvexHull(points: seq<Point>) returns (r: HullResult)
    ensures r.EmptyPointSet? <==> |points| == 0
    ensures r == ConvexHull(points)
  {
    if |points| == 0 {
      return EmptyPointSet;
    }
    var sorted := SortByX.Sort(points);
    var lower := ScanLoop(sorted);
    var upper := ScanLoop(Reverse(sorted));
    MirroredScan(sorted, Scan(Reverse(sorted), |sorted|));
    assert upper == PointsAt(sorted, UpperChain(sorted));
    assert lower == PointsAt(sorted, LowerChain(sorted));
    lower := lower[..|lower| - 1];
    upper := upper[..|upper| - 1];
    r := Hull(lower + upper);
    assert r.vertices == HullOfSorted(sorted);
  }
}
