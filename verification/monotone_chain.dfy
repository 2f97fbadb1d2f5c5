/** One half of Andrew's monotone-chain construction: a left-to-right scan over a
    point sequence that keeps a stack of points and, before pushing each new
    point, pops the top while the last turn towards the new point is not
    strictly left. The stack is kept as positions into the scanned sequence q;
    the point it stands for at position i is q[i]. */
module MonotoneChain {
  import opened Geometry

  /** Every position of c is a valid index below n. */
  predicate InRange(c: seq<nat>, n: nat)
  {
    forall k :: 0 <= k < |c| ==> c[k] < n
  }

  predicate StrictlyIncreasing(c: seq<nat>)
  {
    forall i, j :: 0 <= i < j < |c| ==> c[i] < c[j]
  }

  predicate StrictlyDecreasing(c: seq<nat>)
  {
    forall i, j :: 0 <= i < j < |c| ==> c[i] > c[j]
  }

  /** The points of q at the positions of c, in chain order. */
  function PointsAt(q: seq<Point>, c: seq<nat>): seq<Point>
    requires InRange(c, |q|)
  {
    seq(|c|, k requires 0 <= k < |c| => q[c[k]])
  }

  /** The triple of ps starting at k turns left. */
  predicate TurnsLeftAt(ps: seq<Point>, k: nat)
    requires k + 2 < |ps|
  {
    LeftTurn(ps[k], ps[k + 1], ps[k + 2])
  }

  /** Every consecutive triple of ps turns strictly left. */
  predicate AllLeftTurns(ps: seq<Point>)
  {
    forall k: nat :: k + 2 < |ps| ==> TurnsLeftAt(ps, k)
  }

  /** The pop test of both scans: the stack holds at least two points and the
      turn from its last two points towards p is not strictly left. */
  predicate MustPop(q: seq<Point>, c: seq<nat>, p: Point)
    requires InRange(c, |q|)
  {
    |c| >= 2 && Cross(q[c[|c| - 2]], q[c[|c| - 1]], p) <= 0.0
  }

  /** The inner pop-while loop. Its result is the longest prefix of c at which
      the pop test fails: it only ever removes the top, never the bottom. */
  function PopWhile(q: seq<Point>, c: seq<nat>, p: Point): (r: seq<nat>)
    requires InRange(c, |q|)
    ensures r <= c
    ensures InRange(r, |q|) && !MustPop(q, r, p)
    ensures forall j :: |r| < j <= |c| ==> MustPop(q, c[..j], p)
    ensures |c| > 0 ==> |r| > 0
    decreases |c|
  {
    if MustPop(q, c, p) then
      var r := PopWhile(q, c[..|c| - 1], p);
      assert c[..|c| - 1][..|r|] == c[..|r|];
      assert forall j :: |r| < j < |c| ==> c[..|c| - 1][..j] == c[..j];
      assert c[..|c|] == c;
      r
    else
      assert c[..|c|] == c;
      c
  }

  /** A prefix of a chain whose triples all turn left has the same property. */
  lemma PrefixTurnsLeft(q: seq<Point>, c: seq<nat>, r: seq<nat>)
    requires InRange(c, |q|) && r <= c
    requires AllLeftTurns(PointsAt(q, c))
    ensures AllLeftTurns(PointsAt(q, r))
  {
    var ps, rs := PointsAt(q, c), PointsAt(q, r);
    forall k: nat | k + 2 < |rs|
      ensures TurnsLeftAt(rs, k)
    {
      assert TurnsLeftAt(ps, k);
      assert rs[k] == ps[k] && rs[k + 1] == ps[k + 1] && rs[k + 2] == ps[k + 2];
    }
  }

  /** Popping and then pushing point i keeps every triple a left turn. */
  lemma PushTurnsLeft(q: seq<Point>, c: seq<nat>, i: nat)
    requires InRange(c, |q|) && i < |q|
    requires AllLeftTurns(PointsAt(q, c))
    ensures InRange(PopWhile(q, c, q[i]) + [i], |q|)
    ensures AllLeftTurns(PointsAt(q, PopWhile(q, c, q[i]) + [i]))
  {
    var r := PopWhile(q, c, q[i]);
    var n := r + [i];
    PrefixTurnsLeft(q, c, r);
    var rs, ns := PointsAt(q, r), PointsAt(q, n);
    forall k: nat | k + 2 < |ns|
      ensures TurnsLeftAt(ns, k)
    {
      if k + 2 < |rs| {
        assert TurnsLeftAt(rs, k);
        assert ns[k] == rs[k] && ns[k + 1] == rs[k + 1] && ns[k + 2] == rs[k + 2];
      } else {
        assert ns[k] == q[r[|r| - 2]] && ns[k + 1] == q[r[|r| - 1]] && ns[k + 2] == q[i];
      }
    }
  }

  /** Popping and then pushing a position above all others keeps the
      positions strictly increasing. */
  lemma PushIncreases(c: seq<nat>, r: seq<nat>, i: nat)
    requires r <= c && StrictlyIncreasing(c)
    requires forall k :: 0 <= k < |c| ==> c[k] < i
    ensures StrictlyIncreasing(r + [i])
  {
  }

  /** The stack after the first m points of q have been scanned. */
  function Scan(q: seq<Point>, m: nat): (c: seq<nat>)
    requires m <= |q|
    ensures InRange(c, m) && |c| <= m
    ensures StrictlyIncreasing(c)
    ensures m > 0 ==> |c| > 0 && c[0] == 0 && c[|c| - 1] == m - 1
    ensures m > 1 ==> |c| > 1
    ensures AllLeftTurns(PointsAt(q, c))
    decreases m
  {
    if m == 0 then []
    else
      var prev := Scan(q, m - 1);
      var r := PopWhile(q, prev, q[m - 1]);
      PushTurnsLeft(q, prev, m - 1);
      PushIncreases(prev, r, m - 1);
      r + [m - 1]
  }

  /** Popping or pushing on the positions pops or pushes on the points. */
  lemma PointsAtPop(q: seq<Point>, c: seq<nat>)
    requires InRange(c, |q|) && |c| > 0
    ensures PointsAt(q, c[..|c| - 1]) == PointsAt(q, c)[..|c| - 1]
  {
  }

  lemma PointsAtPush(q: seq<Point>, c: seq<nat>, i: nat)
    requires InRange(c, |q|) && i < |q|
    ensures InRange(c + [i], |q|)
    ensures PointsAt(q, c + [i]) == PointsAt(q, c) + [q[i]]
  {
  }
}
