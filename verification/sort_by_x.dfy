/** The stable sort of the input points by their x-coordinate alone, which is
    what the hull construction applies before its two scans. The library sort it
    stands for is stable; the model is an insertion sort with the same output. */
module SortByX {
  import opened Geometry

  /** x-coordinates never decrease along s. */
  predicate SortedByX(s: seq<Point>)
  {
    forall i, j :: 0 <= i < j < |s| ==> s[i].x <= s[j].x
  }

  /** The points of s whose x-coordinate is v, in their order in s. */
  function WithX(s: seq<Point>, v: real): seq<Point>
  {
    if |s| == 0 then []
    else (if s[0].x == v then [s[0]] else []) + WithX(s[1..], v)
  }

  /** Places p before the first point of s whose x is not smaller than p's. */
  function Insert(p: Point, s: seq<Point>): (r: seq<Point>)
    ensures |r| == |s| + 1
    ensures multiset(r) == multiset(s) + multiset{p}
  {
    if |s| == 0 || p.x <= s[0].x then
      [p] + s
    else
      assert s == [s[0]] + s[1..];
      [s[0]] + Insert(p, s[1..])
  }

  /** Insertion keeps a sequence sorted by x. */
  lemma {:induction false} InsertKeepsSorted(p: Point, s: seq<Point>)
    requires SortedByX(s)
    ensures SortedByX(Insert(p, s))
  {
    if |s| == 0 || p.x <= s[0].x {
      var r := [p] + s;
      forall i, j | 0 <= i < j < |r|
        ensures r[i].x <= r[j].x
      {
        if i == 0 {
          assert r[j] == s[j - 1];
        } else {
          assert r[i] == s[i - 1] && r[j] == s[j - 1];
        }
      }
    } else {
      var t := Insert(p, s[1..]);
      InsertKeepsSorted(p, s[1..]);
      forall k | 0 <= k < |t|
        ensures s[0].x <= t[k].x
      {
        assert t[k] in multiset(s[1..]) + multiset{p};
        if t[k] != p {
          assert t[k] in s[1..];
        }
      }
      var r := [s[0]] + t;
      forall i, j | 0 <= i < j < |r|
        ensures r[i].x <= r[j].x
      {
        if i > 0 {
          assert r[i] == t[i - 1] && r[j] == t[j - 1];
        }
      }
    }
  }

  /** Inserting p adds p to the points of its own x-coordinate, in front of
      them, and leaves every other x-coordinate's points as they were. */
  lemma {:induction false} InsertWithX(p: Point, s: seq<Point>, v: real)
    ensures WithX(Insert(p, s), v) == (if p.x == v then [p] else []) + WithX(s, v)
  {
    if |s| == 0 || p.x <= s[0].x {
      assert ([p] + s)[1..] == s;
    } else {
      var t := Insert(p, s[1..]);
      var r := [s[0]] + t;
      assert Insert(p, s) == r;
      assert r[0] == s[0] && r[1..] == t;
      InsertWithX(p, s[1..], v);
      assert WithX(t, v) == (if p.x == v then [p] else []) + WithX(s[1..], v);
      if s[0].x == v {
        assert p.x != v;
        assert WithX(r, v) == [s[0]] + WithX(t, v);
        assert WithX(s, v) == [s[0]] + WithX(s[1..], v);
      } else {
        assert WithX(r, v) == WithX(t, v);
        assert WithX(s, v) == WithX(s[1..], v);
      }
    }
  }

  /** The points sorted by x; points with equal x keep their input order. */
  function Sort(s: seq<Point>): (r: seq<Point>)
    ensures |r| == |s|
    ensures SortedByX(r)
    ensures multiset(r) == multiset(s)
    ensures forall v :: WithX(r, v) == WithX(s, v)
  {
    if |s| == 0 then []
    else
      assert s == [s[0]] + s[1..];
      var r := Insert(s[0], Sort(s[1..]));
      InsertKeepsSorted(s[0], Sort(s[1..]));
      assert forall v :: WithX(r, v) == WithX(s, v) by {
        forall v
          ensures WithX(r, v) == WithX(s, v)
        {
          InsertWithX(s[0], Sort(s[1..]), v);
        }
      }
      r
  }

  /** Every point of the sorted sequence is one of the input points. */
  lemma SortedPointsAreInputPoints(s: seq<Point>)
    ensures forall i :: 0 <= i < |s| ==> Sort(s)[i] in s
  {
    var r := Sort(s);
    forall i | 0 <= i < |r|
      ensures r[i] in s
    {
      assert r[i] in multiset(r);
    }
  }

  lemma WithXNonEmpty(s: seq<Point>, v: real)
    requires |WithX(s, v)| > 0
    ensures exists i :: 0 <= i < |s| && s[i].x == v
  {
  }

  lemma WithXOfHead(s: seq<Point>)
    requires |s| > 0
    ensures |WithX(s, s[0].x)| > 0
  {
  }

  /** Any two sequences sorted by x in which every x-coordinate carries the same
      points in the same order are equal: every stable sort by x of a point
      sequence has the output of Sort. */
  lemma {:induction false} StableSortIsUnique(s1: seq<Point>, s2: seq<Point>)
    requires SortedByX(s1) && SortedByX(s2)
    requires forall v :: WithX(s1, v) == WithX(s2, v)
    ensures s1 == s2
  {
    if |s1| == 0 && |s2| == 0 {
    } else if |s1| == 0 {
      WithXOfHead(s2);
      assert false;
    } else if |s2| == 0 {
      WithXOfHead(s1);
      assert false;
    } else {
      var v1, v2 := s1[0].x, s2[0].x;
      WithXOfHead(s1);
      assert WithX(s1, v1) == WithX(s2, v1);
      WithXNonEmpty(s2, v1);
      WithXOfHead(s2);
      assert WithX(s1, v2) == WithX(s2, v2);
      WithXNonEmpty(s1, v2);
      assert v1 == v2;
      assert WithX(s1, v1) == [s1[0]] + WithX(s1[1..], v1);
      assert WithX(s2, v1) == [s2[0]] + WithX(s2[1..], v1);
      assert s1[0] == WithX(s1, v1)[0] == WithX(s2, v1)[0] == s2[0];
      forall v
        ensures WithX(s1[1..], v) == WithX(s2[1..], v)
      {
        assert WithX(s1, v) == WithX(s2, v);
        if v == v1 {
          assert WithX(s1[1..], v) == WithX(s1, v)[1..];
          assert WithX(s2[1..], v) == WithX(s2, v)[1..];
        } else {
          assert WithX(s1[1..], v) == WithX(s1, v);
          assert WithX(s2[1..], v) == WithX(s2, v);
        }
      }
      StableSortIsUnique(s1[1..], s2[1..]);
      assert s1 == [s1[0]] + s1[1..];
      assert s2 == [s2[0]] + s2[1..];
    }
  }
}
