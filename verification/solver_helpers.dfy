/** The two array helpers the ellipse solver calls on every iteration. */
module SolverHelpers {

  /** A dense matrix of the numeric library, stored row by row. */
  datatype Matrix = Matrix(rows: nat, cols: nat, entries: seq<seq<real>>)

  /** The rectangular shape every library matrix has: rows of length cols. */
  predicate WellFormed(m: Matrix)
  {
    |m.entries| == m.rows && forall i :: 0 <= i < m.rows ==> |m.entries[i]| == m.cols
  }

  function Min(a: nat, b: nat): nat
  {
    if a <= b then a else b
  }

  /** The main diagonal of m, as long as the shorter of its two dimensions. */
  method GetDiagonal(m: Matrix) returns (diag: seq<real>)
    requires WellFormed(m)
    ensures |diag| == Min(m.rows, m.cols)
    ensures forall i :: 0 <= i < |diag| ==> diag[i] == m.entries[i][i]
  {
    var minDim := Min(m.rows, m.cols);
    diag := [];
    var i := 0;
    while i < minDim
      invariant i <= minDim
      invariant |diag| == i
      invariant forall k :: 0 <= k < i ==> diag[k] == m.entries[k][k]
    {
      diag := diag + [m.entries[i][i]];
      i := i + 1;
    }
  }

  /** The position of the first largest entry of a non-empty array: a later
      entry replaces the running maximum only when it is strictly larger. */
  method GetMaxIndex(a: seq<real>) returns (maxIndex: nat)
    requires |a| > 0
    ensures maxIndex < |a|
    ensures forall k :: 0 <= k < |a| ==> a[k] <= a[maxIndex]
    ensures forall k :: 0 <= k < maxIndex ==> a[k] < a[maxIndex]
  {
    maxIndex := 0;
    var maxValue := a[0];
    var i := 1;
    while i < |a|
      invariant 1 <= i <= |a|
      invariant maxIndex < i && maxValue == a[maxIndex]
      invariant forall k :: 0 <= k < i ==> a[k] <= maxValue
      invariant forall k :: 0 <= k < maxIndex ==> a[k] < maxValue
    {
      if a[i] > maxValue {
        maxValue := a[i];
        maxIndex := i;
      }
      i := i + 1;
    }
  }
}
