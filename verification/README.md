# Monotone-chain hull and Khachiyan weight step of the ellipse application

This project models the combinatorial core of `EllipseApplication`, a JavaFX
program that draws the convex hull of a set of clicked or sampled points and
the minimum-volume enclosing ellipse of that hull. The model covers:

- the orientation test `cross` and the hull construction `getConvexHull`
  (Andrew's monotone chain): a stable sort of the points by x, a lower chain
  built left to right and an upper chain built right to left, where each scan
  pops the top of its stack while the last turn towards the new point is not
  strictly left, and the join of both chains without their last points;
- the solver's array helpers `getDiagonal` and `getMaxIndex`;
- the weight update of Khachiyan's iteration inside `mvee`: uniform start
  weights, the step-size formula and `new_u = u * (1 - step)` with `step`
  added at the index of the largest leverage value.

Coordinates and weights are exact `real`s, so the cross product and the
weight sums are exact. The modules follow the components of the code:
`Geometry` (points, `cross`), `SortByX` (the library sort), `MonotoneChain`
(one scan with its pop-while loop), `HullBuilder` (the two chains and the
hull, both as functions and as the loops of `getConvexHull`), `SolverHelpers`
(`getDiagonal`, `getMaxIndex`) and `WeightUpdate` (the Khachiyan step).

Modelling choices:

- A chain is kept as the positions, in the scanned sequence, of the points it
  holds. The Java list holds the points themselves; `PointsAt` turns positions
  into those points. With positions, "no input point appears twice in a chain"
  and "a chain is a subsequence of the sorted order" can be stated even when
  two input points are equal.
- The upper chain is the same scan run over the reversed sorted sequence. The
  Java loop reads the sorted list from its end, which visits the same points in
  the same order.
- `List.sort` with `Comparator.comparingDouble(p -> p[0])` is a stable sort on
  x alone. The model is a stable insertion sort. `SortByX.StableSortIsUnique`
  shows that any two sequences that are sorted by x and keep, for each x value,
  the same points in the same order are equal. So every stable sort by x gives
  the model's output.
- Points with equal x are not ordered by y: the code does not break ties on
  y, and neither does the model.
- With no points at all `getConvexHull` throws when it removes the last element
  of the empty lower chain (line 235). The model returns
  `HullResult.EmptyPointSet` in that case. With one point the hull is empty,
  which is the case the caller tests at line 53.
- The code has no degenerate-input check. Two points give a two-vertex hull
  and collinear points give a hull without area. The model does the same.
- The step-size formula divides by `(d + 1) * (max - 1)`. At `max == 1` the
  Java code computes a non-finite double; the model returns `None`.

## Model

| member | source | states |
|---|---|---|
| Geometry.CrossAntisymmetric | src/main/java/org/example/laba_ogkg/EllipseApplication.java:263-265 | swapping the two arms of `cross` negates it, so a left turn one way is never a left turn the other way |
| Geometry.CrossDegenerate | src/main/java/org/example/laba_ogkg/EllipseApplication.java:263-265 | `cross` is zero when either arm has length zero or both arms end at the same point, so repeated points never make a strict left turn |
| SortByX.Sort | src/main/java/org/example/laba_ogkg/EllipseApplication.java:215-216 | the sorted points are a permutation of the input, have nondecreasing x, and for every x value keep the input order of the points with that x (stability) |
| SortByX.InsertWithX | src/main/java/org/example/laba_ogkg/EllipseApplication.java:216 | inserting one point changes only the points of its own x value, where it comes first, which gives stability one insertion at a time |
| SortByX.StableSortIsUnique | src/main/java/org/example/laba_ogkg/EllipseApplication.java:216 | two sequences sorted by x that agree, for each x value, on the points with that x and their order are equal, so the library's stable sort and the model agree |
| SortByX.SortedPointsAreInputPoints | src/main/java/org/example/laba_ogkg/EllipseApplication.java:215-216 | every sorted point is an input point |
| MonotoneChain.PopWhile | src/main/java/org/example/laba_ogkg/EllipseApplication.java:220-222 | the pop-while loop returns the longest prefix of the stack at which the pop test fails: the stack then has fewer than two points or turns strictly left towards the new point, every longer prefix would have been popped, and the bottom point is never removed |
| MonotoneChain.Scan | src/main/java/org/example/laba_ogkg/EllipseApplication.java:219-224 | after the first m points are scanned, the stack holds strictly increasing positions below m, starts at the first point, ends at the m-th, has at least two points when m > 1, and every consecutive triple turns strictly left |
| HullBuilder.LowerChain | src/main/java/org/example/laba_ogkg/EllipseApplication.java:218-224 | the lower chain is a strictly increasing subsequence of the sorted positions from the first sorted point to the last, with at most n points and every consecutive triple turning strictly left |
| HullBuilder.UpperChain | src/main/java/org/example/laba_ogkg/EllipseApplication.java:226-233 | the upper chain is a strictly decreasing subsequence of the sorted positions from the last sorted point to the first, with at most n points and every consecutive triple turning strictly left |
| HullBuilder.ChainsAreXMonotone | src/main/java/org/example/laba_ogkg/EllipseApplication.java:216-233 | x never decreases along the lower chain and never increases along the upper chain |
| HullBuilder.ConvexHull | src/main/java/org/example/laba_ogkg/EllipseApplication.java:214-239 | the hull fails exactly on an empty point set; otherwise it has `|lower| + |upper| - 2` vertices, at most `2n - 2`, none for one point, at least two for two or more points, and every vertex is an input point |
| HullBuilder.JoinTurnsLeft | src/main/java/org/example/laba_ogkg/EllipseApplication.java:235-237 | joining two left-turning chains that meet end to end gives a polygon whose consecutive triples all turn left except the two centred on the meeting points |
| HullBuilder.HullOfSortedTurnsLeft | src/main/java/org/example/laba_ogkg/EllipseApplication.java:218-239 | for two or more sorted points the hull starts at the first sorted point, has the last sorted point at the end of its lower part, and turns strictly left at every vertex except those two |
| HullBuilder.HullTurnsLeftAwayFromJoints | src/main/java/org/example/laba_ogkg/EllipseApplication.java:214-239 | the same left-turn property for the hull of any point set of two or more points |
| HullBuilder.PopLoop | src/main/java/org/example/laba_ogkg/EllipseApplication.java:220-222 | the imperative pop loop on the point list pops exactly what the functional pop-while does |
| HullBuilder.ScanLoop | src/main/java/org/example/laba_ogkg/EllipseApplication.java:219-224 | the imperative scan loop builds exactly the points of the functional chain, which has at most as many points as it scans and runs from the first scanned point to the last |
| HullBuilder.GetConvexHull | src/main/java/org/example/laba_ogkg/EllipseApplication.java:214-239 | the loop version of the hull construction fails exactly on an empty point set and otherwise returns the functional hull |
| SolverHelpers.GetDiagonal | src/main/java/org/example/laba_ogkg/EllipseApplication.java:242-249 | the diagonal has exactly `min(rows, cols)` entries, entry i being `M[i][i]` |
| SolverHelpers.GetMaxIndex | src/main/java/org/example/laba_ogkg/EllipseApplication.java:251-261 | on a non-empty array the result is in bounds, its value is at least every entry, and every earlier entry is strictly smaller, so it is the first maximum |
| WeightUpdate.Uniform | src/main/java/org/example/laba_ogkg/EllipseApplication.java:181 | the start weights `1/N` lie on the probability simplex |
| WeightUpdate.UpdateWeightsEntries | src/main/java/org/example/laba_ogkg/EllipseApplication.java:194-195 | after the update every weight other than `jdx` is `u[k] * (1 - step)` and only the weight at `jdx` also gets `+ step` |
| WeightUpdate.SumAfterUpdate | src/main/java/org/example/laba_ogkg/EllipseApplication.java:194-195 | the updated weights sum to `(1 - step) * sum(u) + step` |
| WeightUpdate.UpdatePreservesUnitSum | src/main/java/org/example/laba_ogkg/EllipseApplication.java:194-197 | weights summing to one still sum to one after the update, for every step |
| WeightUpdate.UpdateStaysOnSimplex | src/main/java/org/example/laba_ogkg/EllipseApplication.java:193-197 | with a step in [0, 1] the update keeps the weights non-negative and summing to one |
| WeightUpdate.StepSize | src/main/java/org/example/laba_ogkg/EllipseApplication.java:193 | the step-size formula is undefined exactly when the largest leverage value is one |
| WeightUpdate.StepSizeInUnitInterval | src/main/java/org/example/laba_ogkg/EllipseApplication.java:193 | in dimension one or more, a largest leverage value of at least `d + 1` gives a step in [0, 1) |
| WeightUpdate.KhachiyanStep | src/main/java/org/example/laba_ogkg/EllipseApplication.java:190-197 | one solver pass: no step exactly when the largest leverage value is one; the returned index is the first largest leverage value; otherwise the new weights are the update at that index with the step computed from that value, they keep their length and a unit sum, and weights on the simplex stay there when some leverage value reaches `d + 1` |

## Left out

- The JavaFX user interface (`start`, mouse and scroll handlers, `clearCanvas`, `clearShapes`, `drawConvexHull`, `enableCanvasDraggingAndScaling`, `main`): rendering and mutable session state, not computation.
- `generatePoints`: Gaussian sampling through a library random generator, which is nondeterministic. The model takes the point set as input.
- The rest of `mvee`: matrix products, the LU inverse, the vector norm behind the error `err`, the loop with `tol` and the 1000-iteration cap, and the final shape matrix and centroid. These are floating-point work inside a numeric library. The leverage values `diagM` and the dimension `d` are inputs of `WeightUpdate.KhachiyanStep`.
- `mvee` recomputes the hull of the hull it is given (line 168). That second call is the same `ConvexHull` and is not modelled separately.
- `drawEllipse`: singular value decomposition, `sqrt` and `atan2` on doubles.
- Double rounding, NaN, infinities and signed zero: every number is an exact real. In particular `Comparator.comparingDouble` orders -0.0 before 0.0, while the model treats them as one x value and keeps their input order, so `SortByX.StableSortIsUnique` matches the library sort only over reals.
- Global hull correctness: that every input point lies inside the hull polygon, and that the two turns at the chain joints are left turns. These are not proved. With repeated x values the code does not promise them, because it sorts by x alone.
- SolverHelpers.GetMaxIndex: requires a non-empty array; on an empty one the application throws at `array[0]` (line 253), an exception the model does not reproduce. Every call passes the diagonal of an N-by-N matrix with N at least two.
- HullBuilder.HullTurnsLeftAwayFromJoints: does not state the left turns at the first vertex and at the rightmost vertex, because nothing in the scans alone guarantees them.
