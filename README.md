# kmeans — a Dafny model of the clustering engine

This project models the core of the Go package `kmeans`:

- the `Vector` abstraction and the built-in `Coordinate` vector (`vector.go`);
- the Euclidean distance between two vectors;
- the assignment of every point to its nearest centroid;
- the comparison of two clusterings (`kmeans.go`).

It proves properties of the model with Dafny.

Modules:

- `Vectors`: the dynamically typed dimension values (`Value`) and their coercion to numbers (`QuantifyAsFloat64`). It also holds the `Coordinate` class, whose `Signature` method memoises its result in a field, and the engine's view of any vector (`Vector`: its dimensions and its signature).
- `Distance`:
  - the squared Euclidean distance and the `distances` table;
  - the scan that `minDistanceIndex` performs over that table;
  - `Nearest`, the first closest centroid, as a reference definition.
- `ClusterEquality`: clusters as maps from centroid handles to member slices; `signatureMap`, `vectorSlicesEqual` and `ClustersEqual`.
- `KMeans`:
  - `KMeanify` and `KMeans`;
  - the assignment pass (the loop at `kmeans.go:90-101`) as a method;
  - the pass as a function `Pass`, with lemmas about what it contains.
- `KMeansFixtures`: concrete clusterings, including the four-centroid clustering test of `kmeans_test.go`.

Modelling choices:

- A Go `Cluster` is keyed by the identity of a `Vector` value. In the model, a vector object is named by an integer handle. In `KMeanify` the handle is the point's position in the input. A member slice is `Option<seq<int>>`, where `None` is a nil slice and `Some([])` is an empty non-nil slice.
- Go map iteration order is unspecified. The model visits keys in ascending order. This fixes two tie-breaks:
  - `signatureMap`: among centroids that share a signature, the greatest handle wins;
  - `minDistanceIndex`: among equally near centroids, the first one wins.
- `KMeanify` never moves its centroids. In the model every pass is therefore the same function `Pass` of the points and the centroids, so the second pass repeats the first. Since `ClustersEqual` is reflexive, the model's loop stops after two passes and returns the first pass. `KMeanify`'s contract states this result.
- Distances are squared and real. On exact reals the square root is strictly increasing on non-negative numbers, so in the model dropping it does not change which centroid is nearest.
- `vectorSlicesEqual` checks only that every signature of the second slice occurs among those of the first. This gives the order-insensitivity the comment at `kmeans.go:152` promises (`SlicesMatchPermuted`), but not symmetry when a slice holds duplicates (`SlicesMatchNotSymmetric`).

## Model

| member | source | states |
|---|---|---|
| Vectors.QuantifyAsFloat64 | vector.go:29-52 | a transformer decides alone; otherwise float64, float32, int64, int and uintptr give their value, and nil and every other kind give 0 |
| Vectors.Coordinate.constructor | vector.go:54-59 | a new coordinate holds the given dimensions and no memoised signature |
| Vectors.Coordinate.Signature | vector.go:77-90 | returns the memo when set; otherwise formats each dimension, joins them with "-", stores and returns that; a consistent memo stays consistent |
| Vectors.NewCoordinate | vector.go:54-59 | the new coordinate's Len is the number of arguments, Dimension(i) returns argument i, and any index from Len on is out of bounds |
| Vectors.Len | vector.go:61-67 | 0 for a nil coordinate, else the number of dimensions |
| Vectors.Dimension | vector.go:92-97 | fails with the out-of-bounds error exactly when i >= Len, else returns dimension i |
| Vectors.AsVector | vector.go:71-75 | the engine's view of a coordinate has Len dimensions, each the one Dimension returns, and the signature Signature computes |
| Vectors.SignatureOfView | vector.go:77-90 | with a consistent memo, Signature returns the signature of the coordinate's engine view and leaves that view unchanged |
| Vectors.SignaturesAgree | vector.go:77-90 | two coordinates with equal dimensions report the same signature, memoised or not, and asking again returns it unchanged |
| Distance.TransformedEuclideanDistance | kmeans.go:15-38 | a length mismatch, and only that, yields the error and 0; otherwise the result is the sum over dimensions of the squared difference of the coerced values |
| Distance.EuclideanDistance | kmeans.go:40-42 | the same with no transformer |
| Distance.SumOfSquaresNonNegative | kmeans.go:26-35 | the accumulated squared distance is never negative |
| Distance.SumOfSquaresSymmetric | kmeans.go:26-35 | the distance from p to q equals the distance from q to p |
| Distance.SumOfSquaresZeroIff | kmeans.go:26-35 | the distance is zero if and only if every dimension coerces to the same number on both sides |
| Distance.SelfDistanceIsZero | kmeans.go:26-35 | a vector is at distance zero from itself |
| Distance.EuclideanDistanceExample | example_test.go:10-23 | the squared distance of (10.2, 15.6, 25) and (23.7, -8.9, 99.4) is 6317.86, whose square root prints as 79.485 |
| Distance.CustomVectorExample | example_test.go:53-75 | the squared distance of the two person vectors is 56, whose square root prints as 7.483 |
| Distance.DistanceTable | kmeans.go:182-194 | one entry per other vector, by position, each the stored distance to it |
| Distance.Distances | kmeans.go:182-194 | nil exactly when there are no other vectors; otherwise the keys are 0..n-1 and key j holds the distance to other j |
| Distance.MinDistanceIndex | kmeans.go:169-180 | the scan from index 0 yields an index whose value nothing undercuts and that strictly undercuts index 0 and every smaller key; 0 for a nil or empty table |
| Distance.ScanMinimumUnique | kmeans.go:169-180 | at most one index satisfies the scan's result condition |
| Distance.FirstMinIndex | kmeans.go:169-180 | the first position holding the minimum of a non-empty sequence |
| Distance.ScanMinimumOfTable | kmeans.go:169-180 | on a table keyed 0..n-1 the scan's result is the first minimal position |
| Distance.Nearest | kmeans.go:96-99 | the chosen centroid is no farther than any other and strictly nearer than every earlier one |
| ClusterEquality.VectorSlicesEqual | kmeans.go:144-167 | nil equals only nil; different lengths are unequal; otherwise equal exactly when every signature of the second slice occurs in the first |
| ClusterEquality.SlicesMatchNotSymmetric | kmeans.go:152-164 | the slice comparison is not symmetric: [x,x,y] against [x,x,x] passes one way and fails the other |
| ClusterEquality.NilIsNotEmpty | kmeans.go:145-147 | a nil slice and an empty non-nil slice are unequal in either order, and each equals itself |
| ClusterEquality.SlicesMatchPermuted | kmeans.go:152-166 | reordering either slice does not change the comparison |
| ClusterEquality.SignatureMap | kmeans.go:114-120 | the result maps each signature to the members of the last visited centroid carrying it |
| ClusterEquality.ViewKeys | kmeans.go:114-120 | a signature is a key of the result exactly when some centroid carries it |
| ClusterEquality.ViewValues | kmeans.go:114-120 | each centroid's signature maps to the members of the greatest centroid sharing that signature |
| ClusterEquality.ViewStep | kmeans.go:116-118 | visiting one more, larger, centroid overwrites its signature's entry and nothing else |
| ClusterEquality.ClustersEqual | kmeans.go:122-142 | equal exactly when the sizes agree and every centroid signature of the first also keys the second with matching member slices; different sizes are unequal |
| ClusterEquality.ClustersMatchReflexive | kmeans.go:122-142 | every cluster equals itself |
| ClusterEquality.ClustersMatchPermuted | kmeans.go:122-166 | reordering member slices in either cluster does not change the comparison |
| ClusterEquality.UniqueSignatureEntry | kmeans.go:114-120 | a centroid whose signature no other centroid carries keys its own member slice in the signature map |
| ClusterEquality.MismatchAt | kmeans.go:130-138 | one uniquely signed centroid present on both sides with member slices that do not match makes the clusters unequal |
| KMeans.Centroids | kmeans.go:75-82 | the seeded centroid list holds, in order, the points at the chosen positions |
| KMeans.NearestHandle | kmeans.go:96-99 | the centroid a point is assigned to is one of the centroids and no farther than any of them |
| KMeans.NearestTable | kmeans.go:96-99 | one nearest centroid per point |
| KMeans.NearestCentroidIndex | kmeans.go:96-99 | the index minDistanceIndex picks from the point's distance table names its first nearest centroid |
| KMeans.ChosenIsNearest | kmeans.go:96-99 | a scan result over the distance table is the index of the first nearest centroid |
| KMeans.AssignPass | kmeans.go:88-101 | the assignment loop builds exactly Pass(points, centroids) |
| KMeans.PassShape | kmeans.go:88-101 | the keys of a pass are exactly the centroids; each holds, as a nil slice when empty, the list of points assigned to it |
| KMeans.PassPartition | kmeans.go:90-101 | a point is a member of a centroid exactly when it is not a centroid itself and that centroid is its nearest one |
| KMeans.PassOrdered | kmeans.go:90-100 | members are listed in increasing input order |
| KMeans.PassMembersNearest | kmeans.go:96-100 | every member is no farther from its centroid than from any other centroid |
| KMeans.AssignedToMembers | kmeans.go:90-100 | the assigned list holds exactly the earlier non-centroid points whose nearest centroid is h |
| KMeans.AssignedToOrdered | kmeans.go:90-100 | the assigned list is strictly increasing and below the number of points visited |
| KMeans.AssignedToCentroid | kmeans.go:96-100 | only a centroid can have points assigned to it |
| KMeans.PassPrefixShape | kmeans.go:90-101 | after n points, the keys are the centroids seen so far plus every centroid with a member, each holding its assigned list |
| KMeans.PassKeyCount | kmeans.go:75-101 | with distinct centroids, a pass has one key per centroid |
| KMeans.FirstPassDiffers | kmeans.go:84-105 | the first pass is non-empty and is never equal to the nil last cluster, so the loop always runs a second pass |
| KMeans.KMeanify | kmeans.go:56-112 | k < 2 fails first; then k >= len(points) fails with k and the count; otherwise the result is one pass over the first k positions of the permutation |
| KMeans.KMeans | kmeans.go:52-54 | KMeanify on the given k and points, with the same three outcomes |
| KMeans.KMeanifyKeyCount | kmeans.go:66-82 | a successful run returns a cluster with exactly k centroids |
| KMeansFixtures.PassExample | kmeans.go:88-101 | points 0, 1, 10 with centroids 0 and 10: point 1 joins centroid 0, and centroid 10 keeps a nil slice |
| KMeansFixtures.SquaredDistance3 | kmeans.go:26-35 | the distance of two three-dimensional integer coordinates is the sum of the three squared differences |
| KMeansFixtures.FixtureNearest3 | kmeans_test.go:44-69 | 156-255-215 is nearest to 230-150-215 |
| KMeansFixtures.FixtureNearest5 | kmeans_test.go:44-69 | 77-0-47 is nearest to 123-10-15 |
| KMeansFixtures.FixtureNearest6 | kmeans_test.go:44-69 | 95-0-15 is nearest to 123-10-15 |
| KMeansFixtures.FixtureNearest7 | kmeans_test.go:44-69 | 89-120-15 is nearest to 123-10-15 |
| KMeansFixtures.FixturePass | kmeans_test.go:44-69 | with centroids at positions 1, 2, 4 and 0, one pass gives the test's expected cluster: two nil slices, [156-255-215] and [77-0-47, 95-0-15, 89-120-15] |
| KMeansFixtures.PersonNearest0 | kmeans_test.go:73-94 | 32-1-14 is nearest to 38-3-18 (56 against 696 and 193) |
| KMeansFixtures.PersonNearest3 | kmeans_test.go:73-94 | 16-1-2 is nearest to 10-5-0 (56 against 744 and 81) |
| KMeansFixtures.PersonNearest4 | kmeans_test.go:73-94 | 65-2-45 is nearest to 38-3-18 |
| KMeansFixtures.PersonNearest6 | kmeans_test.go:73-94 | 63-6-50 is nearest to 38-3-18 |
| KMeansFixtures.PersonNearest7 | kmeans_test.go:73-94 | 23-1-0 is nearest to 25-1-2 (8 against 553 and 185) |
| KMeansFixtures.PersonPass | kmeans_test.go:73-94 | with centroids 38-3-18, 10-5-0 and 25-1-2 the pass is 38-3-18: [32-1-14, 65-2-45, 63-6-50], 10-5-0: [16-1-2], 25-1-2: [23-1-0] |
| KMeansFixtures.PersonExpectationUnmatched | kmeans_test.go:83-94 | that pass is not equal, under ClustersEqual, to the cluster the test expects |

## Left out

- Random seeding: `rand.New(rand.NewSource(seed))`, the `Seed` field and the `time.Now()` fallback are left out. `KMeanify` instead takes `perm`, a permutation of the point positions standing for `Perm(len(points))`; the `KMean` datatype therefore has no seed.
- KMeansFixtures.FixturePass: the generator's output for seed 10 is not reproduced. The lemma states the result for a permutation that starts with 1, 2, 4, 0. With that start the test's expected cluster comes out.
- The second test case (person vectors, k = 3) is modelled only to show that its expected cluster cannot come out of the code; see "## Findings".
- Floating point: distances are exact reals, `math.Sqrt` is dropped, and float32 values are taken at their exact value. Rounding and NaN are not modelled.
- The `%#v` formatting used by `Coordinate.Signature` is a parameter `format`, because Go's formatter is not part of this model.
- KMeans.KMeanify: the result is one pass, which the Go program does not guarantee. The model visits map keys in ascending order; Go randomises that order, and `minDistanceIndex` (`kmeans.go:172-176`) depends on it. For the table {0: 5, 1: 3, 2: 3}, the order 1, 2, 0 gives 1 and the order 2, 0, 1 gives 2. So a point equally far from two centroids other than index 0 can change lists between passes. Then `ClustersEqual` (`kmeans.go:103`) can be false, and the Go loop can run more passes and return an assignment other than `Pass`. Float64 rounding has a related effect: `math.Sqrt` (`kmeans.go:37`) is only non-decreasing on float64. Two squared distances one unit in the last place apart can round to the same root. A strict win in the model then becomes a tie in Go, and the strict `<` at `kmeans.go:173` keeps the index seen first.
- Go map iteration order is fixed to ascending keys. Real Go randomises it, so with two centroids of equal signature but different members, two `signatureMap` calls can pick different winners. Then `ClustersEqual(c, c)` could be false and the Go loop could run further passes. The model does not capture that nondeterminism.
- Vector identity: handles are point positions. A `points` slice that holds the same Vector object twice, and nil Vectors among the points, are not modelled.
- Pointer aliasing: `NewCoordinate` shares the caller's argument slice (`dimens[:]`). Later mutation of that slice through the caller is not modelled; the coordinate holds a value copy.
- `NewCoordinate` always returns a nil error, so the model returns only the coordinate.
- `Coordinate.transformer` is never read by the source and is not modelled.
- Vectors.Coordinate.Signature: on a nil `*Coordinate` Go reads the memo field and panics (`vector.go:78`), while `Len` and `Dimension` handle nil. The Dafny method takes a non-null coordinate, so that panic is not modelled.
- A negative index to `Coordinate.Dimension` panics in Go. The model rules it out with a precondition instead of modelling the panic.
- The `Transformer` interface is an optional function `Option<Value -> real>`.
- Dimension kinds beyond those listed in `Value` (int8, uint64, structs, …) are represented by `Int32`, `Uint`, `Str` and `Bool`, which all coerce to 0 like every other uncovered kind.
- Integer widths: Go's `int` and the `uint64` pass counter are unbounded integers. No realistic input reaches their limits.
- `Cluster.MarshalJSON` and `Coordinate.MarshalJSON` are output formatting only and are not modelled. The command-line program under `cmd/` is not part of this model.

## Findings

| source | as written | input that shows it | evidently intended | confidence | as-written member | corrected member |
|---|---|---|---|---|---|---|
| kmeans_test.go:83-94 | the person test expects 10-5-0 with a nil list and 16-1-2 under 25-1-2 | the points of kmeans_test.go:73-82 with centroids 38-3-18, 10-5-0 and 25-1-2: 16-1-2 is at squared distance 56 from 10-5-0 and 81 from 25-1-2, so it joins 10-5-0 | 10-5-0 holding [16-1-2] and 25-1-2 holding only [23-1-0] | not executed; high | KMeansFixtures.PersonExpectationUnmatched | KMeansFixtures.PersonPass |

`ClustersEqual` requires three keys whose signatures are all keys of the expectation. So the returned cluster must use exactly these three centroids, whatever the seed. The lemmas take them in the order 1, 2, 5. No point is equally far from two of them, so another order gives the same pass; this last step is argued here, not proved.
