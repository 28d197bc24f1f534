/** Concrete clusterings: a small example and the four-centroid clustering test,
    with the centroid positions the random permutation would have to start with. */
module KMeansFixtures {
  import opened Wrappers
  import opened Vectors
  import opened Distance
  import opened ClusterEquality
  import opened KMeans

  /** Three one-dimensional points 0, 1 and 10 with centroids 0 and 10: point 1 joins
      centroid 0, and centroid 10, nearest to nobody, keeps a nil list. */
  lemma PassExample(pts: seq<Vector>, c: seq<int>)
    requires pts == [Vector([Int(0)], "0"), Vector([Int(1)], "1"), Vector([Int(10)], "10")]
    requires c == [0, 2]
    ensures ValidCentroids(|pts|, c)
    ensures Pass(pts, c) == map[0 := Some([1]), 2 := None]
  {
    var near := NearestTable(pts, c);
    assert StoredDistance(None, pts[1], pts[0]) == 1.0;
    assert StoredDistance(None, pts[1], pts[2]) == 81.0;
    NearestIs(pts, c, 1, 0);
    assert near[1] == 0;
    CentroidStep(c, near, 1);
    assert PassPrefix(c, near, 1) == map[0 := None];
    MemberStepAt(c, near, 1, map[0 := None], 0);
    assert Elements(Lookup(map[0 := None], 0)) + [1] == [1];
    CentroidStep(c, near, 3);
  }

  /** The stored distance of two three-dimensional integer coordinates. */
  lemma SquaredDistance3(p: Vector, q: Vector, a0: int, a1: int, a2: int, b0: int, b1: int, b2: int)
    requires p.dims == [Int(a0), Int(a1), Int(a2)] && q.dims == [Int(b0), Int(b1), Int(b2)]
    ensures StoredDistance(None, p, q)
      == ((a0 - b0) * (a0 - b0) + (a1 - b1) * (a1 - b1) + (a2 - b2) * (a2 - b2)) as real
  {
    var ps, qs := p.dims, q.dims;
    assert ps[..2] == [Int(a0), Int(a1)] && qs[..2] == [Int(b0), Int(b1)];
    assert ps[..2][..1] == [Int(a0)] && qs[..2][..1] == [Int(b0)];
    assert ps[..2][..1][..0] == [] && qs[..2][..1][..0] == [];
    assert SumOfSquares(None, ps[..2][..1], qs[..2][..1]) == Square((a0 - b0) as real);
    assert SumOfSquares(None, ps[..2], qs[..2]) == Square((a0 - b0) as real) + Square((a1 - b1) as real);
  }

  /** The points of the four-centroid clustering test. */
  function FixturePoints(): seq<Vector> {
    [
      Vector([Int(23), Int(10), Int(15)], "23-10-15"),
      Vector([Int(255), Int(169), Int(200)], "255-169-200"),
      Vector([Int(230), Int(150), Int(215)], "230-150-215"),
      Vector([Int(156), Int(255), Int(215)], "156-255-215"),
      Vector([Int(123), Int(10), Int(15)], "123-10-15"),
      Vector([Int(77), Int(0), Int(47)], "77-0-47"),
      Vector([Int(95), Int(0), Int(15)], "95-0-15"),
      Vector([Int(89), Int(120), Int(15)], "89-120-15")
    ]
  }

  /** The dimensions of the points of the four-centroid clustering test. */
  ghost predicate FixtureDims(pts: seq<Vector>) {
    |pts| == 8 &&
    pts[0].dims == [Int(23), Int(10), Int(15)] &&
    pts[1].dims == [Int(255), Int(169), Int(200)] &&
    pts[2].dims == [Int(230), Int(150), Int(215)] &&
    pts[3].dims == [Int(156), Int(255), Int(215)] &&
    pts[4].dims == [Int(123), Int(10), Int(15)] &&
    pts[5].dims == [Int(77), Int(0), Int(47)] &&
    pts[6].dims == [Int(95), Int(0), Int(15)] &&
    pts[7].dims == [Int(89), Int(120), Int(15)]
  }

  lemma FixtureHasDims(pts: seq<Vector>)
    requires pts == FixturePoints()
    ensures FixtureDims(pts)
  {
  }

  /** The squared distances from 156-255-215 to the four centroids. */
  lemma FixtureDistances3(pts: seq<Vector>)
    requires FixtureDims(pts)
    ensures StoredDistance(None, pts[3], pts[1]) == 17422.0
    ensures StoredDistance(None, pts[3], pts[2]) == 16501.0
    ensures StoredDistance(None, pts[3], pts[4]) == 101114.0
    ensures StoredDistance(None, pts[3], pts[0]) == 117714.0
  {
    SquaredDistance3(pts[3], pts[1], 156, 255, 215, 255, 169, 200);
    SquaredDistance3(pts[3], pts[2], 156, 255, 215, 230, 150, 215);
    SquaredDistance3(pts[3], pts[4], 156, 255, 215, 123, 10, 15);
    SquaredDistance3(pts[3], pts[0], 156, 255, 215, 23, 10, 15);
  }

  /** 156-255-215 is nearest to the centroid at position 2. */
  lemma FixtureNearest3(pts: seq<Vector>, c: seq<int>)
    requires pts == FixturePoints() && c == [1, 2, 4, 0]
    ensures ValidCentroids(|pts|, c) && NearestHandle(pts, c, 3) == 2
  {
    FixtureHasDims(pts);
    FixtureDistances3(pts);
    NearestIs(pts, c, 3, 1);
  }

  /** The squared distances from 77-0-47 to the four centroids. */
  lemma FixtureDistances5(pts: seq<Vector>)
    requires FixtureDims(pts)
    ensures StoredDistance(None, pts[5], pts[1]) == 83654.0
    ensures StoredDistance(None, pts[5], pts[2]) == 74133.0
    ensures StoredDistance(None, pts[5], pts[4]) == 3240.0
    ensures StoredDistance(None, pts[5], pts[0]) == 4040.0
  {
    SquaredDistance3(pts[5], pts[1], 77, 0, 47, 255, 169, 200);
    SquaredDistance3(pts[5], pts[2], 77, 0, 47, 230, 150, 215);
    SquaredDistance3(pts[5], pts[4], 77, 0, 47, 123, 10, 15);
    SquaredDistance3(pts[5], pts[0], 77, 0, 47, 23, 10, 15);
  }

  /** 77-0-47 is nearest to the centroid at position 4. */
  lemma FixtureNearest5(pts: seq<Vector>, c: seq<int>)
    requires pts == FixturePoints() && c == [1, 2, 4, 0]
    ensures ValidCentroids(|pts|, c) && NearestHandle(pts, c, 5) == 4
  {
    FixtureHasDims(pts);
    FixtureDistances5(pts);
    NearestIs(pts, c, 5, 2);
  }

  /** The squared distances from 95-0-15 to the four centroids. */
  lemma FixtureDistances6(pts: seq<Vector>)
    requires FixtureDims(pts)
    ensures StoredDistance(None, pts[6], pts[1]) == 88386.0
    ensures StoredDistance(None, pts[6], pts[2]) == 80725.0
    ensures StoredDistance(None, pts[6], pts[4]) == 884.0
    ensures StoredDistance(None, pts[6], pts[0]) == 5284.0
  {
    SquaredDistance3(pts[6], pts[1], 95, 0, 15, 255, 169, 200);
    SquaredDistance3(pts[6], pts[2], 95, 0, 15, 230, 150, 215);
    SquaredDistance3(pts[6], pts[4], 95, 0, 15, 123, 10, 15);
    SquaredDistance3(pts[6], pts[0], 95, 0, 15, 23, 10, 15);
  }

  /** 95-0-15 is nearest to the centroid at position 4. */
  lemma FixtureNearest6(pts: seq<Vector>, c: seq<int>)
    requires pts == FixturePoints() && c == [1, 2, 4, 0]
    ensures ValidCentroids(|pts|, c) && NearestHandle(pts, c, 6) == 4
  {
    FixtureHasDims(pts);
    FixtureDistances6(pts);
    NearestIs(pts, c, 6, 2);
  }

  /** The squared distances from 89-120-15 to the four centroids. */
  lemma FixtureDistances7(pts: seq<Vector>)
    requires FixtureDims(pts)
    ensures StoredDistance(None, pts[7], pts[1]) == 64182.0
    ensures StoredDistance(None, pts[7], pts[2]) == 60781.0
    ensures StoredDistance(None, pts[7], pts[4]) == 13256.0
    ensures StoredDistance(None, pts[7], pts[0]) == 16456.0
  {
    SquaredDistance3(pts[7], pts[1], 89, 120, 15, 255, 169, 200);
    SquaredDistance3(pts[7], pts[2], 89, 120, 15, 230, 150, 215);
    SquaredDistance3(pts[7], pts[4], 89, 120, 15, 123, 10, 15);
    SquaredDistance3(pts[7], pts[0], 89, 120, 15, 23, 10, 15);
  }

  /** 89-120-15 is nearest to the centroid at position 4. */
  lemma FixtureNearest7(pts: seq<Vector>, c: seq<int>)
    requires pts == FixturePoints() && c == [1, 2, 4, 0]
    ensures ValidCentroids(|pts|, c) && NearestHandle(pts, c, 7) == 4
  {
    FixtureHasDims(pts);
    FixtureDistances7(pts);
    NearestIs(pts, c, 7, 2);
  }

  /** The nearest table the four-centroid clustering test needs: 156-255-215 goes to
      position 2 and the last three points to position 4. */
  ghost predicate FixtureNear(near: seq<int>) {
    |near| == 8 && near[3] == 2 && near[5] == 4 && near[6] == 4 && near[7] == 4
  }

  /** The first four points of that pass: three centroids and a member of 230-150-215. */
  lemma FixturePrefix4(c: seq<int>, near: seq<int>)
    requires c == [1, 2, 4, 0] && FixtureNear(near)
    ensures PassPrefix(c, near, 4) == map[0 := None, 1 := None, 2 := Some([3])]
  {
    CentroidStep(c, near, 1);
    CentroidStep(c, near, 2);
    CentroidStep(c, near, 3);
    var p3 := map[0 := None, 1 := None, 2 := None];
    assert PassPrefix(c, near, 3) == p3;
    MemberStepAt(c, near, 3, p3, 2);
    assert Elements(Lookup(p3, 2)) + [3] == [3];
  }

  /** The next two points: centroid 123-10-15 and its first member. */
  lemma FixturePrefix6(c: seq<int>, near: seq<int>)
    requires c == [1, 2, 4, 0] && FixtureNear(near)
    ensures PassPrefix(c, near, 6) == map[0 := None, 1 := None, 2 := Some([3]), 4 := Some([5])]
  {
    FixturePrefix4(c, near);
    CentroidStep(c, near, 5);
    var p5 := map[0 := None, 1 := None, 2 := Some([3]), 4 := None];
    assert PassPrefix(c, near, 5) == p5;
    MemberStepAt(c, near, 5, p5, 4);
    assert Elements(Lookup(p5, 4)) + [5] == [5];
  }

  /** The whole pass over a table with those entries. */
  lemma FixturePrefix8(c: seq<int>, near: seq<int>)
    requires c == [1, 2, 4, 0] && FixtureNear(near)
    ensures PassPrefix(c, near, 8) == map[0 := None, 1 := None, 2 := Some([3]), 4 := Some([5, 6, 7])]
  {
    FixturePrefix6(c, near);
    var p6 := map[0 := None, 1 := None, 2 := Some([3]), 4 := Some([5])];
    MemberStepAt(c, near, 6, p6, 4);
    assert Elements(Lookup(p6, 4)) + [6] == [5, 6];
    var p7 := map[0 := None, 1 := None, 2 := Some([3]), 4 := Some([5, 6])];
    assert PassPrefix(c, near, 7) == p7;
    MemberStepAt(c, near, 7, p7, 4);
    assert Elements(Lookup(p7, 4)) + [7] == [5, 6, 7];
  }

  /** The four-centroid clustering test: with centroids 255-169-200, 230-150-215,
      123-10-15 and 23-10-15 (positions 1, 2, 4 and 0), one pass gives that test's
      expected cluster. */
  lemma FixturePass(pts: seq<Vector>, c: seq<int>)
    requires pts == FixturePoints() && c == [1, 2, 4, 0]
    ensures ValidCentroids(|pts|, c)
    ensures Pass(pts, c) == map[0 := None, 1 := None, 2 := Some([3]), 4 := Some([5, 6, 7])]
  {
    FixtureNearest3(pts, c);
    FixtureNearest5(pts, c);
    FixtureNearest6(pts, c);
    FixtureNearest7(pts, c);
    var near := NearestTable(pts, c);
    assert FixtureNear(near);
    FixturePrefix8(c, near);
  }

  /** The stored distance of two person vectors: float32 age, int language count and
      float32 work experience, here all whole numbers. */
  lemma PersonDistance(p: Vector, q: Vector, a0: int, a1: int, a2: int, b0: int, b1: int, b2: int)
    requires p.dims == [Float32(a0 as real), Int(a1), Float32(a2 as real)]
    requires q.dims == [Float32(b0 as real), Int(b1), Float32(b2 as real)]
    ensures StoredDistance(None, p, q)
      == ((a0 - b0) * (a0 - b0) + (a1 - b1) * (a1 - b1) + (a2 - b2) * (a2 - b2)) as real
  {
    var ps, qs := p.dims, q.dims;
    assert ps[..2] == [Float32(a0 as real), Int(a1)] && qs[..2] == [Float32(b0 as real), Int(b1)];
    assert ps[..2][..1] == [Float32(a0 as real)] && qs[..2][..1] == [Float32(b0 as real)];
    assert ps[..2][..1][..0] == [] && qs[..2][..1][..0] == [];
    assert QuantifyAsFloat64(None, ps[0]) - QuantifyAsFloat64(None, qs[0]) == (a0 - b0) as real;
    assert QuantifyAsFloat64(None, ps[1]) - QuantifyAsFloat64(None, qs[1]) == (a1 - b1) as real;
    assert QuantifyAsFloat64(None, ps[2]) - QuantifyAsFloat64(None, qs[2]) == (a2 - b2) as real;
    assert SumOfSquares(None, ps[..2][..1], qs[..2][..1]) == Square((a0 - b0) as real);
    assert SumOfSquares(None, ps[..2], qs[..2]) == Square((a0 - b0) as real) + Square((a1 - b1) as real);
  }

  /** The points of the person clustering test (age, languages, work experience), with
      the signatures their `%f-%d-%f` formatting gives. */
  function PersonPoints(): seq<Vector> {
    [
      Vector([Float32(32.0), Int(1), Float32(14.0)], "32.000000-1-14.000000"),
      Vector([Float32(38.0), Int(3), Float32(18.0)], "38.000000-3-18.000000"),
      Vector([Float32(10.0), Int(5), Float32(0.0)], "10.000000-5-0.000000"),
      Vector([Float32(16.0), Int(1), Float32(2.0)], "16.000000-1-2.000000"),
      Vector([Float32(65.0), Int(2), Float32(45.0)], "65.000000-2-45.000000"),
      Vector([Float32(25.0), Int(1), Float32(2.0)], "25.000000-1-2.000000"),
      Vector([Float32(63.0), Int(6), Float32(50.0)], "63.000000-6-50.000000"),
      Vector([Float32(23.0), Int(1), Float32(0.0)], "23.000000-1-0.000000")
    ]
  }

  /** The dimensions of the person points. */
  ghost predicate PersonDims(pts: seq<Vector>) {
    |pts| == 8 &&
    pts[0].dims == [Float32(32.0), Int(1), Float32(14.0)] &&
    pts[1].dims == [Float32(38.0), Int(3), Float32(18.0)] &&
    pts[2].dims == [Float32(10.0), Int(5), Float32(0.0)] &&
    pts[3].dims == [Float32(16.0), Int(1), Float32(2.0)] &&
    pts[4].dims == [Float32(65.0), Int(2), Float32(45.0)] &&
    pts[5].dims == [Float32(25.0), Int(1), Float32(2.0)] &&
    pts[6].dims == [Float32(63.0), Int(6), Float32(50.0)] &&
    pts[7].dims == [Float32(23.0), Int(1), Float32(0.0)]
  }

  lemma PersonHasDims(pts: seq<Vector>)
    requires pts == PersonPoints()
    ensures PersonDims(pts)
  {
  }

  /** The squared distances from 32.000000-1-14.000000 to the three centroids. */
  lemma PersonDistances0(pts: seq<Vector>)
    requires PersonDims(pts)
    ensures StoredDistance(None, pts[0], pts[1]) == 56.0
    ensures StoredDistance(None, pts[0], pts[2]) == 696.0
    ensures StoredDistance(None, pts[0], pts[5]) == 193.0
  {
    PersonDistance(pts[0], pts[1], 32, 1, 14, 38, 3, 18);
    PersonDistance(pts[0], pts[2], 32, 1, 14, 10, 5, 0);
    PersonDistance(pts[0], pts[5], 32, 1, 14, 25, 1, 2);
  }

  /** 32.000000-1-14.000000 is nearest to the centroid at position 1. */
  lemma PersonNearest0(pts: seq<Vector>, c: seq<int>)
    requires pts == PersonPoints() && c == [1, 2, 5]
    ensures ValidCentroids(|pts|, c) && NearestHandle(pts, c, 0) == 1
  {
    PersonHasDims(pts);
    PersonDistances0(pts);
    NearestIs(pts, c, 0, 0);
  }

  /** The squared distances from 16.000000-1-2.000000 to the three centroids. */
  lemma PersonDistances3(pts: seq<Vector>)
    requires PersonDims(pts)
    ensures StoredDistance(None, pts[3], pts[1]) == 744.0
    ensures StoredDistance(None, pts[3], pts[2]) == 56.0
    ensures StoredDistance(None, pts[3], pts[5]) == 81.0
  {
    PersonDistance(pts[3], pts[1], 16, 1, 2, 38, 3, 18);
    PersonDistance(pts[3], pts[2], 16, 1, 2, 10, 5, 0);
    PersonDistance(pts[3], pts[5], 16, 1, 2, 25, 1, 2);
  }

  /** 16.000000-1-2.000000 is nearest to the centroid at position 2. */
  lemma PersonNearest3(pts: seq<Vector>, c: seq<int>)
    requires pts == PersonPoints() && c == [1, 2, 5]
    ensures ValidCentroids(|pts|, c) && NearestHandle(pts, c, 3) == 2
  {
    PersonHasDims(pts);
    PersonDistances3(pts);
    NearestIs(pts, c, 3, 1);
  }

  /** The squared distances from 65.000000-2-45.000000 to the three centroids. */
  lemma PersonDistances4(pts: seq<Vector>)
    requires PersonDims(pts)
    ensures StoredDistance(None, pts[4], pts[1]) == 1459.0
    ensures StoredDistance(None, pts[4], pts[2]) == 5059.0
    ensures StoredDistance(None, pts[4], pts[5]) == 3450.0
  {
    PersonDistance(pts[4], pts[1], 65, 2, 45, 38, 3, 18);
    PersonDistance(pts[4], pts[2], 65, 2, 45, 10, 5, 0);
    PersonDistance(pts[4], pts[5], 65, 2, 45, 25, 1, 2);
  }

  /** 65.000000-2-45.000000 is nearest to the centroid at position 1. */
  lemma PersonNearest4(pts: seq<Vector>, c: seq<int>)
    requires pts == PersonPoints() && c == [1, 2, 5]
    ensures ValidCentroids(|pts|, c) && NearestHandle(pts, c, 4) == 1
  {
    PersonHasDims(pts);
    PersonDistances4(pts);
    NearestIs(pts, c, 4, 0);
  }

  /** The squared distances from 63.000000-6-50.000000 to the three centroids. */
  lemma PersonDistances6(pts: seq<Vector>)
    requires PersonDims(pts)
    ensures StoredDistance(None, pts[6], pts[1]) == 1658.0
    ensures StoredDistance(None, pts[6], pts[2]) == 5310.0
    ensures StoredDistance(None, pts[6], pts[5]) == 3773.0
  {
    PersonDistance(pts[6], pts[1], 63, 6, 50, 38, 3, 18);
    PersonDistance(pts[6], pts[2], 63, 6, 50, 10, 5, 0);
    PersonDistance(pts[6], pts[5], 63, 6, 50, 25, 1, 2);
  }

  /** 63.000000-6-50.000000 is nearest to the centroid at position 1. */
  lemma PersonNearest6(pts: seq<Vector>, c: seq<int>)
    requires pts == PersonPoints() && c == [1, 2, 5]
    ensures ValidCentroids(|pts|, c) && NearestHandle(pts, c, 6) == 1
  {
    PersonHasDims(pts);
    PersonDistances6(pts);
    NearestIs(pts, c, 6, 0);
  }

  /** The squared distances from 23.000000-1-0.000000 to the three centroids. */
  lemma PersonDistances7(pts: seq<Vector>)
    requires PersonDims(pts)
    ensures StoredDistance(None, pts[7], pts[1]) == 553.0
    ensures StoredDistance(None, pts[7], pts[2]) == 185.0
    ensures StoredDistance(None, pts[7], pts[5]) == 8.0
  {
    PersonDistance(pts[7], pts[1], 23, 1, 0, 38, 3, 18);
    PersonDistance(pts[7], pts[2], 23, 1, 0, 10, 5, 0);
    PersonDistance(pts[7], pts[5], 23, 1, 0, 25, 1, 2);
  }

  /** 23.000000-1-0.000000 is nearest to the centroid at position 5. */
  lemma PersonNearest7(pts: seq<Vector>, c: seq<int>)
    requires pts == PersonPoints() && c == [1, 2, 5]
    ensures ValidCentroids(|pts|, c) && NearestHandle(pts, c, 7) == 5
  {
    PersonHasDims(pts);
    PersonDistances7(pts);
    NearestIs(pts, c, 7, 2);
  }

  /** The nearest table the person clustering test gives with centroids 38-3-18,
      10-5-0 and 25-1-2 (positions 1, 2 and 5). */
  ghost predicate PersonNear(near: seq<int>) {
    |near| == 8 && near[0] == 1 && near[3] == 2 && near[4] == 1 && near[6] == 1 && near[7] == 5
  }

  /** The first four points: a member of 38-3-18, two centroids and a member of 10-5-0. */
  lemma PersonPrefix4(c: seq<int>, near: seq<int>)
    requires c == [1, 2, 5] && PersonNear(near)
    ensures PassPrefix(c, near, 4) == map[1 := Some([0]), 2 := Some([3])]
  {
    MemberStepAt(c, near, 0, map[], 1);
    assert Elements(Lookup(map[], 1)) + [0] == [0];
    var p1: Cluster := map[1 := Some([0])];
    assert PassPrefix(c, near, 1) == p1;
    CentroidStep(c, near, 2);
    CentroidStep(c, near, 3);
    var p3: Cluster := map[1 := Some([0]), 2 := None];
    assert PassPrefix(c, near, 3) == p3;
    MemberStepAt(c, near, 3, p3, 2);
    assert Elements(Lookup(p3, 2)) + [3] == [3];
  }

  /** The next two points: a second member of 38-3-18 and centroid 25-1-2. */
  lemma PersonPrefix6(c: seq<int>, near: seq<int>)
    requires c == [1, 2, 5] && PersonNear(near)
    ensures PassPrefix(c, near, 6) == map[1 := Some([0, 4]), 2 := Some([3]), 5 := None]
  {
    PersonPrefix4(c, near);
    var p4: Cluster := map[1 := Some([0]), 2 := Some([3])];
    MemberStepAt(c, near, 4, p4, 1);
    assert Elements(Lookup(p4, 1)) + [4] == [0, 4];
    assert PassPrefix(c, near, 5) == map[1 := Some([0, 4]), 2 := Some([3])];
    CentroidStep(c, near, 6);
  }

  /** The whole pass over a table with those entries. */
  lemma PersonPrefix8(c: seq<int>, near: seq<int>)
    requires c == [1, 2, 5] && PersonNear(near)
    ensures PassPrefix(c, near, 8) == map[1 := Some([0, 4, 6]), 2 := Some([3]), 5 := Some([7])]
  {
    PersonPrefix6(c, near);
    var p6: Cluster := map[1 := Some([0, 4]), 2 := Some([3]), 5 := None];
    MemberStepAt(c, near, 6, p6, 1);
    assert Elements(Lookup(p6, 1)) + [6] == [0, 4, 6];
    var p7: Cluster := map[1 := Some([0, 4, 6]), 2 := Some([3]), 5 := None];
    assert PassPrefix(c, near, 7) == p7;
    MemberStepAt(c, near, 7, p7, 5);
    assert Elements(Lookup(p7, 5)) + [7] == [7];
  }

  /** The person clustering test's points with centroids 38-3-18, 10-5-0 and 25-1-2:
      16-1-2 joins 10-5-0, and 23-1-0 alone joins 25-1-2. */
  lemma PersonPass(pts: seq<Vector>, c: seq<int>)
    requires pts == PersonPoints() && c == [1, 2, 5]
    ensures ValidCentroids(|pts|, c)
    ensures Pass(pts, c) == map[1 := Some([0, 4, 6]), 2 := Some([3]), 5 := Some([7])]
  {
    PersonNearest0(pts, c);
    PersonNearest3(pts, c);
    PersonNearest4(pts, c);
    PersonNearest6(pts, c);
    PersonNearest7(pts, c);
    var near := NearestTable(pts, c);
    assert PersonNear(near);
    PersonPrefix8(c, near);
  }

  /** The cluster the person clustering test expects, keyed by the positions whose
      signatures its keys carry: 10-5-0 with no members and 16-1-2 under 25-1-2. */
  function PersonExpected(): Cluster {
    map[1 := Some([0, 4, 6]), 2 := None, 5 := Some([7, 3])]
  }

  /** The three centroids' signatures differ. */
  lemma PersonSignaturesDiffer(pts: seq<Vector>)
    requires pts == PersonPoints()
    ensures HandleSignature(pts, 1) != HandleSignature(pts, 2)
    ensures HandleSignature(pts, 5) != HandleSignature(pts, 2)
  {
    assert HandleSignature(pts, 1)[0] != HandleSignature(pts, 2)[0];
    assert HandleSignature(pts, 5)[0] != HandleSignature(pts, 2)[0];
  }

  /** The pass keys [16-1-2] under 10-5-0, the expectation nil, and no other centroid
      shares that signature: the two are unequal. */
  lemma PersonMismatch(a: Cluster, sig: int -> string)
    requires a == map[1 := Some([0, 4, 6]), 2 := Some([3]), 5 := Some([7])]
    requires sig(1) != sig(2) && sig(5) != sig(2)
    ensures !ClustersMatch(a, PersonExpected(), sig)
  {
    MismatchAt(a, PersonExpected(), sig, 2);
  }

  /** With those centroids the pass never equals the test's expectation: 10-5-0 keys
      [16-1-2] in the pass and nil in the expectation. */
  lemma PersonExpectationUnmatched(pts: seq<Vector>, c: seq<int>)
    requires pts == PersonPoints() && c == [1, 2, 5]
    ensures ValidCentroids(|pts|, c)
    ensures !ClustersMatch(Pass(pts, c), PersonExpected(), h => HandleSignature(pts, h))
  {
    PersonPass(pts, c);
    PersonSignaturesDiffer(pts);
    PersonMismatch(Pass(pts, c), h => HandleSignature(pts, h));
  }
}
