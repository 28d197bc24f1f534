/** The distance engine of kmeans.go: the (optionally transformed) Euclidean distance,
    the index-to-distance table over the centroids, and the choice of the nearest one.
    Distances are kept SQUARED: the square root is monotone, so it changes no
    comparison the engine makes. */
module Distance {
  import opened Wrappers
  import opened Vectors
  import opened Keys

  /** An optional per-dimension transformer; `None` is a nil Transformer. */
  type Transformer = Option<Value -> real>

  datatype DistanceError = LengthMismatch(pLen: nat, qLen: nat)

  function Square(x: real): real {
    x * x
  }

  /** The sum, over the dimensions, of the squared difference of the coerced values. */
  function SumOfSquares(t: Transformer, ps: seq<Value>, qs: seq<Value>): real
    requires |ps| == |qs|
    decreases |ps|
  {
    if |ps| == 0 then 0.0
    else
      var n := |ps| - 1;
      SumOfSquares(t, ps[..n], qs[..n])
        + Square(QuantifyAsFloat64(t, ps[n]) - QuantifyAsFloat64(t, qs[n]))
  }

  /** Every dimension coerces to the same number on both sides. */
  ghost predicate CoercedEqual(t: Transformer, ps: seq<Value>, qs: seq<Value>)
    requires |ps| == |qs|
  {
    forall i :: 0 <= i < |ps| ==> QuantifyAsFloat64(t, ps[i]) == QuantifyAsFloat64(t, qs[i])
  }

  lemma {:induction false} SumOfSquaresNonNegative(t: Transformer, ps: seq<Value>, qs: seq<Value>)
    requires |ps| == |qs|
    ensures SumOfSquares(t, ps, qs) >= 0.0
    decreases |ps|
  {
    if |ps| > 0 {
      var n := |ps| - 1;
      SumOfSquaresNonNegative(t, ps[..n], qs[..n]);
      var d := QuantifyAsFloat64(t, ps[n]) - QuantifyAsFloat64(t, qs[n]);
      if d != 0.0 {
        SquarePositive(d);
      }
    }
  }

  lemma {:induction false} SumOfSquaresSymmetric(t: Transformer, ps: seq<Value>, qs: seq<Value>)
    requires |ps| == |qs|
    ensures SumOfSquares(t, ps, qs) == SumOfSquares(t, qs, ps)
    decreases |ps|
  {
    if |ps| > 0 {
      var n := |ps| - 1;
      SumOfSquaresSymmetric(t, ps[..n], qs[..n]);
      var a, b := QuantifyAsFloat64(t, ps[n]), QuantifyAsFloat64(t, qs[n]);
      assert Square(a - b) == Square(b - a);
    }
  }

  /** The squared distance is zero exactly when all coerced dimensions agree. */
  lemma {:induction false} SumOfSquaresZeroIff(t: Transformer, ps: seq<Value>, qs: seq<Value>)
    requires |ps| == |qs|
    ensures SumOfSquares(t, ps, qs) == 0.0 <==> CoercedEqual(t, ps, qs)
    decreases |ps|
  {
    if |ps| > 0 {
      var n := |ps| - 1;
      SumOfSquaresZeroIff(t, ps[..n], qs[..n]);
      SumOfSquaresNonNegative(t, ps[..n], qs[..n]);
      var d := QuantifyAsFloat64(t, ps[n]) - QuantifyAsFloat64(t, qs[n]);
      if d != 0.0 {
        SquarePositive(d);
      }
      assert CoercedEqual(t, ps, qs) <==> CoercedEqual(t, ps[..n], qs[..n]) && d == 0.0;
    }
  }

  /** A non-zero difference contributes a positive square. */
  lemma SquarePositive(x: real)
    requires x != 0.0
    ensures Square(x) > 0.0
  {
    var y := if x > 0.0 then x else -x;
    calc {
      Square(x);
      x * x;
      y * y;
    >  { assert y * y > 0.0; }
      0.0;
    }
  }

  /** A vector is at distance zero from itself. */
  lemma SelfDistanceIsZero(t: Transformer, ps: seq<Value>)
    ensures SumOfSquares(t, ps, ps) == 0.0
  {
    SumOfSquaresZeroIff(t, ps, ps);
  }

  /** TransformedEuclideanDistance: a length mismatch is the only error (returned with 0);
      otherwise the result is the accumulated sum of squared differences. */
  method TransformedEuclideanDistance(t: Transformer, p: Vector, q: Vector)
      returns (d: real, err: Option<DistanceError>)
    ensures err.Some? <==> |p.dims| != |q.dims|
    ensures err.Some? ==> d == 0.0 && err.value == LengthMismatch(|p.dims|, |q.dims|)
    ensures err.None? ==> d == SumOfSquares(t, p.dims, q.dims)
  {
    var pLen, qLen := |p.dims|, |q.dims|;
    if pLen != qLen {
      return 0.0, Some(LengthMismatch(pLen, qLen));
    }
    var sqrdD := 0.0;
    for i := 0 to pLen
      invariant sqrdD == SumOfSquares(t, p.dims[..i], q.dims[..i])
    {
      // p.Dimension(i) and q.Dimension(i): within the length they return dims[i]
      var pi := QuantifyAsFloat64(t, p.dims[i]);
      var qi := QuantifyAsFloat64(t, q.dims[i]);
      var pq := pi - qi;
      assert p.dims[..i + 1][..i] == p.dims[..i];
      assert q.dims[..i + 1][..i] == q.dims[..i];
      sqrdD := sqrdD + pq * pq;
    }
    assert p.dims[..pLen] == p.dims && q.dims[..pLen] == q.dims;
    return sqrdD, None;
  }

  /** EuclideanDistance: the same without a transformer. */
  method EuclideanDistance(p: Vector, q: Vector) returns (d: real, err: Option<DistanceError>)
    ensures err.Some? <==> |p.dims| != |q.dims|
    ensures err.Some? ==> d == 0.0 && err.value == LengthMismatch(|p.dims|, |q.dims|)
    ensures err.None? ==> d == SumOfSquares(None, p.dims, q.dims)
  {
    d, err := TransformedEuclideanDistance(None, p, q);
  }

  /** The example in the package documentation, (10.2, 15.6, 25) against
      (23.7, -8.9, 99.4): its square root prints as 79.485 with three decimals. */
  lemma EuclideanDistanceExample()
    ensures SumOfSquares(None, [Float64(10.2), Float64(15.6), Int(25)],
                               [Float64(23.7), Float64(-8.9), Float64(99.4)]) == 6317.86
    ensures 79.4845 * 79.4845 <= 6317.86 < 79.4855 * 79.4855
  {
    var ps, qs := [Float64(10.2), Float64(15.6), Int(25)], [Float64(23.7), Float64(-8.9), Float64(99.4)];
    assert ps[..2] == [Float64(10.2), Float64(15.6)] && qs[..2] == [Float64(23.7), Float64(-8.9)];
    assert ps[..2][..1] == [Float64(10.2)] && qs[..2][..1] == [Float64(23.7)];
    assert ps[..2][..1][..0] == [] && qs[..2][..1][..0] == [];
    assert SumOfSquares(None, ps[..2][..1], qs[..2][..1]) == 182.25;
    assert SumOfSquares(None, ps[..2], qs[..2]) == 782.5;
  }

  /** The custom-vector example: (38, 3, 18) against (32, 1, 14), where age and work
      experience are float32 and the language count is an int; prints as 7.483. */
  lemma CustomVectorExample()
    ensures SumOfSquares(None, [Float32(38.0), Int(3), Float32(18.0)],
                               [Float32(32.0), Int(1), Float32(14.0)]) == 56.0
    ensures 7.4825 * 7.4825 <= 56.0 < 7.4835 * 7.4835
  {
    var ps, qs := [Float32(38.0), Int(3), Float32(18.0)], [Float32(32.0), Int(1), Float32(14.0)];
    assert ps[..2] == [Float32(38.0), Int(3)] && qs[..2] == [Float32(32.0), Int(1)];
    assert ps[..2][..1] == [Float32(38.0)] && qs[..2][..1] == [Float32(32.0)];
    assert ps[..2][..1][..0] == [] && qs[..2][..1][..0] == [];
    assert SumOfSquares(None, ps[..2][..1], qs[..2][..1]) == 36.0;
    assert SumOfSquares(None, ps[..2], qs[..2]) == 40.0;
  }

  /** What `distances` records for one centroid: a length mismatch's error is dropped
      and the 0 returned with it is kept. */
  function StoredDistance(t: Transformer, p: Vector, q: Vector): real {
    if |p.dims| != |q.dims| then 0.0 else SumOfSquares(t, p.dims, q.dims)
  }

  /** The distances from `subject` to each of `others`, by position. */
  function DistanceTable(t: Transformer, subject: Vector, others: seq<Vector>): (s: seq<real>)
    ensures |s| == |others|
    ensures forall j :: 0 <= j < |others| ==> s[j] == StoredDistance(t, subject, others[j])
  {
    seq(|others|, j requires 0 <= j < |others| => StoredDistance(t, subject, others[j]))
  }

  /** distances: nil for no centroids; otherwise a table keyed exactly 0..|others|-1
      whose entry j is the distance to others[j]. */
  method Distances(t: Transformer, subject: Vector, others: seq<Vector>)
      returns (ds: Option<map<int, real>>)
    ensures ds.None? <==> |others| == 0
    ensures ds.Some? ==> forall j :: j in ds.value <==> 0 <= j < |others|
    ensures ds.Some? ==> forall j :: 0 <= j < |others| ==> ds.value[j] == StoredDistance(t, subject, others[j])
  {
    if |others| < 1 {
      return None;
    }
    var table: map<int, real> := map[];
    for i := 0 to |others|
      invariant forall j :: j in table <==> 0 <= j < i
      invariant forall j :: 0 <= j < i ==> table[j] == StoredDistance(t, subject, others[j])
    {
      var d, err := TransformedEuclideanDistance(t, subject, others[i]);
      table := table[i := d];
    }
    return Some(table);
  }

  /** Go's read of a map of distances: a missing key reads as the zero value 0.
      `KMeans.Lookup` is the same zero-value read for member slices. */
  function Read(m: map<int, real>, k: int): real {
    if k in m then m[k] else 0.0
  }

  /** What minDistanceIndex returns when it visits the keys in ascending order: start
      from index 0 with the value read at 0, and move to a key only on a strictly
      smaller value. So the result reads a value no entry undercuts, and a result
      other than 0 is a key that undercuts index 0 and every smaller key. */
  ghost predicate IsScanMinimum(m: map<int, real>, idx: int) {
    && (idx == 0 || idx in m)
    && (forall k :: k in m ==> Read(m, idx) <= m[k])
    && (idx != 0 ==> Read(m, idx) < Read(m, 0) && forall k :: k in m && k < idx ==> m[idx] < m[k])
  }

  /** The result of the scan is determined by the table. */
  lemma ScanMinimumUnique(m: map<int, real>, a: int, b: int)
    requires IsScanMinimum(m, a) && IsScanMinimum(m, b)
    ensures a == b
  {
  }

  /** minDistanceIndex. A nil table reads as an empty one, for which the result is 0. */
  method MinDistanceIndex(ds: Option<map<int, real>>) returns (idx: int)
    ensures IsScanMinimum(ds.GetOr(map[]), idx)
    ensures ds.None? || ds.value == map[] ==> idx == 0
  {
    var table := ds.GetOr(map[]);
    idx := 0;
    var minD := Read(table, idx);
    var todo := table.Keys;
    while todo != {}
      invariant todo <= table.Keys
      invariant forall a, b :: a in table && a !in todo && b in todo ==> a < b
      invariant idx == 0 || (idx in table && idx !in todo)
      invariant minD == Read(table, idx)
      invariant forall k :: k in table && k !in todo ==> minD <= table[k]
      invariant minD <= Read(table, 0)
      invariant idx != 0 ==> minD < Read(table, 0) && forall k :: k in table && k < idx ==> minD < table[k]
      decreases |todo|
    {
      // Least(todo) exists, which shows the choice below can be made.
      ghost var least := Least(todo);
      var key :| key in todo && forall k :: k in todo ==> key <= k;
      var dist := table[key];
      if dist < minD {
        minD, idx := dist, key;
      }
      todo := todo - {key};
    }
  }

  /** `j` is a minimal position of `s`, and no earlier position holds the same value. */
  ghost predicate IsFirstMin(s: seq<real>, j: int) {
    && 0 <= j < |s|
    && (forall i :: 0 <= i < |s| ==> s[j] <= s[i])
    && (forall i :: 0 <= i < j ==> s[j] < s[i])
  }

  /** The first position of the minimum, as a left-to-right scan with `<` finds it. */
  function FirstMinIndex(s: seq<real>): (j: nat)
    requires |s| > 0
    ensures IsFirstMin(s, j)
    decreases |s|
  {
    if |s| == 1 then 0
    else
      var j := FirstMinIndex(s[..|s| - 1]);
      if s[|s| - 1] < s[j] then |s| - 1 else j
  }

  /** On a table keyed 0..|s|-1, the scan returns the first position of the minimum. */
  lemma ScanMinimumOfTable(m: map<int, real>, s: seq<real>, idx: int)
    requires |s| > 0
    requires forall j :: j in m <==> 0 <= j < |s|
    requires forall j :: 0 <= j < |s| ==> m[j] == s[j]
    requires IsScanMinimum(m, idx)
    ensures idx == FirstMinIndex(s)
  {
    var f := FirstMinIndex(s);
    assert f in m;
    assert IsScanMinimum(m, f);
    ScanMinimumUnique(m, idx, f);
  }

  /** The centroid `subject` is assigned to: a position of least distance, the first
      one among equals. */
  function Nearest(subject: Vector, centroids: seq<Vector>): (j: nat)
    requires |centroids| > 0
    ensures j < |centroids|
    ensures forall i :: 0 <= i < |centroids| ==>
      StoredDistance(None, subject, centroids[j]) <= StoredDistance(None, subject, centroids[i])
    ensures forall i :: 0 <= i < j ==>
      StoredDistance(None, subject, centroids[j]) < StoredDistance(None, subject, centroids[i])
  {
    FirstMinIndex(DistanceTable(None, subject, centroids))
  }
}
