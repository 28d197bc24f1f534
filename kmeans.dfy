/** The clustering engine of kmeans.go: argument validation, seeding with k distinct
    centroids, and the assignment passes that run until two consecutive clusters are
    equal.

    Points are named by their position in the input, so a cluster maps the position of
    a centroid to the positions of its members. The random permutation the source draws
    is a parameter `perm`. */
module KMeans {
  import opened Wrappers
  import opened Vectors
  import opened Distance
  import opened ClusterEquality

  datatype KMean = KMean(k: int, vectors: seq<Vector>)

  datatype Error =
    | TooFewCentroids                 // "at least 2 centroids are to be picked"
    | TooManyCentroids(k: int, n: nat)  // "k=%d >= len(points)=%d"

  /** `perm` is a permutation of 0 .. n-1, as rand.Perm(n) returns. */
  ghost predicate IsPermutation(perm: seq<int>, n: nat) {
    && |perm| == n
    && (forall i :: 0 <= i < n ==> 0 <= perm[i] < n)
    && (forall i, j :: 0 <= i < j < n ==> perm[i] != perm[j])
  }

  /** At least one centroid, each a position among `n` points. */
  ghost predicate ValidCentroids(n: nat, cents: seq<int>) {
    |cents| > 0 && forall j :: 0 <= j < |cents| ==> 0 <= cents[j] < n
  }

  /** No point is chosen twice. */
  ghost predicate Distinct(cents: seq<int>) {
    forall i, j :: 0 <= i < j < |cents| ==> cents[i] != cents[j]
  }

  /** The centroid vectors, in the order of `cents`. */
  function Centroids(points: seq<Vector>, cents: seq<int>): (cs: seq<Vector>)
    requires ValidCentroids(|points|, cents)
    ensures |cs| == |cents|
    ensures forall j :: 0 <= j < |cents| ==> cs[j] == points[cents[j]]
  {
    seq(|cents|, j requires 0 <= j < |cents| => points[cents[j]])
  }

  /** The centroid a non-centroid point is appended to: the first nearest one. */
  function NearestHandle(points: seq<Vector>, cents: seq<int>, i: int): (h: int)
    requires ValidCentroids(|points|, cents) && 0 <= i < |points|
    ensures h in cents
    ensures forall j :: 0 <= j < |cents| ==>
      StoredDistance(None, points[i], points[h]) <= StoredDistance(None, points[i], points[cents[j]])
  {
    var cs := Centroids(points, cents);
    var j := Nearest(points[i], cs);
    assert cs[j] == points[cents[j]];
    cents[j]
  }

  /** The centroid each point would be appended to, by position. */
  function NearestTable(points: seq<Vector>, cents: seq<int>): (near: seq<int>)
    requires ValidCentroids(|points|, cents)
    ensures |near| == |points|
    ensures forall i :: 0 <= i < |points| ==> near[i] == NearestHandle(points, cents, i) && near[i] in cents
  {
    seq(|points|, i requires 0 <= i < |points| => NearestHandle(points, cents, i))
  }

  /** Every point's entry in `near` is one of the centroids. */
  ghost predicate NearInCents(cents: seq<int>, near: seq<int>) {
    forall i :: 0 <= i < |near| ==> near[i] in cents
  }

  /** Go's read of a cluster: a missing key reads as the zero value, the nil slice
      (as `Distance.Read` does for distances). */
  function Lookup(c: Cluster, h: int): (v: Members)
    ensures h in c ==> v == c[h]
    ensures h !in c ==> v == None
  {
    if h in c then c[h] else None
  }

  /** The cluster after the first `n` points of one assignment pass, where `near[i]` is
      the centroid point `i` is nearest to. A centroid's own position re-inserts it
      with whatever it already holds; any other point is appended to the list of its
      nearest centroid. */
  function PassPrefix(cents: seq<int>, near: seq<int>, n: nat): Cluster
    requires n <= |near|
  {
    if n == 0 then map[]
    else
      var c := PassPrefix(cents, near, n - 1);
      var i := n - 1;
      if i in cents then c[i := Lookup(c, i)]
      else c[near[i] := Some(Elements(Lookup(c, near[i])) + [i])]
  }

  /** One full assignment pass. */
  function Pass(points: seq<Vector>, cents: seq<int>): Cluster
    requires ValidCentroids(|points|, cents)
  {
    PassPrefix(cents, NearestTable(points, cents), |points|)
  }

  /** `i` is a non-centroid point whose nearest centroid is `h`. */
  ghost predicate AssignedPoint(cents: seq<int>, near: seq<int>, h: int, i: int)
    requires 0 <= i < |near|
  {
    i !in cents && near[i] == h
  }

  /** The non-centroid points among the first `n` whose nearest centroid is `h`, in
      input order: an independent description of who ends up in `h`'s list. */
  function AssignedTo(cents: seq<int>, near: seq<int>, h: int, n: nat): seq<int>
    requires n <= |near|
  {
    if n == 0 then []
    else
      AssignedTo(cents, near, h, n - 1) +
      (if n - 1 !in cents && near[n - 1] == h then [n - 1] else [])
  }

  /** An append-built slice: nil until the first append. */
  function AsMembers(s: seq<int>): (v: Members)
    ensures v.None? <==> s == []
    ensures Elements(v) == s
  {
    if s == [] then None else Some(s)
  }

  /** `h`'s list holds exactly the points assigned to it. */
  lemma AssignedToMembers(cents: seq<int>, near: seq<int>, h: int, n: nat)
    requires n <= |near|
    ensures forall i :: i in AssignedTo(cents, near, h, n) <==>
      0 <= i < n && AssignedPoint(cents, near, h, i)
  {
    forall i
      ensures i in AssignedTo(cents, near, h, n) <==> 0 <= i < n && AssignedPoint(cents, near, h, i)
    {
      AssignedToMember(cents, near, h, n, i);
    }
  }

  lemma {:induction false} AssignedToMember(cents: seq<int>, near: seq<int>, h: int, n: nat, i: int)
    requires n <= |near|
    ensures i in AssignedTo(cents, near, h, n) <==> 0 <= i < n && AssignedPoint(cents, near, h, i)
  {
    if n > 0 {
      AssignedToMember(cents, near, h, n - 1, i);
      var prev := AssignedTo(cents, near, h, n - 1);
      var tail := if n - 1 !in cents && near[n - 1] == h then [n - 1] else [];
      assert i in prev + tail <==> i in prev || i in tail;
    }
  }

  /** Every entry of `s` is below `n`, and the entries increase. */
  ghost predicate IncreasingBelow(s: seq<int>, n: int) {
    && (forall a :: 0 <= a < |s| ==> s[a] < n)
    && (forall a, b :: 0 <= a < b < |s| ==> s[a] < s[b])
  }

  lemma AppendIncreasing(s: seq<int>, n: int)
    requires IncreasingBelow(s, n)
    ensures IncreasingBelow(s + [n], n + 1)
  {
  }

  /** `h`'s list is in input order, hence without repetitions. */
  lemma {:induction false} AssignedToOrdered(cents: seq<int>, near: seq<int>, h: int, n: nat)
    requires n <= |near|
    ensures IncreasingBelow(AssignedTo(cents, near, h, n), n)
  {
    if n > 0 {
      AssignedToOrdered(cents, near, h, n - 1);
      if n - 1 !in cents && near[n - 1] == h {
        AppendIncreasing(AssignedTo(cents, near, h, n - 1), n - 1);
      }
    }
  }

  /** Only centroids receive members. */
  lemma AssignedToCentroid(cents: seq<int>, near: seq<int>, h: int, n: nat)
    requires NearInCents(cents, near) && n <= |near|
    requires AssignedTo(cents, near, h, n) != []
    ensures h in cents
  {
    AssignedToMembers(cents, near, h, n);
    var i := AssignedTo(cents, near, h, n)[0];
    assert i in AssignedTo(cents, near, h, n);
  }

  /** What PassPrefixShape states about one centroid `h`. */
  ghost predicate ShapeAt(cents: seq<int>, near: seq<int>, n: nat, h: int)
    requires n <= |near|
  {
    && (h in PassPrefix(cents, near, n) <==> (h in cents && 0 <= h < n) || AssignedTo(cents, near, h, n) != [])
    && (h in PassPrefix(cents, near, n) ==> PassPrefix(cents, near, n)[h] == AsMembers(AssignedTo(cents, near, h, n)))
  }

  /** One point of the pass keeps ShapeAt for every `h`. */
  lemma ShapeStep(cents: seq<int>, near: seq<int>, n: nat, h: int)
    requires 0 < n <= |near|
    requires ShapeAt(cents, near, n - 1, h)
    ensures ShapeAt(cents, near, n, h)
  {
    var i := n - 1;
    var prev := AssignedTo(cents, near, h, i);
    if i in cents {
      assert AssignedTo(cents, near, h, n) == prev;
    } else if h == near[i] {
      assert AssignedTo(cents, near, h, n) == prev + [i];
    } else {
      assert AssignedTo(cents, near, h, n) == prev;
    }
  }

  lemma {:induction false} ShapeAtAll(cents: seq<int>, near: seq<int>, n: nat, h: int)
    requires n <= |near|
    ensures ShapeAt(cents, near, n, h)
  {
    if n > 0 {
      ShapeAtAll(cents, near, n - 1, h);
      ShapeStep(cents, near, n, h);
    }
  }

  /** After `n` points: the keys are the centroids already visited and those that
      received a member; every list is what AssignedTo describes (nil when empty). */
  lemma PassPrefixShape(cents: seq<int>, near: seq<int>, n: nat)
    requires n <= |near|
    ensures forall h :: h in PassPrefix(cents, near, n) <==>
      (h in cents && 0 <= h < n) || AssignedTo(cents, near, h, n) != []
    ensures forall h :: h in PassPrefix(cents, near, n) ==>
      PassPrefix(cents, near, n)[h] == AsMembers(AssignedTo(cents, near, h, n))
  {
    forall h
      ensures h in PassPrefix(cents, near, n) <==>
        (h in cents && 0 <= h < n) || AssignedTo(cents, near, h, n) != []
      ensures h in PassPrefix(cents, near, n) ==>
        PassPrefix(cents, near, n)[h] == AsMembers(AssignedTo(cents, near, h, n))
    {
      ShapeAtAll(cents, near, n, h);
    }
  }

  /** In a full pass the keys are exactly the centroids, and every centroid's list is
      its assigned points in input order; a centroid nobody is nearest to keeps nil. */
  lemma PassShape(points: seq<Vector>, cents: seq<int>)
    requires ValidCentroids(|points|, cents)
    ensures forall h :: h in Pass(points, cents) <==> h in cents
    ensures forall h :: h in Pass(points, cents) ==>
      Pass(points, cents)[h] == AsMembers(AssignedTo(cents, NearestTable(points, cents), h, |points|))
  {
    var near := NearestTable(points, cents);
    PassPrefixShape(cents, near, |points|);
    forall h | AssignedTo(cents, near, h, |points|) != []
      ensures h in cents
    {
      AssignedToCentroid(cents, near, h, |points|);
    }
    forall h | h in cents
      ensures 0 <= h < |points|
    {
      var j :| 0 <= j < |cents| && cents[j] == h;
    }
  }

  /** The pass partitions the points: a non-centroid point is a member of exactly one
      list, its nearest centroid's; a centroid is a member of none. */
  lemma PassPartition(points: seq<Vector>, cents: seq<int>, i: int, h: int)
    requires ValidCentroids(|points|, cents) && 0 <= i < |points|
    requires h in Pass(points, cents)
    ensures i in Elements(Pass(points, cents)[h]) <==>
      i !in cents && h == NearestHandle(points, cents, i)
  {
    PassShape(points, cents);
    AssignedToMembers(cents, NearestTable(points, cents), h, |points|);
  }

  /** Every list of a pass is in input order, without repetitions. */
  lemma PassOrdered(points: seq<Vector>, cents: seq<int>, h: int)
    requires ValidCentroids(|points|, cents) && h in Pass(points, cents)
    ensures IncreasingBelow(Elements(Pass(points, cents)[h]), |points|)
  {
    PassShape(points, cents);
    AssignedToOrdered(cents, NearestTable(points, cents), h, |points|);
  }

  /** Every member is at least as close to its own centroid as to any other. */
  lemma PassMembersNearest(points: seq<Vector>, cents: seq<int>, h: int, i: int)
    requires ValidCentroids(|points|, cents)
    requires h in Pass(points, cents) && i in Elements(Pass(points, cents)[h])
    ensures 0 <= i < |points| && 0 <= h < |points|
    ensures forall j :: 0 <= j < |cents| ==>
      StoredDistance(None, points[i], points[h]) <= StoredDistance(None, points[i], points[cents[j]])
  {
    PassShape(points, cents);
    AssignedToMembers(cents, NearestTable(points, cents), h, |points|);
  }

  /** The number of keys of a set described by a list without repetitions. */
  lemma {:induction false} DistinctCount(s: set<int>, cents: seq<int>)
    requires Distinct(cents)
    requires forall h :: h in s <==> h in cents
    ensures |s| == |cents|
    decreases |cents|
  {
    if cents != [] {
      var last := cents[|cents| - 1];
      var init := cents[..|cents| - 1];
      assert cents == init + [last];
      forall h
        ensures h in s - {last} <==> h in init
      {
        if h in init {
          var j :| 0 <= j < |init| && init[j] == h;
          assert cents[j] == h;
        }
      }
      DistinctCount(s - {last}, init);
    } else {
      assert forall h :: h !in s;
    }
  }

  /** With distinct centroids a pass has exactly one key per centroid. */
  lemma PassKeyCount(points: seq<Vector>, cents: seq<int>)
    requires ValidCentroids(|points|, cents) && Distinct(cents)
    ensures |Pass(points, cents)| == |cents|
  {
    PassShape(points, cents);
    DistinctCount(Pass(points, cents).Keys, cents);
  }

  /** A centroid's own position re-inserts it with what it holds. */
  lemma CentroidStep(cents: seq<int>, near: seq<int>, n: nat)
    requires 0 < n <= |near| && n - 1 in cents
    ensures PassPrefix(cents, near, n) ==
      PassPrefix(cents, near, n - 1)[n - 1 := Lookup(PassPrefix(cents, near, n - 1), n - 1)]
  {
  }

  /** Any other position is appended to its nearest centroid's list. */
  lemma MemberStep(cents: seq<int>, near: seq<int>, n: nat)
    requires 0 < n <= |near| && n - 1 !in cents
    ensures PassPrefix(cents, near, n) ==
      PassPrefix(cents, near, n - 1)[near[n - 1] := Some(Elements(Lookup(PassPrefix(cents, near, n - 1), near[n - 1])) + [n - 1])]
  {
  }

  /** MemberStep, stated for the pass so far and the chosen centroid. */
  lemma MemberStepAt(cents: seq<int>, near: seq<int>, i: nat, prev: Cluster, closest: int)
    requires i < |near| && i !in cents && closest == near[i]
    requires prev == PassPrefix(cents, near, i)
    ensures PassPrefix(cents, near, i + 1) == prev[closest := Some(Elements(Lookup(prev, closest)) + [i])]
  {
    MemberStep(cents, near, i + 1);
  }

  /** The distance table of point `i` over the centroids, and the position
      minDistanceIndex picks from it: the first nearest centroid. */
  method NearestCentroidIndex(points: seq<Vector>, cents: seq<int>, centroids: seq<Vector>, i: int)
      returns (idx: int)
    requires ValidCentroids(|points|, cents) && 0 <= i < |points|
    requires centroids == Centroids(points, cents)
    ensures 0 <= idx < |cents| && cents[idx] == NearestHandle(points, cents, i)
    ensures idx == Nearest(points[i], centroids)
  {
    var ds := Distances(None, points[i], centroids);
    idx := MinDistanceIndex(ds);
    ChosenIsNearest(points, cents, centroids, i, ds.value, idx);
  }

  /** One assignment pass (the body of KMeanify's outer loop). */
  method AssignPass(points: seq<Vector>, cents: seq<int>, centroids: seq<Vector>, isCentroid: map<int, bool>)
      returns (cur: Cluster)
    requires ValidCentroids(|points|, cents)
    requires centroids == Centroids(points, cents)
    requires forall i :: i in isCentroid <==> i in cents
    ensures cur == Pass(points, cents)
  {
    ghost var near := NearestTable(points, cents);
    cur := map[];
    for i := 0 to |points|
      invariant cur == PassPrefix(cents, near, i)
    {
      if i in isCentroid {
        CentroidStep(cents, near, i + 1);
        cur := cur[i := Lookup(cur, i)];
      } else {
        var idx := NearestCentroidIndex(points, cents, centroids, i);
        var closest := cents[idx];
        MemberStepAt(cents, near, i, cur, closest);
        cur := cur[closest := Some(Elements(Lookup(cur, closest)) + [i])];
      }
    }
  }

  /** The index minDistanceIndex picks from the distance table of point `i` names the
      centroid NearestHandle describes. */
  lemma ChosenIsNearest(points: seq<Vector>, cents: seq<int>, centroids: seq<Vector>, i: int,
                        ds: map<int, real>, idx: int)
    requires ValidCentroids(|points|, cents) && 0 <= i < |points|
    requires centroids == Centroids(points, cents)
    requires forall j :: j in ds <==> 0 <= j < |centroids|
    requires forall j :: 0 <= j < |centroids| ==> ds[j] == StoredDistance(None, points[i], centroids[j])
    requires IsScanMinimum(ds, idx)
    ensures 0 <= idx < |cents| && idx == Nearest(points[i], centroids)
    ensures NearestHandle(points, cents, i) == cents[idx]
  {
    ScanMinimumOfTable(ds, DistanceTable(None, points[i], centroids), idx);
  }

  /** The centroid at position `j` is the first nearest one when it is strictly closer
      than every earlier centroid and no farther than any other. */
  lemma NearestIs(points: seq<Vector>, cents: seq<int>, i: int, j: int)
    requires ValidCentroids(|points|, cents) && 0 <= i < |points| && 0 <= j < |cents|
    requires forall jj :: 0 <= jj < |cents| ==>
      StoredDistance(None, points[i], points[cents[j]]) <= StoredDistance(None, points[i], points[cents[jj]])
    requires forall jj :: 0 <= jj < j ==>
      StoredDistance(None, points[i], points[cents[j]]) < StoredDistance(None, points[i], points[cents[jj]])
    ensures NearestHandle(points, cents, i) == cents[j]
  {
    var cs := Centroids(points, cents);
    var n := Nearest(points[i], cs);
    assert cs[n] == points[cents[n]] && cs[j] == points[cents[j]];
  }

  /** The first pass never equals the initial, empty cluster: it has a key per centroid. */
  lemma FirstPassDiffers(points: seq<Vector>, cents: seq<int>, sig: int -> string)
    requires ValidCentroids(|points|, cents)
    ensures |Pass(points, cents)| > 0
    ensures !ClustersMatch(map[], Pass(points, cents), sig)
  {
    PassShape(points, cents);
    assert cents[0] in Pass(points, cents);
  }

  /** The signature the engine sees for a point. */
  function HandleSignature(points: seq<Vector>, h: int): string {
    if 0 <= h < |points| then points[h].signature else ""
  }

  /** KMeanify: rejects `k < 2` first, then `k >= len(points)`; otherwise takes the first
      `k` entries of the permutation as centroids and repeats assignment passes until a
      pass equals the previous one. The centroids never move, so the second pass
      repeats the first, which is returned. */
  method KMeanify(km: KMean, perm: seq<int>) returns (r: Result<Cluster, Error>)
    requires IsPermutation(perm, |km.vectors|)
    ensures km.k < 2 ==> r == Failure(TooFewCentroids)
    ensures 2 <= km.k && km.k >= |km.vectors| ==> r == Failure(TooManyCentroids(km.k, |km.vectors|))
    ensures 2 <= km.k < |km.vectors| ==> r == Success(Pass(km.vectors, perm[..km.k]))
  {
    var k, points := km.k, km.vectors;
    if k < 2 {
      return Failure(TooFewCentroids);
    }
    if k >= |points| {
      return Failure(TooManyCentroids(k, |points|));
    }
    var centroidIndices := perm[..k];
    var centroidIndicesMap: map<int, bool> := map[];
    var centroids: seq<Vector> := [];
    for j := 0 to k
      invariant |centroids| == j
      invariant forall jj :: 0 <= jj < j ==> centroids[jj] == points[centroidIndices[jj]]
      invariant forall i :: i in centroidIndicesMap <==> i in centroidIndices[..j]
    {
      assert centroidIndices[..j + 1] == centroidIndices[..j] + [centroidIndices[j]];
      centroids := centroids + [points[centroidIndices[j]]];
      centroidIndicesMap := centroidIndicesMap[centroidIndices[j] := true];
    }
    assert centroidIndices[..k] == centroidIndices;
    assert ValidCentroids(|points|, centroidIndices);
    var sig := h => HandleSignature(points, h);

    var lastCluster: Cluster := map[];
    var passes := 0;
    while true
      invariant passes <= 1
      invariant passes == 0 ==> lastCluster == map[]
      invariant passes == 1 ==> lastCluster == Pass(points, centroidIndices)
      decreases 1 - passes
    {
      var curCluster := AssignPass(points, centroidIndices, centroids, centroidIndicesMap);
      FirstPassDiffers(points, centroidIndices, sig);
      ClustersMatchReflexive(curCluster, sig);
      var same := ClustersEqual(lastCluster, curCluster, sig);
      if same {
        break;
      }
      passes := passes + 1;
      lastCluster := curCluster;
    }
    return Success(lastCluster);
  }

  /** KMeans: KMeanify on the given points. */
  method KMeans(k: int, points: seq<Vector>, perm: seq<int>) returns (r: Result<Cluster, Error>)
    requires IsPermutation(perm, |points|)
    ensures k < 2 ==> r == Failure(TooFewCentroids)
    ensures 2 <= k && k >= |points| ==> r == Failure(TooManyCentroids(k, |points|))
    ensures 2 <= k < |points| ==> r == Success(Pass(points, perm[..k]))
  {
    r := KMeanify(KMean(k, points), perm);
  }

  /** The seeded centroids are distinct positions, so the result has exactly k keys. */
  lemma KMeanifyKeyCount(points: seq<Vector>, perm: seq<int>, k: int)
    requires IsPermutation(perm, |points|) && 2 <= k < |points|
    ensures ValidCentroids(|points|, perm[..k])
    ensures |Pass(points, perm[..k])| == k
  {
    PassKeyCount(points, perm[..k]);
  }
}
