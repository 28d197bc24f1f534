/** Cluster equality of kmeans.go: clusters are compared through their signatures, so
    neither the storage order of the map nor that of the member lists matters.

    A Go `Cluster` maps centroid Vectors to slices of member Vectors, keyed by the
    identity of the Vector values. Here every Vector object is named by an integer
    handle and `sig` gives the value of its `Signature()`. */
module ClusterEquality {
  import opened Wrappers
  import opened Keys

  /** A member slice; `None` is a nil slice, `Some([])` an empty non-nil one. */
  type Members = Option<seq<int>>

  /** Centroid handle to the handles of its members. */
  type Cluster = map<int, Members>

  function Elements(v: Members): seq<int> {
    v.GetOr([])
  }

  /** The signatures of the members of a slice. */
  ghost function SignatureSet(v: seq<int>, sig: int -> string): set<string> {
    set x | x in v :: sig(x)
  }

  /** vectorSlicesEqual: a nil slice equals only a nil slice; otherwise the lengths must
      agree and every signature of `vb` must occur among those of `va`. The converse
      containment is NOT checked. */
  ghost predicate SlicesMatch(va: Members, vb: Members, sig: int -> string) {
    if va.None? || vb.None? then va.None? && vb.None?
    else
      && |va.value| == |vb.value|
      && forall j :: 0 <= j < |vb.value| ==> sig(vb.value[j]) in SignatureSet(va.value, sig)
  }

  method VectorSlicesEqual(va: Members, vb: Members, sig: int -> string) returns (eq: bool)
    ensures eq == SlicesMatch(va, vb, sig)
    ensures va.None? || vb.None? ==> (eq <==> va.None? && vb.None?)
    ensures va.Some? && vb.Some? && |va.value| != |vb.value| ==> !eq
  {
    if va.None? || vb.None? {
      return va.None? && vb.None?;
    }
    var a, b := va.value, vb.value;
    if |a| != |b| {
      return false;
    }
    var seen: set<string> := {};
    for i := 0 to |a|
      invariant seen == SignatureSet(a[..i], sig)
    {
      assert a[..i + 1] == a[..i] + [a[i]];
      SignatureSetAppend(a[..i], a[i], sig);
      seen := seen + {sig(a[i])};
    }
    assert a[..|a|] == a;
    for j := 0 to |b|
      invariant forall jj :: 0 <= jj < j ==> sig(b[jj]) in seen
    {
      if sig(b[j]) !in seen {
        return false;
      }
    }
    return true;
  }

  lemma SignatureSetAppend(v: seq<int>, x: int, sig: int -> string)
    ensures SignatureSet(v + [x], sig) == SignatureSet(v, sig) + {sig(x)}
  {
    forall s | s in SignatureSet(v + [x], sig)
      ensures s in SignatureSet(v, sig) + {sig(x)}
    {
      var y :| y in v + [x] && sig(y) == s;
      if y != x {
        assert y in v;
      }
    }
    assert x in v + [x];
    forall y | y in v
      ensures sig(y) in SignatureSet(v + [x], sig)
    {
      assert y in v + [x];
    }
  }

  /** The centroids among `keys` whose signature is `s`. */
  ghost function KeysWith(keys: set<int>, sig: int -> string, s: string): set<int> {
    set k | k in keys && sig(k) == s
  }

  /** The map signatureMap builds after visiting the centroids in `keys`, in ascending
      order: every visit overwrites its signature's entry, so the last (greatest)
      centroid of a signature wins. */
  ghost function View(c: Cluster, keys: set<int>, sig: int -> string): map<string, Members>
    requires keys <= c.Keys
    decreases |keys|
  {
    if keys == {} then map[]
    else
      var m := Greatest(keys);
      View(c, keys - {m}, sig)[sig(m) := c[m]]
  }

  /** signatureMap of a whole cluster. */
  ghost function SignatureView(c: Cluster, sig: int -> string): map<string, Members> {
    View(c, c.Keys, sig)
  }

  /** Leaving out a centroid of another signature does not change who carries `s`. */
  lemma KeysWithOther(keys: set<int>, m: int, sig: int -> string, s: string)
    requires sig(m) != s
    ensures KeysWith(keys, sig, s) == KeysWith(keys - {m}, sig, s)
  {
  }

  /** signatureMap holds exactly the signatures of the visited centroids. */
  lemma {:induction false} ViewKeys(c: Cluster, keys: set<int>, sig: int -> string)
    requires keys <= c.Keys
    ensures forall s :: s in View(c, keys, sig) <==> KeysWith(keys, sig, s) != {}
    decreases |keys|
  {
    if keys != {} {
      var m := Greatest(keys);
      var rest := keys - {m};
      ViewKeys(c, rest, sig);
      forall s
        ensures s in View(c, keys, sig) <==> KeysWith(keys, sig, s) != {}
      {
        if s == sig(m) {
          assert m in KeysWith(keys, sig, s);
        } else {
          KeysWithOther(keys, m, sig, s);
        }
      }
    }
  }

  /** Each signature is mapped to the members of the greatest centroid carrying it. */
  lemma {:induction false} ViewValues(c: Cluster, keys: set<int>, sig: int -> string)
    requires keys <= c.Keys
    ensures forall k :: k in keys ==>
      k in KeysWith(keys, sig, sig(k)) &&
      sig(k) in View(c, keys, sig) &&
      View(c, keys, sig)[sig(k)] == c[Greatest(KeysWith(keys, sig, sig(k)))]
    decreases |keys|
  {
    if keys != {} {
      var m := Greatest(keys);
      var rest := keys - {m};
      ViewValues(c, rest, sig);
      forall k | k in keys
        ensures k in KeysWith(keys, sig, sig(k))
        ensures sig(k) in View(c, keys, sig)
        ensures View(c, keys, sig)[sig(k)] == c[Greatest(KeysWith(keys, sig, sig(k)))]
      {
        if sig(k) == sig(m) {
          var g := Greatest(KeysWith(keys, sig, sig(k)));
          assert m in KeysWith(keys, sig, sig(k));
          assert g == m;
        } else {
          KeysWithOther(keys, m, sig, sig(k));
          assert k in rest;
        }
      }
    }
  }

  /** One visit of signatureMap's loop: the least key not yet visited lies above every
      visited one, so it becomes the greatest. */
  lemma ViewStep(c: Cluster, done: set<int>, k: int, sig: int -> string)
    requires done <= c.Keys && k in c
    requires forall x :: x in done ==> x < k
    ensures View(c, done + {k}, sig) == View(c, done, sig)[sig(k) := c[k]]
  {
    assert Greatest(done + {k}) == k;
    assert (done + {k}) - {k} == done;
  }

  /** The loop state of signatureMap: `done` holds the visited keys, all below the ones
      still `todo`. */
  ghost predicate Visiting(keys: set<int>, todo: set<int>, done: set<int>) {
    && todo <= keys && done == keys - todo
    && forall a, b :: a in done && b in todo ==> a < b
  }

  lemma VisitNext(keys: set<int>, todo: set<int>, done: set<int>, k: int)
    requires Visiting(keys, todo, done)
    requires k in todo && forall x :: x in todo ==> k <= x
    ensures Visiting(keys, todo - {k}, done + {k})
    ensures done <= keys && k in keys && forall x :: x in done ==> x < k
  {
  }

  /** signatureMap, visiting the keys in ascending order. */
  method SignatureMap(c: Cluster, sig: int -> string) returns (signatures: map<string, Members>)
    ensures signatures == SignatureView(c, sig)
  {
    signatures := map[];
    var todo := c.Keys;
    ghost var done: set<int> := {};
    while todo != {}
      invariant Visiting(c.Keys, todo, done)
      invariant signatures == View(c, done, sig)
      decreases |todo|
    {
      // Least(todo) exists, which shows the choice below can be made.
      ghost var least := Least(todo);
      var k :| k in todo && forall x :: x in todo ==> k <= x;
      VisitNext(c.Keys, todo, done, k);
      ViewStep(c, done, k, sig);
      signatures := signatures[sig(k) := c[k]];
      todo := todo - {k};
      done := done + {k};
    }
    assert done == c.Keys;
  }

  /** A centroid whose signature no other centroid carries keys its own members. */
  lemma UniqueSignatureEntry(c: Cluster, sig: int -> string, h: int)
    requires h in c && forall k :: k in c && k != h ==> sig(k) != sig(h)
    ensures sig(h) in SignatureView(c, sig) && SignatureView(c, sig)[sig(h)] == c[h]
  {
    forall k
      ensures k in KeysWith(c.Keys, sig, sig(h)) <==> k == h
    {
    }
    assert KeysWith(c.Keys, sig, sig(h)) == {h};
    ViewValues(c, c.Keys, sig);
  }

  /** ClustersEqual: the same number of centroids, and every centroid signature of `a`
      also one of `b`, with matching member slices. */
  ghost predicate ClustersMatch(a: Cluster, b: Cluster, sig: int -> string) {
    && |a| == |b|
    && var sa, sb := SignatureView(a, sig), SignatureView(b, sig);
       forall s :: s in sa ==> s in sb && SlicesMatch(sa[s], sb[s], sig)
  }

  /** One centroid, keyed by its own signature on both sides, whose member slices do
      not match, makes the clusters unequal. */
  lemma MismatchAt(a: Cluster, b: Cluster, sig: int -> string, h: int)
    requires h in a && forall k :: k in a && k != h ==> sig(k) != sig(h)
    requires h in b && forall k :: k in b && k != h ==> sig(k) != sig(h)
    requires !SlicesMatch(a[h], b[h], sig)
    ensures !ClustersMatch(a, b, sig)
  {
    UniqueSignatureEntry(a, sig, h);
    UniqueSignatureEntry(b, sig, h);
  }

  method ClustersEqual(a: Cluster, b: Cluster, sig: int -> string) returns (eq: bool)
    ensures eq == ClustersMatch(a, b, sig)
    ensures |a| != |b| ==> !eq
  {
    if |a| != |b| {
      return false;
    }
    var sa := SignatureMap(a, sig);
    var sb := SignatureMap(b, sig);
    var todo := sa.Keys;
    while todo != {}
      invariant todo <= sa.Keys
      invariant forall s :: s in sa && s !in todo ==> s in sb && SlicesMatch(sa[s], sb[s], sig)
      decreases |todo|
    {
      var s :| s in todo;
      if s !in sb {
        return false;
      }
      var same := VectorSlicesEqual(sa[s], sb[s], sig);
      if !same {
        return false;
      }
      todo := todo - {s};
    }
    return true;
  }

  lemma SlicesMatchReflexive(v: Members, sig: int -> string)
    ensures SlicesMatch(v, v, sig)
  {
    if v.Some? {
      forall j | 0 <= j < |v.value|
        ensures sig(v.value[j]) in SignatureSet(v.value, sig)
      {
        var y := v.value[j];
        assert y in v.value;
        assert sig(y) in SignatureSet(v.value, sig);
      }
    }
  }

  /** Every cluster equals itself; in particular the empty one. */
  lemma ClustersMatchReflexive(c: Cluster, sig: int -> string)
    ensures ClustersMatch(c, c, sig)
  {
    var sc := SignatureView(c, sig);
    forall s | s in sc
      ensures SlicesMatch(sc[s], sc[s], sig)
    {
      SlicesMatchReflexive(sc[s], sig);
    }
  }

  /** The one-way containment makes slice equality asymmetric when a slice holds
      duplicates: [x, x, y] accepts [x, x, x], but not the other way round. */
  lemma SlicesMatchNotSymmetric(x: int, y: int, sig: int -> string)
    requires sig(x) != sig(y)
    ensures SlicesMatch(Some([x, x, y]), Some([x, x, x]), sig)
    ensures !SlicesMatch(Some([x, x, x]), Some([x, x, y]), sig)
  {
    assert x in [x, x, y];
    assert sig(x) in SignatureSet([x, x, y], sig);
    assert SignatureSet([x, x, x], sig) == {sig(x)};
    assert [x, x, y][2] == y;
  }

  /** A nil slice and an empty non-nil slice are different. */
  lemma NilIsNotEmpty(sig: int -> string)
    ensures !SlicesMatch(None, Some([]), sig) && !SlicesMatch(Some([]), None, sig)
    ensures SlicesMatch(None, None, sig) && SlicesMatch(Some([]), Some([]), sig)
  {
  }

  /** Two slices that are permutations of each other (and equally nil). */
  ghost predicate Permuted(v: Members, w: Members) {
    v.None? == w.None? && multiset(Elements(v)) == multiset(Elements(w))
  }

  /** Every signature of `b` lies in `ss`, stated over the elements of `b`. */
  lemma AllSignaturesIn(b: seq<int>, ss: set<string>, sig: int -> string)
    ensures (forall j :: 0 <= j < |b| ==> sig(b[j]) in ss) <==> (forall y :: y in b ==> sig(y) in ss)
  {
    if forall j :: 0 <= j < |b| ==> sig(b[j]) in ss {
      forall y | y in b
        ensures sig(y) in ss
      {
        var j :| 0 <= j < |b| && b[j] == y;
      }
    }
    if forall y :: y in b ==> sig(y) in ss {
      forall j | 0 <= j < |b|
        ensures sig(b[j]) in ss
      {
        assert b[j] in b;
      }
    }
  }

  /** Reordering the members of either slice does not change the outcome. */
  lemma SlicesMatchPermuted(va: Members, va': Members, vb: Members, vb': Members, sig: int -> string)
    requires Permuted(va, va') && Permuted(vb, vb')
    ensures SlicesMatch(va, vb, sig) == SlicesMatch(va', vb', sig)
  {
    if va.Some? && vb.Some? {
      var a, a', b, b' := va.value, va'.value, vb.value, vb'.value;
      assert |a| == |multiset(a)| == |multiset(a')| == |a'|;
      assert |b| == |multiset(b)| == |multiset(b')| == |b'|;
      forall x
        ensures x in a <==> x in a'
        ensures x in b <==> x in b'
      {
        assert x in a <==> x in multiset(a);
        assert x in a' <==> x in multiset(a');
        assert x in b <==> x in multiset(b);
        assert x in b' <==> x in multiset(b');
      }
      var ss := SignatureSet(a, sig);
      assert ss == SignatureSet(a', sig);
      AllSignaturesIn(b, ss, sig);
      AllSignaturesIn(b', ss, sig);
    }
  }

  /** The same centroids, each with a reordering of the same members. */
  ghost predicate ClusterPermuted(c: Cluster, c': Cluster) {
    c.Keys == c'.Keys && forall k :: k in c ==> Permuted(c[k], c'[k])
  }

  lemma {:induction false} ViewPermuted(c: Cluster, c': Cluster, keys: set<int>, sig: int -> string)
    requires ClusterPermuted(c, c') && keys <= c.Keys
    ensures View(c, keys, sig).Keys == View(c', keys, sig).Keys
    ensures forall s :: s in View(c, keys, sig) ==>
      Permuted(View(c, keys, sig)[s], View(c', keys, sig)[s])
    decreases |keys|
  {
    if keys != {} {
      var m := Greatest(keys);
      ViewPermuted(c, c', keys - {m}, sig);
    }
  }

  /** Reordering member lists on either side does not change cluster equality. */
  lemma ClustersMatchPermuted(a: Cluster, a': Cluster, b: Cluster, b': Cluster, sig: int -> string)
    requires ClusterPermuted(a, a') && ClusterPermuted(b, b')
    ensures ClustersMatch(a, b, sig) == ClustersMatch(a', b', sig)
  {
    ViewPermuted(a, a', a.Keys, sig);
    ViewPermuted(b, b', b.Keys, sig);
    var sa, sa', sb, sb' := SignatureView(a, sig), SignatureView(a', sig), SignatureView(b, sig), SignatureView(b', sig);
    assert |a| == |a.Keys| == |a'.Keys| == |a'|;
    assert |b| == |b.Keys| == |b'.Keys| == |b'|;
    forall s | s in sa && s in sb
      ensures SlicesMatch(sa[s], sb[s], sig) == SlicesMatch(sa'[s], sb'[s], sig)
    {
      SlicesMatchPermuted(sa[s], sa'[s], sb[s], sb'[s], sig);
    }
  }
}
