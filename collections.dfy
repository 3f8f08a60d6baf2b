/**
 * Sequence and map operations that the JavaScript code uses through `Array.prototype.filter`,
 * `reduce` into an object, Mongo's `$group` (distinct keys) and `sort`.
 */
module Collections {
  import opened Wrappers

  /** `s.filter(p)`: the elements of `s` that satisfy `p`, in their original order. */
  function Filter<T>(s: seq<T>, p: T -> bool): (r: seq<T>)
    ensures |r| <= |s|
    ensures forall i :: 0 <= i < |r| ==> r[i] in s && p(r[i])
    ensures forall i :: 0 <= i < |s| && p(s[i]) ==> s[i] in r
    decreases |s|
  {
    if |s| == 0 then []
    else
      var init, last := s[..|s| - 1], s[|s| - 1];
      assert s == init + [last];
      Filter(init, p) + (if p(last) then [last] else [])
  }

  lemma {:induction false} FilterAppend<T>(a: seq<T>, b: seq<T>, p: T -> bool)
    ensures Filter(a + b, p) == Filter(a, p) + Filter(b, p)
    decreases |b|
  {
    if |b| == 0 {
      assert a + b == a;
    } else {
      var b', last := b[..|b| - 1], b[|b| - 1];
      assert (a + b)[..|a + b| - 1] == a + b';
      FilterAppend(a, b', p);
    }
  }

  /** A one-element sequence keeps its element exactly when it satisfies the predicate. */
  lemma FilterSingleton<T>(x: T, p: T -> bool)
    ensures Filter([x], p) == if p(x) then [x] else []
  {
    assert [x][..0] == [];
  }

  /** Filtering with a predicate every element satisfies keeps the whole sequence. */
  lemma {:induction false} FilterAll<T>(s: seq<T>, p: T -> bool)
    requires forall i :: 0 <= i < |s| ==> p(s[i])
    ensures Filter(s, p) == s
    decreases |s|
  {
    if |s| > 0 {
      var init := s[..|s| - 1];
      assert forall i :: 0 <= i < |init| ==> init[i] == s[i];
      FilterAll(init, p);
      assert s == init + [s[|s| - 1]];
    }
  }

  /** Filtering with a predicate no element satisfies leaves nothing. */
  lemma {:induction false} FilterNone<T>(s: seq<T>, p: T -> bool)
    requires forall i :: 0 <= i < |s| ==> !p(s[i])
    ensures Filter(s, p) == []
    decreases |s|
  {
    if |s| > 0 {
      var init := s[..|s| - 1];
      assert forall i :: 0 <= i < |init| ==> init[i] == s[i];
      FilterNone(init, p);
    }
  }

  /**
   * Two predicates that split every element of `s` one way or the other split `s` itself:
   * the two filtered sequences together hold each element exactly as often as `s` does.
   */
  lemma {:induction false} FilterPartition<T>(s: seq<T>, p: T -> bool, q: T -> bool)
    requires forall i :: 0 <= i < |s| ==> (p(s[i]) <==> !q(s[i]))
    ensures multiset(Filter(s, p)) + multiset(Filter(s, q)) == multiset(s)
    ensures |Filter(s, p)| + |Filter(s, q)| == |s|
    decreases |s|
  {
    if |s| > 0 {
      var init, last := s[..|s| - 1], s[|s| - 1];
      assert s == init + [last];
      assert forall i :: 0 <= i < |init| ==> init[i] == s[i];
      FilterPartition(init, p, q);
    }
  }

  /** Filtering by `p` and then by `q` is filtering once by their conjunction `pq`. */
  lemma {:induction false} FilterCompose<T>(s: seq<T>, p: T -> bool, q: T -> bool, pq: T -> bool)
    requires forall x :: pq(x) == (p(x) && q(x))
    ensures Filter(Filter(s, p), q) == Filter(s, pq)
    decreases |s|
  {
    if |s| > 0 {
      var init, last := s[..|s| - 1], s[|s| - 1];
      FilterCompose(init, p, q, pq);
      FilterAppend(Filter(init, p), if p(last) then [last] else [], q);
      assert Filter([last], q) == (if q(last) then [last] else []) by { assert [last][..0] == []; }
    }
  }

  predicate NoDuplicates<T(==)>(s: seq<T>) {
    forall i, j :: 0 <= i < j < |s| ==> s[i] != s[j]
  }

  /** The distinct elements of `s` in order of first occurrence: the keys of a `$group` stage. */
  function Distinct<T(==)>(s: seq<T>): (r: seq<T>)
    ensures forall i :: 0 <= i < |r| ==> r[i] in s
    ensures forall i :: 0 <= i < |s| ==> s[i] in r
    ensures NoDuplicates(r)
    ensures |r| <= |s|
    decreases |s|
  {
    if |s| == 0 then []
    else
      var init, last := s[..|s| - 1], s[|s| - 1];
      assert s == init + [last];
      var d := Distinct(init);
      if last in d then d else d + [last]
  }

  /**
   * The object built by `pairs.reduce((acc, p) => { acc[p.key] = p.value; return acc }, {})`:
   * later pairs overwrite earlier ones with the same key.
   */
  function ToMap<K(==), V>(pairs: seq<(K, V)>): (m: map<K, V>)
    ensures m.Keys == set i | 0 <= i < |pairs| :: pairs[i].0
    ensures forall i :: 0 <= i < |pairs| && (forall j :: i < j < |pairs| ==> pairs[j].0 != pairs[i].0)
                        ==> m[pairs[i].0] == pairs[i].1
    decreases |pairs|
  {
    if |pairs| == 0 then map[]
    else
      var init, last := pairs[..|pairs| - 1], pairs[|pairs| - 1];
      assert forall i :: 0 <= i < |init| ==> init[i] == pairs[i];
      ToMap(init)[last.0 := last.1]
  }

  /** The keys of a list of pairs, in order. */
  function Firsts<K, V>(pairs: seq<(K, V)>): (r: seq<K>)
    ensures |r| == |pairs| && forall i :: 0 <= i < |pairs| ==> r[i] == pairs[i].0
  {
    seq(|pairs|, i requires 0 <= i < |pairs| => pairs[i].0)
  }

  /** With distinct keys, every pair's value is what the map holds for its key. */
  lemma ToMapDistinct<K, V>(pairs: seq<(K, V)>, i: nat)
    requires NoDuplicates(Firsts(pairs)) && i < |pairs|
    ensures pairs[i].0 in ToMap(pairs) && ToMap(pairs)[pairs[i].0] == pairs[i].1
  {
    var ks := Firsts(pairs);
    forall j | i < j < |pairs| ensures pairs[j].0 != pairs[i].0 {
      assert ks[i] != ks[j];
    }
  }

  /** The `reduce` loop itself: assigns each pair's value to its key, front to back. */
  method AssignAll<K(==), V>(pairs: seq<(K, V)>) returns (acc: map<K, V>)
    ensures acc == ToMap(pairs)
  {
    acc := map[];
    var i := 0;
    while i < |pairs|
      invariant 0 <= i <= |pairs|
      invariant acc == ToMap(pairs[..i])
    {
      assert pairs[..i + 1][..i] == pairs[..i];
      acc := acc[pairs[i].0 := pairs[i].1];
      i := i + 1;
    }
    assert pairs[..|pairs|] == pairs;
  }

  predicate SortedDesc<T>(s: seq<T>, key: T -> int) {
    forall i, j :: 0 <= i < j < |s| ==> key(s[i]) >= key(s[j])
  }

  function InsertDesc<T>(x: T, s: seq<T>, key: T -> int): (r: seq<T>)
    requires SortedDesc(s, key)
    ensures SortedDesc(r, key)
    ensures multiset(r) == multiset(s) + multiset{x}
    ensures |r| == |s| + 1
    decreases |s|
  {
    if |s| == 0 then [x]
    else if key(x) >= key(s[0]) then [x] + s
    else
      var rest := InsertDesc(x, s[1..], key);
      assert s == [s[0]] + s[1..];
      assert multiset(rest) == multiset(s[1..] + [x]);
      HeadBoundsRest(x, s, key);
      BoundedByPermutation(rest, s[1..] + [x], key, key(s[0]));
      SortedCons(s[0], rest, key);
      [s[0]] + rest
  }

  /** Below the head of a descending sequence lie its tail and any smaller element. */
  lemma HeadBoundsRest<T>(x: T, s: seq<T>, key: T -> int)
    requires SortedDesc(s, key) && |s| > 0 && key(x) < key(s[0])
    ensures forall i :: 0 <= i < |s[1..] + [x]| ==> key((s[1..] + [x])[i]) <= key(s[0])
  {
    forall i | 0 <= i < |s[1..] + [x]| ensures key((s[1..] + [x])[i]) <= key(s[0]) {
      if i < |s| - 1 { assert (s[1..] + [x])[i] == s[i + 1]; }
    }
  }

  /** A head no smaller than every element keeps a descending sequence descending. */
  lemma SortedCons<T>(h: T, s: seq<T>, key: T -> int)
    requires SortedDesc(s, key)
    requires forall i :: 0 <= i < |s| ==> key(s[i]) <= key(h)
    ensures SortedDesc([h] + s, key)
  {
    forall i, j | 0 <= i < j < |[h] + s| ensures key(([h] + s)[i]) >= key(([h] + s)[j]) {
      assert ([h] + s)[j] == s[j - 1];
      if i > 0 { assert ([h] + s)[i] == s[i - 1]; }
    }
  }

  /** A bound on the keys of a sequence holds for every permutation of it. */
  lemma BoundedByPermutation<T>(a: seq<T>, b: seq<T>, key: T -> int, bound: int)
    requires multiset(a) == multiset(b)
    requires forall i :: 0 <= i < |b| ==> key(b[i]) <= bound
    ensures forall i :: 0 <= i < |a| ==> key(a[i]) <= bound
  {
    forall i | 0 <= i < |a| ensures key(a[i]) <= bound {
      assert a[i] in multiset(b);
      var j :| 0 <= j < |b| && b[j] == a[i];
    }
  }

  /** `sort({ key: -1 })`: a permutation of `s` ordered by `key`, largest first. */
  function SortDesc<T>(s: seq<T>, key: T -> int): (r: seq<T>)
    ensures SortedDesc(r, key)
    ensures multiset(r) == multiset(s)
    ensures |r| == |s|
    decreases |s|
  {
    if |s| == 0 then []
    else
      assert s == [s[0]] + s[1..];
      InsertDesc(s[0], SortDesc(s[1..], key), key)
  }

  /** The first index whose element satisfies `p`: a `findById` over a collection. */
  function FirstIndex<T>(s: seq<T>, p: T -> bool): (r: Option<nat>)
    ensures r.Some? ==> r.value < |s| && p(s[r.value]) && forall j :: 0 <= j < r.value ==> !p(s[j])
    ensures r.None? <==> forall j :: 0 <= j < |s| ==> !p(s[j])
    decreases |s|
  {
    if |s| == 0 then None
    else if p(s[0]) then Some(0)
    else
      match FirstIndex(s[1..], p)
      case None => None
      case Some(k) => Some(k + 1)
  }

  /** At most one element satisfies `p`. */
  predicate AtMostOne<T>(s: seq<T>, p: T -> bool) {
    forall i, j :: 0 <= i < j < |s| && p(s[i]) ==> !p(s[j])
  }

  /** Dropping the element at `i` keeps every other element. */
  lemma RemovedKeepsOthers<T>(s: seq<T>, i: nat)
    requires i < |s|
    ensures forall k :: 0 <= k < |s| && k != i ==> s[k] in s[..i] + s[i + 1..]
  {
    var r := s[..i] + s[i + 1..];
    forall k | 0 <= k < |s| && k != i ensures s[k] in r {
      if k < i { assert r[k] == s[k]; } else { assert r[k - 1] == s[k]; }
    }
  }

  /**
   * Removing the one element that satisfies `p` leaves no element satisfying it and keeps
   * every other element, in order.
   */
  lemma RemoveTheOne<T>(s: seq<T>, i: nat, p: T -> bool)
    requires i < |s| && p(s[i]) && AtMostOne(s, p)
    ensures var r := s[..i] + s[i + 1..];
            && |r| == |s| - 1
            && (forall k :: 0 <= k < |r| ==> !p(r[k]))
            && multiset(r) + multiset{s[i]} == multiset(s)
            && r == Filter(s, (x: T) => !p(x))
  {
    var r := s[..i] + s[i + 1..];
    assert s == s[..i] + [s[i]] + s[i + 1..];
    RemovedNoneLeft(s, i, p);
    RemovedIsFilter(s, i, p);
  }

  lemma RemovedNoneLeft<T>(s: seq<T>, i: nat, p: T -> bool)
    requires i < |s| && AtMostOne(s, p) && p(s[i])
    ensures var r := s[..i] + s[i + 1..]; forall k :: 0 <= k < |r| ==> !p(r[k])
  {
    var r := s[..i] + s[i + 1..];
    forall k | 0 <= k < |r| ensures !p(r[k]) {
      if k < i { assert r[k] == s[k]; } else { assert r[k] == s[k + 1]; }
    }
  }

  lemma RemovedIsFilter<T>(s: seq<T>, i: nat, p: T -> bool)
    requires i < |s| && AtMostOne(s, p) && p(s[i])
    ensures s[..i] + s[i + 1..] == Filter(s, (x: T) => !p(x))
  {
    var q := (x: T) => !p(x);
    var a, b := s[..i], s[i + 1..];
    assert s == a + [s[i]] + b;
    forall k | 0 <= k < |a| ensures q(a[k]) {
      assert a[k] == s[k];
    }
    forall k | 0 <= k < |b| ensures q(b[k]) {
      assert b[k] == s[i + 1 + k];
    }
    FilterAll(a, q);
    FilterAll(b, q);
    FilterSkipOne(a, s[i], b, q);
  }

  lemma FilterSkipOne<T>(a: seq<T>, x: T, b: seq<T>, q: T -> bool)
    requires Filter(a, q) == a && Filter(b, q) == b && !q(x)
    ensures Filter(a + [x] + b, q) == a + b
  {
    FilterNone([x], q);
    FilterAppend(a, [x], q);
    assert Filter(a + [x], q) == a;
    FilterAppend(a + [x], b, q);
  }
}
