/** `Array.prototype.filter` and `Array.prototype.map` over sequences.
    Both are defined by peeling off the LAST element, so that a loop that
    pushes one element at a time can be related to them prefix by prefix. */
module Seqs {

  function Filter<T>(f: T -> bool, s: seq<T>): (r: seq<T>)
    ensures |r| <= |s|
    ensures forall k :: 0 <= k < |r| ==> f(r[k]) && r[k] in s
  {
    if s == [] then []
    else Filter(f, s[..|s| - 1]) + (if f(s[|s| - 1]) then [s[|s| - 1]] else [])
  }

  function Map<A, B>(f: A -> B, s: seq<A>): (r: seq<B>)
    ensures |r| == |s|
    ensures forall k :: 0 <= k < |s| ==> r[k] == f(s[k])
  {
    if s == [] then [] else Map(f, s[..|s| - 1]) + [f(s[|s| - 1])]
  }

  /** Pushing one element onto a prefix extends the filtered prefix by at most that element. */
  lemma FilterSnoc<T>(f: T -> bool, s: seq<T>, x: T)
    ensures Filter(f, s + [x]) == Filter(f, s) + (if f(x) then [x] else [])
  {
    assert (s + [x])[..|s|] == s;
  }

  lemma MapSnoc<A, B>(f: A -> B, s: seq<A>, x: A)
    ensures Map(f, s + [x]) == Map(f, s) + [f(x)]
  {
    assert (s + [x])[..|s|] == s;
  }

  /** Filtering distributes over concatenation: the kept elements stay in
      their original relative order. */
  lemma {:induction false} FilterAppend<T>(f: T -> bool, a: seq<T>, b: seq<T>)
    ensures Filter(f, a + b) == Filter(f, a) + Filter(f, b)
  {
    if b == [] {
      assert a + b == a;
    } else {
      var b' := b[..|b| - 1];
      assert a + b == (a + b') + [b[|b| - 1]];
      FilterSnoc(f, a + b', b[|b| - 1]);
      FilterAppend(f, a, b');
    }
  }

  /** An element is kept iff it occurs in the input and satisfies the predicate. */
  lemma {:induction false} FilterMembership<T>(f: T -> bool, s: seq<T>, x: T)
    ensures x in Filter(f, s) <==> x in s && f(x)
  {
    if s != [] {
      var s' := s[..|s| - 1];
      FilterMembership(f, s', x);
      assert s == s' + [s[|s| - 1]];
    }
  }

  /** When every element satisfies the predicate, filtering changes nothing. */
  lemma {:induction false} FilterAll<T>(f: T -> bool, s: seq<T>)
    requires forall k :: 0 <= k < |s| ==> f(s[k])
    ensures Filter(f, s) == s
  {
    if s != [] {
      FilterAll(f, s[..|s| - 1]);
    }
  }

  /** A predicate and its negation split a sequence into two parts that
      together hold every element exactly once. */
  lemma {:induction false} FilterSplit<T>(f: T -> bool, g: T -> bool, s: seq<T>)
    requires forall k :: 0 <= k < |s| ==> g(s[k]) == !f(s[k])
    ensures multiset(Filter(f, s)) + multiset(Filter(g, s)) == multiset(s)
    ensures |Filter(f, s)| + |Filter(g, s)| == |s|
  {
    FilterSplitMultiset(f, g, s);
    assert |multiset(Filter(f, s)) + multiset(Filter(g, s))| == |multiset(s)|;
  }

  lemma {:induction false} FilterSplitMultiset<T>(f: T -> bool, g: T -> bool, s: seq<T>)
    requires forall k :: 0 <= k < |s| ==> g(s[k]) == !f(s[k])
    ensures multiset(Filter(f, s)) + multiset(Filter(g, s)) == multiset(s)
  {
    if s != [] {
      var s', x := s[..|s| - 1], s[|s| - 1];
      assert forall k :: 0 <= k < |s'| ==> s'[k] == s[k];
      FilterSplitMultiset(f, g, s');
      assert s == s' + [x];
      FilterSplitStep(f, g, s', x);
    }
  }

  /** One more element lands in exactly one of the two parts. */
  lemma FilterSplitStep<T>(f: T -> bool, g: T -> bool, s: seq<T>, x: T)
    requires g(x) == !f(x)
    ensures multiset(Filter(f, s + [x])) + multiset(Filter(g, s + [x]))
            == multiset(Filter(f, s)) + multiset(Filter(g, s)) + multiset{x}
  {
    FilterSnoc(f, s, x);
    FilterSnoc(g, s, x);
    var a, b := Filter(f, s), Filter(g, s);
    if f(x) {
      assert multiset(a + [x]) == multiset(a) + multiset{x};
    } else {
      assert multiset(b + [x]) == multiset(b) + multiset{x};
    }
  }

  /** No two elements of `s` share a key. */
  predicate DistinctBy<T, K(==)>(key: T -> K, s: seq<T>) {
    forall i, j :: 0 <= i < j < |s| ==> key(s[i]) != key(s[j])
  }

  /** Filtering keeps keys distinct. */
  lemma {:induction false} FilterDistinctBy<T, K>(f: T -> bool, key: T -> K, s: seq<T>)
    requires DistinctBy(key, s)
    ensures DistinctBy(key, Filter(f, s))
  {
    if s != [] {
      var s' := s[..|s| - 1];
      var x := s[|s| - 1];
      FilterDistinctBy(f, key, s');
      var r' := Filter(f, s');
      if f(x) {
        var r := Filter(f, s);
        assert r == r' + [x];
        forall i, j | 0 <= i < j < |r|
          ensures key(r[i]) != key(r[j])
        {
          if j == |r'| {
            assert r[i] in s';
            var m :| 0 <= m < |s'| && s'[m] == r[i];
            assert s[m] == r[i];
          }
        }
      }
    }
  }

  /** Filtering keeps the relative order of the elements it keeps: any two
      of them come from two positions of `s` in the same order. */
  lemma {:induction false} FilterOrder<T>(f: T -> bool, s: seq<T>, k1: nat, k2: nat)
    requires k1 < k2 < |Filter(f, s)|
    ensures exists i1, i2 :: 0 <= i1 < i2 < |s| && s[i1] == Filter(f, s)[k1] && s[i2] == Filter(f, s)[k2]
  {
    var s' := s[..|s| - 1];
    var r', r := Filter(f, s'), Filter(f, s);
    if k2 < |r'| {
      FilterOrder(f, s', k1, k2);
      var i1, i2 :| 0 <= i1 < i2 < |s'| && s'[i1] == r'[k1] && s'[i2] == r'[k2];
      assert s[i1] == r[k1] && s[i2] == r[k2];
    } else {
      assert r[k1] == r'[k1] && r'[k1] in s';
      var i1 :| 0 <= i1 < |s'| && s'[i1] == r'[k1];
      assert s[i1] == r[k1] && s[|s| - 1] == r[k2];
    }
  }

  /** Mapping distributes over concatenation. */
  lemma {:induction false} MapAppend<A, B>(f: A -> B, a: seq<A>, b: seq<A>)
    ensures Map(f, a + b) == Map(f, a) + Map(f, b)
  {
    if b == [] {
      assert a + b == a;
    } else {
      var b' := b[..|b| - 1];
      assert a + b == (a + b') + [b[|b| - 1]];
      MapSnoc(f, a + b', b[|b| - 1]);
      MapAppend(f, a, b');
    }
  }

  /** Concatenation of a sequence of sequences. */
  function Concat<T>(ss: seq<seq<T>>): seq<T> {
    if ss == [] then [] else Concat(ss[..|ss| - 1]) + ss[|ss| - 1]
  }

  lemma ConcatSnoc<T>(ss: seq<seq<T>>, s: seq<T>)
    ensures Concat(ss + [s]) == Concat(ss) + s
  {
    assert (ss + [s])[..|ss|] == ss;
  }
}
