/** Generic sequence operations the JavaScript code gets from `Array.prototype`:
    `filter`, `filter(...).length` and the stable `sort`. */
module Seqs {

  /** `s.filter(p)`: the elements of `s` satisfying `p`, in their original order. */
  function Filter<T>(s: seq<T>, p: T -> bool): (r: seq<T>)
    ensures |r| <= |s|
    ensures forall i :: 0 <= i < |r| ==> r[i] in s && p(r[i])
    ensures forall i :: 0 <= i < |s| && p(s[i]) ==> s[i] in r
  {
    if s == [] then []
    else (if p(s[0]) then [s[0]] else []) + Filter(s[1..], p)
  }

  /** Filtering distributes over concatenation, so the kept elements keep their order. */
  lemma {:induction false} FilterConcat<T>(a: seq<T>, b: seq<T>, p: T -> bool)
    ensures Filter(a + b, p) == Filter(a, p) + Filter(b, p)
  {
    if a == [] {
      assert a + b == b;
    } else {
      assert (a + b)[1..] == a[1..] + b;
      FilterConcat(a[1..], b, p);
    }
  }

  /** A filter that keeps every element is the identity. */
  lemma {:induction false} FilterKeepsAll<T>(s: seq<T>, p: T -> bool)
    requires forall i :: 0 <= i < |s| ==> p(s[i])
    ensures Filter(s, p) == s
  {
    if s != [] {
      FilterKeepsAll(s[1..], p);
    }
  }

  /** Each element kept by the filter keeps its multiplicity; the others vanish. */
  lemma {:induction false} FilterMultiset<T>(s: seq<T>, p: T -> bool, x: T)
    ensures multiset(Filter(s, p))[x] == if p(x) then multiset(s)[x] else 0
  {
    if s != [] {
      FilterMultiset(s[1..], p, x);
      assert s == [s[0]] + s[1..];
    }
  }

  /** Filtering two permutations of each other gives permutations of each other. */
  lemma FilterPermutation<T>(a: seq<T>, b: seq<T>, p: T -> bool)
    requires multiset(a) == multiset(b)
    ensures multiset(Filter(a, p)) == multiset(Filter(b, p))
  {
    forall x ensures multiset(Filter(a, p))[x] == multiset(Filter(b, p))[x] {
      FilterMultiset(a, p, x);
      FilterMultiset(b, p, x);
    }
  }

  /** `s.filter(p).length`. */
  function Count<T>(s: seq<T>, p: T -> bool): nat {
    |Filter(s, p)|
  }

  /** Counting does not depend on the order of the elements. */
  lemma CountPermutation<T>(a: seq<T>, b: seq<T>, p: T -> bool)
    requires multiset(a) == multiset(b)
    ensures Count(a, p) == Count(b, p)
  {
    FilterPermutation(a, b, p);
    assert |multiset(Filter(a, p))| == |Filter(a, p)|;
    assert |multiset(Filter(b, p))| == |Filter(b, p)|;
  }

  /** A stronger predicate never counts more elements. */
  lemma {:induction false} CountMonotone<T>(s: seq<T>, p: T -> bool, q: T -> bool)
    requires forall i :: 0 <= i < |s| && q(s[i]) ==> p(s[i])
    ensures Count(s, q) <= Count(s, p)
  {
    if s != [] {
      CountMonotone(s[1..], p, q);
    }
  }

  /** The predicate "has key `k`", used to state stability of the sort. */
  function KeyIs<T>(key: T -> int, k: int): T -> bool {
    x => key(x) == k
  }

  ghost predicate SortedBy<T>(s: seq<T>, key: T -> int) {
    forall i, j :: 0 <= i < j < |s| ==> key(s[i]) <= key(s[j])
  }

  /** Inserts `x` before the first element whose key is not smaller. */
  function Insert<T>(x: T, s: seq<T>, key: T -> int): seq<T> {
    if s == [] then [x]
    else if key(x) <= key(s[0]) then [x] + s
    else [s[0]] + Insert(x, s[1..], key)
  }

  /** The stable sort `Array.prototype.sort` performs with the comparator
      `(a, b) => key(a) - key(b)`: insertion from the back keeps equal keys
      in their original relative order. */
  function SortByKey<T>(s: seq<T>, key: T -> int): seq<T> {
    if s == [] then []
    else Insert(s[0], SortByKey(s[1..], key), key)
  }

  lemma {:induction false} InsertBounded<T>(x: T, s: seq<T>, key: T -> int, lo: int)
    requires lo <= key(x)
    requires forall i :: 0 <= i < |s| ==> lo <= key(s[i])
    ensures |Insert(x, s, key)| == |s| + 1
    ensures forall i :: 0 <= i < |Insert(x, s, key)| ==> lo <= key(Insert(x, s, key)[i])
  {
    if s != [] && key(x) > key(s[0]) {
      InsertBounded(x, s[1..], key, lo);
    }
  }

  lemma {:induction false} InsertSorted<T>(x: T, s: seq<T>, key: T -> int)
    requires SortedBy(s, key)
    ensures SortedBy(Insert(x, s, key), key)
  {
    if s != [] && key(x) > key(s[0]) {
      InsertSorted(x, s[1..], key);
      InsertBounded(x, s[1..], key, key(s[0]));
    }
  }

  lemma {:induction false} InsertMultiset<T>(x: T, s: seq<T>, key: T -> int)
    ensures multiset(Insert(x, s, key)) == multiset(s) + multiset{x}
  {
    if s != [] && key(x) > key(s[0]) {
      InsertMultiset(x, s[1..], key);
      assert s == [s[0]] + s[1..];
    }
  }

  lemma FilterSingleton<T>(y: T, p: T -> bool)
    ensures Filter([y], p) == if p(y) then [y] else []
  {
    assert [y][1..] == [];
  }

  /** `Filter` of a five-element list, written out element by element. */
  lemma Filter5<T>(a: T, b: T, c: T, d: T, e: T, p: T -> bool)
    ensures Filter([a, b, c, d, e], p)
         == Filter([a], p) + Filter([b], p) + Filter([c], p) + Filter([d], p) + Filter([e], p)
  {
    assert [a, b, c, d, e] == [a] + [b] + [c] + [d] + [e];
    FilterConcat([a] + [b] + [c] + [d], [e], p);
    FilterConcat([a] + [b] + [c], [d], p);
    FilterConcat([a] + [b], [c], p);
    FilterConcat([a], [b], p);
  }

  /** The sequence algebra of one step of `InsertStable`: an element kept in
      front of the inserted one never shares its key. */
  lemma StableStep<T>(h: seq<T>, mine: seq<T>, ft: seq<T>, fr: seq<T>, fs: seq<T>)
    requires ft == mine + fr && fs == h + fr
    requires mine == [] || h == []
    ensures h + ft == mine + fs
  {
  }

  /** Inserting `x` puts it in front of every element with the same key. */
  lemma {:induction false} InsertStable<T>(x: T, s: seq<T>, key: T -> int, k: int)
    ensures Filter(Insert(x, s, key), KeyIs(key, k))
         == (if key(x) == k then [x] else []) + Filter(s, KeyIs(key, k))
  {
    var p := KeyIs(key, k);
    FilterSingleton(x, p);
    if s == [] {
      assert Insert(x, s, key) == [x];
    } else if key(x) <= key(s[0]) {
      assert Insert(x, s, key) == [x] + s;
      FilterConcat([x], s, p);
    } else {
      var head, rest := s[0], s[1..];
      var t := Insert(x, rest, key);
      assert Insert(x, s, key) == [head] + t;
      assert s == [head] + rest;
      InsertStable(x, rest, key, k);
      FilterConcat([head], t, p);
      FilterConcat([head], rest, p);
      FilterSingleton(head, p);
      StableStep(Filter([head], p), if key(x) == k then [x] else [], Filter(t, p), Filter(rest, p), Filter(s, p));
    }
  }

  /** The sort orders by key, permutes its input, and is stable: for every key
      value, the elements with that key appear in the same order as before. */
  lemma {:induction false} SortByKeyCorrect<T>(s: seq<T>, key: T -> int)
    ensures SortedBy(SortByKey(s, key), key)
    ensures multiset(SortByKey(s, key)) == multiset(s)
    ensures forall k :: Filter(SortByKey(s, key), KeyIs(key, k)) == Filter(s, KeyIs(key, k))
  {
    if s != [] {
      SortByKeyCorrect(s[1..], key);
      var t := SortByKey(s[1..], key);
      InsertSorted(s[0], t, key);
      InsertMultiset(s[0], t, key);
      assert s == [s[0]] + s[1..];
      forall k ensures Filter(SortByKey(s, key), KeyIs(key, k)) == Filter(s, KeyIs(key, k)) {
        InsertStable(s[0], t, key, k);
        FilterConcat([s[0]], s[1..], KeyIs(key, k));
      }
    }
  }

  /** With a constant key (a comparator that always answers 0) the stable sort
      changes nothing. */
  lemma ConstantKeyKeepsOrder<T>(s: seq<T>, key: T -> int, k: int)
    requires forall i :: 0 <= i < |s| ==> key(s[i]) == k
    ensures SortByKey(s, key) == s
  {
    SortByKeyCorrect(s, key);
    var r := SortByKey(s, key);
    forall i | 0 <= i < |r|
      ensures key(r[i]) == k
    {
      assert r[i] in multiset(r);
      assert r[i] in multiset(s);
      var j :| 0 <= j < |s| && s[j] == r[i];
    }
    FilterKeepsAll(s, KeyIs(key, k));
    FilterKeepsAll(r, KeyIs(key, k));
  }
}
