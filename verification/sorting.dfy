/**
 * `Array.prototype.sort` with a numeric comparator `(a, b) => key(a) - key(b)`.
 * Since ES2019 that sort is stable, so its result is the stable sort by `key`:
 * ordered by `key`, a permutation of the input, and elements with equal keys
 * in their original relative order. A comparator `b - a` is the same sort
 * with the key negated.
 */
module Sorting {
  import opened Seqs

  predicate SortedBy<T>(s: seq<T>, key: T -> int) {
    forall i, j :: 0 <= i < j < |s| ==> key(s[i]) <= key(s[j])
  }

  /** The predicate "has key `k`", used to state stability. */
  function KeyIs<T>(key: T -> int, k: int): T -> bool {
    (x: T) => key(x) == k
  }

  /** Inserts `x` before the first element whose key is not smaller. */
  function Insert<T>(x: T, s: seq<T>, key: T -> int): (r: seq<T>)
    ensures |r| == |s| + 1
    ensures r[0] == x || (s != [] && r[0] == s[0])
    ensures SortedBy(s, key) ==> SortedBy(r, key)
  {
    if s == [] || key(x) <= key(s[0]) then
      SortedCons(x, s, key);
      [x] + s
    else
      assert s == [s[0]] + s[1..];
      var t := Insert(x, s[1..], key);
      SortedCons(s[0], t, key);
      [s[0]] + t
  }

  /** Putting an element no larger than the head in front of a sorted sequence keeps it sorted. */
  lemma SortedCons<T>(h: T, t: seq<T>, key: T -> int)
    ensures SortedBy(t, key) && (t == [] || key(h) <= key(t[0])) ==> SortedBy([h] + t, key)
  {
    if SortedBy(t, key) && (t == [] || key(h) <= key(t[0])) {
      var r := [h] + t;
      forall i, j | 0 <= i < j < |r|
        ensures key(r[i]) <= key(r[j])
      {
        if i == 0 && j > 1 {
          assert key(t[0]) <= key(t[j - 1]);
        }
      }
    }
  }

  /** Inserting adds exactly `x`. */
  lemma {:induction false} InsertPermutes<T>(x: T, s: seq<T>, key: T -> int)
    ensures multiset(Insert(x, s, key)) == multiset(s) + multiset{x}
  {
    if s != [] && key(x) > key(s[0]) {
      InsertPermutes(x, s[1..], key);
      assert s == [s[0]] + s[1..];
    }
  }

  /** Insertion sort: ascending by `key`, stable. */
  function SortBy<T>(s: seq<T>, key: T -> int): (r: seq<T>)
    ensures |r| == |s|
    ensures multiset(r) == multiset(s)
    ensures SortedBy(r, key)
  {
    if s == [] then []
    else
      assert s == [s[0]] + s[1..];
      InsertPermutes(s[0], SortBy(s[1..], key), key);
      Insert(s[0], SortBy(s[1..], key), key)
  }

  lemma {:induction false} InsertStable<T>(x: T, s: seq<T>, key: T -> int, k: int)
    ensures Filter(Insert(x, s, key), KeyIs(key, k))
         == (if key(x) == k then [x] else []) + Filter(s, KeyIs(key, k))
  {
    var p := KeyIs(key, k);
    assert p(x) == (key(x) == k);
    if s == [] || key(x) <= key(s[0]) {
      assert Insert(x, s, key) == [x] + s;
      FilterCons(x, s, p);
    } else {
      var t := Insert(x, s[1..], key);
      assert Insert(x, s, key) == [s[0]] + t;
      InsertStable(x, s[1..], key, k);
      assert s == [s[0]] + s[1..];
      PassOver(x, s[0], s[1..], t, p);
    }
  }

  /** Filtering commutes with moving `x` past a head element that `p` cannot keep alongside it. */
  lemma PassOver<T>(x: T, h: T, rest: seq<T>, t: seq<T>, p: T -> bool)
    requires Filter(t, p) == (if p(x) then [x] else []) + Filter(rest, p)
    requires p(x) ==> !p(h)
    ensures Filter([h] + t, p) == (if p(x) then [x] else []) + Filter([h] + rest, p)
  {
    FilterCons(h, t, p);
    FilterCons(h, rest, p);
    if p(x) {
      assert Filter([h] + t, p) == Filter(t, p);
      assert Filter([h] + rest, p) == Filter(rest, p);
    } else {
      assert Filter(t, p) == Filter(rest, p);
    }
  }

  /** Stability: the elements of any one key keep their relative order. */
  lemma {:induction false} SortStable<T>(s: seq<T>, key: T -> int, k: int)
    ensures Filter(SortBy(s, key), KeyIs(key, k)) == Filter(s, KeyIs(key, k))
  {
    if s != [] {
      SortStable(s[1..], key, k);
      InsertStable(s[0], SortBy(s[1..], key), key, k);
      FilterCons(s[0], s[1..], KeyIs(key, k));
      assert s == [s[0]] + s[1..];
    }
  }
}
