/** Generic values and list operations shared by every part of the model:
    an Option type, the JavaScript list idioms the code relies on
    (`filter(x => x !== v)`, `Array.from(new Set(...))`, `slice`) and the
    page arithmetic `Math.ceil(n / size)` used by every paginated view. */
module Base {

  datatype Option<T> = None | Some(value: T)

  /** `s.filter(e => e !== x)`: every occurrence of `x` is dropped. */
  function RemoveAll<T(==)>(s: seq<T>, x: T): (r: seq<T>)
    ensures x !in r
    ensures multiset(r) == multiset(s)[x := 0]
    ensures |r| <= |s|
  {
    if s == [] then []
    else
      assert s == [s[0]] + s[1..];
      (if s[0] == x then [] else [s[0]]) + RemoveAll(s[1..], x)
  }

  /** Removing commutes with concatenation: the kept elements stay in their
      original relative order. */
  lemma {:induction false} RemoveAllConcat<T>(a: seq<T>, b: seq<T>, x: T)
    ensures RemoveAll(a + b, x) == RemoveAll(a, x) + RemoveAll(b, x)
  {
    if a == [] {
      assert a + b == b;
    } else {
      assert (a + b)[1..] == a[1..] + b;
      RemoveAllConcat(a[1..], b, x);
    }
  }

  /** Removing a value that does not occur changes nothing. */
  lemma {:induction false} RemoveAllAbsent<T>(s: seq<T>, x: T)
    requires x !in s
    ensures RemoveAll(s, x) == s
  {
    if s != [] {
      RemoveAllAbsent(s[1..], x);
    }
  }

  /** `s.filter(f)`: the elements that pass, in their original order. */
  function Filter<T(==)>(s: seq<T>, f: T -> bool): (r: seq<T>)
    ensures |r| <= |s|
    ensures forall i :: 0 <= i < |r| ==> f(r[i])
    ensures multiset(r) <= multiset(s)
  {
    if s == [] then []
    else
      var last := s[|s| - 1];
      assert s == s[..|s| - 1] + [last];
      Filter(s[..|s| - 1], f) + (if f(last) then [last] else [])
  }

  /** A non-empty list is its front followed by its last element. */
  lemma SnocSplit<T>(s: seq<T>)
    requires s != []
    ensures s[..|s| - 1] + [s[|s| - 1]] == s
  {
  }

  lemma FilterSnoc<T>(t: seq<T>, x: T, f: T -> bool)
    ensures Filter(t + [x], f) == Filter(t, f) + (if f(x) then [x] else [])
  {
    var s := t + [x];
    assert s[..|s| - 1] == t;
  }

  function Negate<T>(f: T -> bool): T -> bool {
    x => !f(x)
  }

  /** What a filter keeps and what its negation keeps make up the list. */
  lemma {:induction false} FilterPartition<T>(s: seq<T>, f: T -> bool)
    ensures multiset(Filter(s, f)) + multiset(Filter(s, Negate(f))) == multiset(s)
  {
    if s != [] {
      var t, last := s[..|s| - 1], s[|s| - 1];
      var g := Negate(f);
      FilterPartition(t, f);
      SnocSplit(s);
      FilterSnoc(t, last, f);
      FilterSnoc(t, last, g);
      assert g(last) == !f(last);
    }
  }

  /** Whatever a filter keeps comes from the list and passes the test. */
  lemma FilterFrom<T>(s: seq<T>, f: T -> bool, x: T)
    requires x in Filter(s, f)
    ensures x in s && f(x)
  {
    assert x in multiset(Filter(s, f));
  }

  /** Every two elements, in list order, are related by `R`. */
  predicate Pairwise<T>(s: seq<T>, R: (T, T) -> bool) {
    forall i, j :: 0 <= i < j < |s| ==> R(s[i], s[j])
  }

  /** A filter keeps a pairwise relation: what it keeps stays in order. */
  lemma {:induction false} FilterPairwise<T>(s: seq<T>, f: T -> bool, R: (T, T) -> bool)
    requires Pairwise(s, R)
    ensures Pairwise(Filter(s, f), R)
  {
    if s != [] {
      var t, last := s[..|s| - 1], s[|s| - 1];
      SnocSplit(s);
      FilterSnoc(t, last, f);
      assert Pairwise(t, R) by {
        forall i, j | 0 <= i < j < |t| ensures R(t[i], t[j]) {
          assert t[i] == s[i] && t[j] == s[j];
        }
      }
      FilterPairwise(t, f, R);
      var ft := Filter(t, f);
      if f(last) {
        forall i | 0 <= i < |ft| ensures R(ft[i], last) {
          FilterFrom(t, f, ft[i]);
          var m :| 0 <= m < |t| && t[m] == ft[i];
          assert s[m] == t[m];
        }
        PairwiseSnoc(ft, last, R);
      }
    }
  }

  lemma PairwiseSnoc<T>(s: seq<T>, x: T, R: (T, T) -> bool)
    requires Pairwise(s, R)
    requires forall i :: 0 <= i < |s| ==> R(s[i], x)
    ensures Pairwise(s + [x], R)
  {
    var u := s + [x];
    forall i, j | 0 <= i < j < |u| ensures R(u[i], u[j]) {
      assert u[i] == s[i];
    }
  }

  /** An element that passes the test is kept. */
  lemma {:induction false} FilterKeeps<T>(s: seq<T>, f: T -> bool, x: T)
    requires x in s && f(x)
    ensures x in Filter(s, f)
  {
    var t, last := s[..|s| - 1], s[|s| - 1];
    SnocSplit(s);
    assert Filter(s, f) == Filter(t, f) + (if f(last) then [last] else []);
    if x != last {
      FilterKeeps(t, f, x);
    }
  }

  /** A property every element has holds of every element kept. */
  lemma {:induction false} FilterKeepsProperty<T>(s: seq<T>, f: T -> bool, p: T -> bool)
    requires forall i :: 0 <= i < |s| ==> p(s[i])
    ensures forall i :: 0 <= i < |Filter(s, f)| ==> p(Filter(s, f)[i])
  {
    if s != [] {
      var t, last := s[..|s| - 1], s[|s| - 1];
      FilterKeepsProperty(t, f, p);
      assert Filter(s, f) == Filter(t, f) + (if f(last) then [last] else []);
    }
  }

  /** A filter that every element passes keeps the list as it is. */
  lemma {:induction false} FilterAll<T>(s: seq<T>, f: T -> bool)
    requires forall i :: 0 <= i < |s| ==> f(s[i])
    ensures Filter(s, f) == s
  {
    if s != [] {
      var t, last := s[..|s| - 1], s[|s| - 1];
      FilterAll(t, f);
      SnocSplit(s);
      FilterSnoc(t, last, f);
      assert f(last);
    }
  }

  lemma {:induction false} FilterConcat<T>(a: seq<T>, b: seq<T>, f: T -> bool)
    ensures Filter(a + b, f) == Filter(a, f) + Filter(b, f)
  {
    if b == [] {
      assert a + b == a;
    } else {
      var t, last := b[..|b| - 1], b[|b| - 1];
      var ab := a + b;
      var tail := if f(last) then [last] else [];
      FilterConcat(a, t, f);
      assert ab[..|ab| - 1] == a + t && ab[|ab| - 1] == last;
      assert Filter(ab, f) == Filter(a + t, f) + tail;
      assert Filter(b, f) == Filter(t, f) + tail;
    }
  }

  /** Two tests that agree on every element keep the same elements. */
  lemma {:induction false} FilterAgree<T>(s: seq<T>, f: T -> bool, g: T -> bool)
    requires forall i :: 0 <= i < |s| ==> f(s[i]) == g(s[i])
    ensures Filter(s, f) == Filter(s, g)
  {
    if s != [] {
      var t := s[..|s| - 1];
      assert forall i :: 0 <= i < |t| ==> t[i] == s[i];
      FilterAgree(t, f, g);
    }
  }

  /** Filtering twice is filtering once by both tests. */
  lemma {:induction false} FilterFilter<T>(s: seq<T>, f: T -> bool, g: T -> bool, h: T -> bool)
    requires forall x :: h(x) == (f(x) && g(x))
    ensures Filter(Filter(s, f), g) == Filter(s, h)
  {
    if s != [] {
      var t, last := s[..|s| - 1], s[|s| - 1];
      FilterFilter(t, f, g, h);
      var ft := Filter(t, f);
      var tail := if f(last) then [last] else [];
      assert Filter(s, f) == ft + tail;
      FilterConcat(ft, tail, g);
      assert Filter(tail, g) == if h(last) then [last] else [] by {
        if f(last) {
          assert tail[..0] == [];
          assert Filter(tail, g) == Filter([], g) + (if g(last) then [last] else []);
        }
      }
    }
  }

  /** Every element of a page is an element of the list, and a page of an
      ordered list is ordered. */
  lemma PageSorted<T>(s: seq<T>, p: int, size: nat, le: (T, T) -> bool)
    requires size > 0 && 1 <= p
    requires forall i, j :: 0 <= i < j < |s| ==> le(s[i], s[j])
    ensures forall i, j :: 0 <= i < j < |Page(s, p, size)| ==> le(Page(s, p, size)[i], Page(s, p, size)[j])
    ensures forall i :: 0 <= i < |Page(s, p, size)| ==> Page(s, p, size)[i] in s
  {
    PageShape(s, p, size);
  }

  /** The lists `f(x)` of the elements `x` of `s`, one after the other. */
  function FlatMap<T, U>(s: seq<T>, f: T -> seq<U>): seq<U> {
    if s == [] then [] else FlatMap(s[..|s| - 1], f) + f(s[|s| - 1])
  }

  lemma FlatMapStep<T, U>(s: seq<T>, i: nat, f: T -> seq<U>)
    requires i < |s|
    ensures FlatMap(s[..i + 1], f) == FlatMap(s[..i], f) + f(s[i])
  {
    assert s[..i + 1][..i] == s[..i];
  }

  /** A four-element list contributes its elements' parts in order. */
  lemma FlatMapFour<T, U>(s: seq<T>, f: T -> seq<U>)
    requires |s| == 4
    ensures FlatMap(s, f) == f(s[0]) + f(s[1]) + f(s[2]) + f(s[3])
  {
    assert s[..0] == [];
    FlatMapStep(s, 0, f);
    FlatMapStep(s, 1, f);
    FlatMapStep(s, 2, f);
    FlatMapStep(s, 3, f);
    assert s[..4] == s;
  }

  /** A five-element list contributes its elements' parts in order. */
  lemma FlatMapFive<T, U>(s: seq<T>, f: T -> seq<U>)
    requires |s| == 5
    ensures FlatMap(s, f) == f(s[0]) + f(s[1]) + f(s[2]) + f(s[3]) + f(s[4])
  {
    FlatMapFour(s[..4], f);
    FlatMapStep(s, 4, f);
    assert s[..5] == s;
  }

  lemma {:induction false} FlatMapConcat<T, U>(a: seq<T>, b: seq<T>, f: T -> seq<U>)
    ensures FlatMap(a + b, f) == FlatMap(a, f) + FlatMap(b, f)
  {
    if b == [] {
      assert a + b == a;
    } else {
      var ab, front, x := a + b, b[..|b| - 1], b[|b| - 1];
      assert ab[..|ab| - 1] == a + front && ab[|ab| - 1] == x;
      FlatMapConcat(a, front, f);
      calc {
        FlatMap(ab, f);
        FlatMap(a + front, f) + f(x);
        (FlatMap(a, f) + FlatMap(front, f)) + f(x);
        FlatMap(a, f) + (FlatMap(front, f) + f(x));
        FlatMap(a, f) + FlatMap(b, f);
      }
    }
  }

  /** The result is empty exactly when every element contributes nothing. */
  lemma {:induction false} FlatMapEmpty<T, U>(s: seq<T>, f: T -> seq<U>)
    ensures FlatMap(s, f) == [] <==> forall i :: 0 <= i < |s| ==> f(s[i]) == []
  {
    if s != [] {
      var front := s[..|s| - 1];
      FlatMapEmpty(front, f);
      assert forall i :: 0 <= i < |front| ==> front[i] == s[i];
    }
  }

  /** A value is in the result exactly when some element contributes it. */
  lemma {:induction false} FlatMapMember<T, U>(s: seq<T>, f: T -> seq<U>, x: U)
    ensures x in FlatMap(s, f) <==> exists i :: 0 <= i < |s| && x in f(s[i])
  {
    if s != [] {
      var front := s[..|s| - 1];
      FlatMapMember(front, f, x);
      assert forall i :: 0 <= i < |front| ==> front[i] == s[i];
      if x in f(s[|s| - 1]) {
        assert 0 <= |s| - 1 < |s| && x in f(s[|s| - 1]);
      }
    }
  }

  /** `Array.from(new Set(s))`: the distinct elements of `s` in the order of
      their first appearance. */
  function Distinct<T(==)>(s: seq<T>): (r: seq<T>)
    ensures forall i :: 0 <= i < |s| ==> s[i] in r
    ensures forall i :: 0 <= i < |r| ==> r[i] in s
    ensures forall i, j :: 0 <= i < j < |r| ==> r[i] != r[j]
    ensures |r| <= |s|
  {
    if s == [] then []
    else
      var d := Distinct(s[..|s| - 1]);
      assert s == s[..|s| - 1] + [s[|s| - 1]];
      if s[|s| - 1] in d then d else d + [s[|s| - 1]]
  }

  /** Appending a value keeps the earlier first appearances in place. */
  lemma DistinctPrefix<T>(s: seq<T>, x: T)
    ensures Distinct(s + [x]) == if x in s then Distinct(s) else Distinct(s) + [x]
  {
    assert (s + [x])[..|s + [x]| - 1] == s;
  }

  /** The index that `Array.prototype.slice` derives from a relative
      argument: negative values count from the end, and the result is
      clamped to `[0, n]`. */
  function SliceIndex(k: int, n: nat): (r: nat)
    ensures r <= n
    ensures 0 <= k <= n ==> r == k
    ensures k > n ==> r == n
    ensures k < 0 ==> r == if n + k < 0 then 0 else n + k
  {
    if k < 0 then (if n + k < 0 then 0 else n + k) else if k > n then n else k
  }

  /** `s.slice(start, end)`. */
  function Slice<T>(s: seq<T>, start: int, end: int): (r: seq<T>)
    ensures SliceIndex(start, |s|) < SliceIndex(end, |s|) ==> r == s[SliceIndex(start, |s|)..SliceIndex(end, |s|)]
    ensures SliceIndex(start, |s|) >= SliceIndex(end, |s|) ==> r == []
  {
    var a, b := SliceIndex(start, |s|), SliceIndex(end, |s|);
    if a < b then s[a..b] else []
  }

  /** `Math.ceil(n / d)` for a non-negative count and a positive divisor. */
  function CeilDiv(n: nat, d: nat): (r: nat)
    requires d > 0
    ensures r * d >= n
    ensures r == 0 || (r - 1) * d < n
  {
    (n + d - 1) / d
  }

  /** Page `p` (counting from 1) of `size` items: `s.slice((p-1)*size, p*size)`. */
  function Page<T>(s: seq<T>, p: int, size: nat): seq<T>
    requires size > 0
  {
    Slice(s, (p - 1) * size, p * size)
  }

  /** The index of the first item of page `p`. */
  function PageStart(p: int, size: nat): (r: nat)
    requires 1 <= p
    ensures r == (p - 1) * size && r + size == p * size
  {
    MulMonotone(0, p - 1, size);
    (p - 1) * size
  }

  /** A page never holds more than `size` items, and every page numbered
      from 1 to the page count is a contiguous block of the list. */
  lemma PageShape<T>(s: seq<T>, p: int, size: nat)
    requires size > 0 && 1 <= p
    ensures |Page(s, p, size)| <= size
    ensures PageStart(p, size) < |s| ==>
      Page(s, p, size) == s[PageStart(p, size)..Min(PageStart(p, size) + size, |s|)]
    ensures PageStart(p, size) >= |s| ==> Page(s, p, size) == []
  {
    var lo := PageStart(p, size);
    assert Page(s, p, size) == Slice(s, lo, lo + size);
  }

  function Min(a: int, b: int): int {
    if a < b then a else b
  }

  /** Pagination loses nothing: item `i` of the list is item `i % size` of
      page `i / size + 1`, and that page number lies between 1 and
      `Math.ceil(|s| / size)`. */
  lemma PageCovers<T>(s: seq<T>, size: nat, i: nat)
    requires size > 0 && i < |s|
    ensures 1 <= i / size + 1 <= CeilDiv(|s|, size)
    ensures i % size < |Page(s, i / size + 1, size)|
    ensures Page(s, i / size + 1, size)[i % size] == s[i]
  {
    var p := i / size + 1;
    assert i == (i / size) * size + i % size;
    assert (p - 1) * size == (i / size) * size;
    assert p * size == (i / size) * size + size;
    PageShape(s, p, size);
    var c := CeilDiv(|s|, size);
    assert c * size >= |s|;
    if c < p {
      assert c <= i / size;
      MulMonotone(c, i / size, size);
      assert false;
    }
  }

  lemma MulMonotone(a: nat, b: nat, k: nat)
    requires a <= b
    ensures a * k <= b * k
  {
  }
}
