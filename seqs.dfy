/** The array operations the list views and read handlers are built from:
    `filter`, counting, and `sort` with a comparator on one key, ascending or
    descending. The sort is an insertion sort, proved to give a sorted
    permutation of its input. */
module Seqs {

  /** `xs.filter(p)`: the elements satisfying `p`, in their original order. */
  function Filter<T(!new)>(xs: seq<T>, p: T -> bool): (r: seq<T>)
    ensures |r| <= |xs|
    ensures forall x :: x in r <==> x in xs && p(x)
    ensures multiset(r) <= multiset(xs)
    decreases |xs|
  {
    if xs == [] then []
    else
      var rest := Filter(xs[1..], p);
      assert forall x :: x in xs <==> x == xs[0] || x in xs[1..];
      assert xs == [xs[0]] + xs[1..];
      if p(xs[0]) then [xs[0]] + rest else rest
  }

  /** `filter` keeps each element that passes as many times as the input
      holds it, and drops every other one. */
  lemma {:induction false} FilterMultiplicity<T(!new)>(xs: seq<T>, p: T -> bool)
    ensures forall x :: multiset(Filter(xs, p))[x] == if p(x) then multiset(xs)[x] else 0
    decreases |xs|
  {
    if xs != [] {
      FilterMultiplicity(xs[1..], p);
      assert xs == [xs[0]] + xs[1..];
    }
  }

  /** Filtering with a predicate that holds everywhere keeps everything. */
  lemma {:induction false} FilterAll<T(!new)>(xs: seq<T>, p: T -> bool)
    requires forall x :: x in xs ==> p(x)
    ensures Filter(xs, p) == xs
    decreases |xs|
  {
    if xs != [] {
      assert forall x :: x in xs[1..] ==> x in xs;
      FilterAll(xs[1..], p);
    }
  }

  /** The number of elements satisfying `p`: `COUNT(*) ... WHERE p`. */
  function Count<T(!new)>(xs: seq<T>, p: T -> bool): (n: nat)
    ensures n <= |xs|
    ensures n == |Filter(xs, p)|
    decreases |xs|
  {
    if xs == [] then 0 else (if p(xs[0]) then 1 else 0) + Count(xs[1..], p)
  }

  /** Two predicates that never hold together count separately. */
  lemma {:induction false} CountDisjoint<T(!new)>(xs: seq<T>, p: T -> bool, q: T -> bool, both: T -> bool)
    requires forall x :: x in xs ==> !(p(x) && q(x))
    requires forall x :: x in xs ==> (both(x) <==> p(x) || q(x))
    ensures Count(xs, both) == Count(xs, p) + Count(xs, q)
    decreases |xs|
  {
    if xs != [] {
      assert forall x :: x in xs[1..] ==> x in xs;
      CountDisjoint(xs[1..], p, q, both);
    }
  }

  /** Counting with a stronger predicate never gives more. */
  lemma {:induction false} CountMonotone<T(!new)>(xs: seq<T>, p: T -> bool, q: T -> bool)
    requires forall x :: x in xs ==> p(x) ==> q(x)
    ensures Count(xs, p) <= Count(xs, q)
    decreases |xs|
  {
    if xs != [] {
      assert forall x :: x in xs[1..] ==> x in xs;
      CountMonotone(xs[1..], p, q);
    }
  }

  // ---------------------------------------------------------------------------
  // Ordering of sort keys

  /** The order on text keys: lexicographic on Unicode scalar values, which
      differs from JavaScript's UTF-16 code-unit `<` only outside the Basic
      Multilingual Plane. */
  predicate LexLess(a: string, b: string)
  {
    if a == [] then b != []
    else b != [] && (a[0] < b[0] || (a[0] == b[0] && LexLess(a[1..], b[1..])))
  }

  lemma {:induction false} LexIrreflexive(a: string)
    ensures !LexLess(a, a)
  {
    if a != [] {
      LexIrreflexive(a[1..]);
    }
  }

  lemma {:induction false} LexTotal(a: string, b: string)
    ensures a == b || LexLess(a, b) || LexLess(b, a)
  {
    if a != [] && b != [] && a[0] == b[0] {
      LexTotal(a[1..], b[1..]);
      if a[1..] == b[1..] {
        assert a == [a[0]] + a[1..] && b == [b[0]] + b[1..];
      }
    }
  }

  lemma {:induction false} LexTransitive(a: string, b: string, c: string)
    requires LexLess(a, b) && LexLess(b, c)
    ensures LexLess(a, c)
  {
    if a != [] && a[0] == b[0] && b[0] == c[0] {
      LexTransitive(a[1..], b[1..], c[1..]);
    }
  }

  /** A sort key as the comparator sees it: a number (ids, dates) or text. */
  datatype SortValue = Number(n: int) | Text(s: string)

  /** The comparator's `a < b`. Keys of one column are all of one kind; the
      two kinds are ordered numbers first so that the order is total. */
  predicate KeyLess(a: SortValue, b: SortValue)
  {
    match (a, b)
    case (Number(x), Number(y)) => x < y
    case (Text(x), Text(y)) => LexLess(x, y)
    case (Number(_), Text(_)) => true
    case (Text(_), Number(_)) => false
  }

  /** `KeyLess` is a strict total order. */
  lemma KeyOrder(a: SortValue, b: SortValue, c: SortValue)
    ensures !KeyLess(a, a)
    ensures a == b || KeyLess(a, b) || KeyLess(b, a)
    ensures KeyLess(a, b) && KeyLess(b, c) ==> KeyLess(a, c)
  {
    if a.Text? { LexIrreflexive(a.s); }
    if a.Text? && b.Text? { LexTotal(a.s, b.s); }
    if a.Text? && b.Text? && c.Text? && KeyLess(a, b) && KeyLess(b, c) { LexTransitive(a.s, b.s, c.s); }
  }

  /** The comparator's verdict "`a` goes strictly before `b`" for direction
      `desc`: `aValue < bValue` returns -1 ascending and 1 descending. */
  predicate Precedes<T>(key: T -> SortValue, desc: bool, a: T, b: T)
  {
    if desc then KeyLess(key(b), key(a)) else KeyLess(key(a), key(b))
  }

  lemma PrecedesOrder<T>(key: T -> SortValue, desc: bool, a: T, b: T, c: T)
    ensures !(Precedes(key, desc, a, b) && Precedes(key, desc, b, a))
    ensures !Precedes(key, desc, b, a) && !Precedes(key, desc, c, b) ==> !Precedes(key, desc, c, a)
  {
    KeyOrder(key(a), key(b), key(a));
    KeyOrder(key(b), key(a), key(b));
    KeyOrder(key(a), key(b), key(c));
    KeyOrder(key(c), key(b), key(a));
    KeyOrder(key(a), key(c), key(a));
  }

  /** No element is placed after one it should precede. */
  predicate SortedBy<T>(xs: seq<T>, key: T -> SortValue, desc: bool)
  {
    forall i, j :: 0 <= i < j < |xs| ==> !Precedes(key, desc, xs[j], xs[i])
  }

  /** Insert `x` before the first element it does not follow. */
  function Insert<T>(x: T, ys: seq<T>, key: T -> SortValue, desc: bool): (r: seq<T>)
    decreases |ys|
  {
    if ys == [] || !Precedes(key, desc, ys[0], x) then [x] + ys
    else [ys[0]] + Insert(x, ys[1..], key, desc)
  }

  lemma {:induction false} InsertSorted<T>(x: T, ys: seq<T>, key: T -> SortValue, desc: bool)
    requires SortedBy(ys, key, desc)
    ensures SortedBy(Insert(x, ys, key, desc), key, desc)
    ensures multiset(Insert(x, ys, key, desc)) == multiset{x} + multiset(ys)
    decreases |ys|
  {
    InsertPerm(x, ys, key, desc);
    var r := Insert(x, ys, key, desc);
    if ys == [] {
    } else if !Precedes(key, desc, ys[0], x) {
      forall j | 0 <= j < |ys| ensures !Precedes(key, desc, ys[j], x) {
        if j > 0 { PrecedesOrder(key, desc, x, ys[0], ys[j]); }
      }
      assert forall j :: 1 <= j < |r| ==> r[j] == ys[j - 1];
    } else {
      var rest := Insert(x, ys[1..], key, desc);
      SortedTail(ys, key, desc);
      InsertSorted(x, ys[1..], key, desc);
      HeadPrecedesInsert(x, ys, key, desc);
      assert r == [ys[0]] + rest;
    }
  }

  /** Inserting adds exactly the one element. */
  lemma {:induction false} InsertPerm<T>(x: T, ys: seq<T>, key: T -> SortValue, desc: bool)
    ensures multiset(Insert(x, ys, key, desc)) == multiset{x} + multiset(ys)
    decreases |ys|
  {
    if ys != [] && Precedes(key, desc, ys[0], x) {
      InsertPerm(x, ys[1..], key, desc);
      assert ys == [ys[0]] + ys[1..];
    }
  }

  lemma SortedTail<T>(ys: seq<T>, key: T -> SortValue, desc: bool)
    requires ys != [] && SortedBy(ys, key, desc)
    ensures SortedBy(ys[1..], key, desc)
  {
    forall i, j | 0 <= i < j < |ys[1..]| ensures !Precedes(key, desc, ys[1..][j], ys[1..][i]) {
      assert ys[1..][j] == ys[j + 1] && ys[1..][i] == ys[i + 1];
    }
  }

  /** When the head of a sorted list goes first, nothing inserted after it
      precedes it. */
  lemma HeadPrecedesInsert<T>(x: T, ys: seq<T>, key: T -> SortValue, desc: bool)
    requires ys != [] && SortedBy(ys, key, desc) && Precedes(key, desc, ys[0], x)
    requires multiset(Insert(x, ys[1..], key, desc)) == multiset{x} + multiset(ys[1..])
    ensures forall j :: 0 <= j < |Insert(x, ys[1..], key, desc)| ==>
              !Precedes(key, desc, Insert(x, ys[1..], key, desc)[j], ys[0])
  {
    var rest := Insert(x, ys[1..], key, desc);
    forall j | 0 <= j < |rest| ensures !Precedes(key, desc, rest[j], ys[0]) {
      var z := rest[j];
      assert z in multiset(rest);
      if z == x {
        PrecedesOrder(key, desc, ys[0], x, x);
      } else {
        assert z in multiset(ys[1..]);
        var m :| 0 <= m < |ys[1..]| && ys[1..][m] == z;
        assert ys[m + 1] == z;
      }
    }
  }

  /** `xs.sort(compare)` where `compare` orders by `key` in direction `desc`. */
  function SortBy<T>(xs: seq<T>, key: T -> SortValue, desc: bool): (r: seq<T>)
    decreases |xs|
  {
    if xs == [] then [] else Insert(xs[0], SortBy(xs[1..], key, desc), key, desc)
  }

  /** The sort returns a permutation of its input ordered by the key. */
  lemma {:induction false} SortByCorrect<T>(xs: seq<T>, key: T -> SortValue, desc: bool)
    ensures SortedBy(SortBy(xs, key, desc), key, desc)
    ensures multiset(SortBy(xs, key, desc)) == multiset(xs)
    decreases |xs|
  {
    if xs != [] {
      SortByCorrect(xs[1..], key, desc);
      InsertSorted(xs[0], SortBy(xs[1..], key, desc), key, desc);
      assert xs == [xs[0]] + xs[1..];
    }
  }

  /** `xs.filter(p).sort(compare)`: exactly the elements satisfying `p`, each
      as often as in `xs`, ordered by the key. */
  function SearchAndSort<T(!new)>(xs: seq<T>, p: T -> bool, key: T -> SortValue, desc: bool): (r: seq<T>)
    ensures forall x :: x in r <==> x in xs && p(x)
    ensures SortedBy(r, key, desc)
    ensures multiset(r) == multiset(Filter(xs, p))
  {
    var kept := Filter(xs, p);
    SortByCorrect(kept, key, desc);
    var r := SortBy(kept, key, desc);
    assert forall x :: x in r <==> x in kept by {
      forall x ensures x in r <==> x in kept {
        assert x in r <==> x in multiset(r);
        assert x in kept <==> x in multiset(kept);
      }
    }
    r
  }

  /** When every element satisfies `p`, the result is a reordering of `xs`. */
  lemma SearchAllAndSort<T(!new)>(xs: seq<T>, p: T -> bool, key: T -> SortValue, desc: bool)
    requires forall x :: x in xs ==> p(x)
    ensures multiset(SearchAndSort(xs, p, key, desc)) == multiset(xs)
  {
    FilterAll(xs, p);
  }
}
