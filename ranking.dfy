/**
 * Ranking users on one statistic.
 *
 * `_rank` builds an ascending ranking by inserting every report with
 * `insort` (insertion to the right of equal keys, so the order is stable),
 * then walks the ranking from the top and returns the 1-based position of the
 * first report equal to the one asked about, or 0 when there is none.
 *
 * The model is generic in the element type and takes the key as a function,
 * as the source takes a `key` callable.
 */
module Ranking {

  /** Keys never decrease along `s`. */
  predicate SortedBy<T>(s: seq<T>, k: T -> int) {
    forall i, j :: 0 <= i < j < |s| ==> k(s[i]) <= k(s[j])
  }

  /** No element occurs twice. */
  predicate Distinct<T(==)>(s: seq<T>) {
    forall i, j :: 0 <= i < j < |s| ==> s[i] != s[j]
  }

  /**
   * The position `bisect_right` finds for `key`: everything from it onwards has
   * a larger key and, when `s` is sorted, everything before it a key <= `key`.
   */
  function SplitPoint<T>(s: seq<T>, k: T -> int, key: int): (b: nat)
    ensures b <= |s|
    ensures forall i :: b <= i < |s| ==> key < k(s[i])
    ensures SortedBy(s, k) ==> forall i :: 0 <= i < b ==> k(s[i]) <= key
    decreases |s|
  {
    if s == [] || k(s[|s| - 1]) <= key then |s|
    else
      assert SortedBy(s, k) ==> SortedBy(s[..|s| - 1], k);
      SplitPoint(s[..|s| - 1], k, key)
  }

  /** Inserting `x` at index `b`: what ends up where. */
  lemma InsertAt<T>(s: seq<T>, x: T, b: nat)
    requires b <= |s|
    ensures var t := s[..b] + [x] + s[b..];
            && |t| == |s| + 1
            && (forall i :: 0 <= i < b ==> t[i] == s[i])
            && t[b] == x
            && (forall i :: b < i < |t| ==> t[i] == s[i - 1])
            && multiset(t) == multiset(s) + multiset{x}
  {
    assert s == s[..b] + s[b..];
  }

  /** Inserting at the split point keeps a ranking sorted. */
  lemma InsertSorted<T>(s: seq<T>, x: T, k: T -> int)
    requires SortedBy(s, k)
    ensures SortedBy(s[..SplitPoint(s, k, k(x))] + [x] + s[SplitPoint(s, k, k(x))..], k)
  {
    var b := SplitPoint(s, k, k(x));
    var t := s[..b] + [x] + s[b..];
    InsertAt(s, x, b);
    forall i, j | 0 <= i < j < |t|
      ensures k(t[i]) <= k(t[j])
    {
      if j < b {
        assert t[i] == s[i] && t[j] == s[j];
      } else if j == b {
        assert t[i] == s[i];
      } else if i < b {
        assert t[i] == s[i] && t[j] == s[j - 1];
      } else if i == b {
        assert t[j] == s[j - 1];
      } else {
        assert t[i] == s[i - 1] && t[j] == s[j - 1];
      }
    }
  }

  /** `insort(ranking, x, key=k)`: `x` goes right after every element whose key is <= its own. */
  function Insorted<T>(s: seq<T>, x: T, k: T -> int): (t: seq<T>)
    ensures |t| == |s| + 1
    ensures multiset(t) == multiset(s) + multiset{x}
    ensures SortedBy(s, k) ==> SortedBy(t, k)
  {
    var b := SplitPoint(s, k, k(x));
    InsertAt(s, x, b);
    if SortedBy(s, k) then InsertSorted(s, x, k); s[..b] + [x] + s[b..]
    else s[..b] + [x] + s[b..]
  }

  /** The ranking `_rank` builds: every element of `rs` inserted in turn. */
  function InsertionSort<T>(rs: seq<T>, k: T -> int): (s: seq<T>)
    ensures |s| == |rs|
    ensures multiset(s) == multiset(rs)
    ensures SortedBy(s, k)
    decreases |rs|
  {
    if rs == [] then []
    else
      assert rs == rs[..|rs| - 1] + [rs[|rs| - 1]];
      Insorted(InsertionSort(rs[..|rs| - 1], k), rs[|rs| - 1], k)
  }

  /** The elements of `s` whose key is `c`, in their order in `s`. */
  function KeyFilter<T>(s: seq<T>, k: T -> int, c: int): (f: seq<T>)
    ensures |f| <= |s|
    ensures forall i :: 0 <= i < |f| ==> k(f[i]) == c
    decreases |s|
  {
    if s == [] then []
    else KeyFilter(s[..|s| - 1], k, c) + (if k(s[|s| - 1]) == c then [s[|s| - 1]] else [])
  }

  /** How many elements of `s` have a key above `c`. */
  function CountAbove<T>(s: seq<T>, k: T -> int, c: int): (n: nat)
    ensures n <= |s|
    decreases |s|
  {
    if s == [] then 0
    else CountAbove(s[..|s| - 1], k, c) + (if k(s[|s| - 1]) > c then 1 else 0)
  }

  /** The index of the last occurrence of `x` in `s`. */
  function LastIndexOf<T(==)>(s: seq<T>, x: T): (p: nat)
    requires x in s
    ensures p < |s| && s[p] == x
    ensures forall j :: p < j < |s| ==> s[j] != x
    decreases |s|
  {
    if s[|s| - 1] == x then |s| - 1
    else
      assert s == s[..|s| - 1] + [s[|s| - 1]];
      LastIndexOf(s[..|s| - 1], x)
  }

  /** The reverse of `s`, as `reversed(...)` walks it. */
  function Reversed<T>(s: seq<T>): (r: seq<T>)
    ensures |r| == |s|
    ensures forall i :: 0 <= i < |s| ==> r[i] == s[|s| - 1 - i]
    decreases |s|
  {
    if s == [] then [] else [s[|s| - 1]] + Reversed(s[..|s| - 1])
  }

  /** Reversing only reorders: the same elements, each as often. */
  lemma {:induction false} ReversedMultiset<T>(s: seq<T>)
    ensures multiset(Reversed(s)) == multiset(s)
    decreases |s|
  {
    if s != [] {
      ReversedMultiset(s[..|s| - 1]);
      assert s == s[..|s| - 1] + [s[|s| - 1]];
    }
  }

  /** Read backwards, a sorted sequence has keys that never increase. */
  lemma ReversedSortedDescends<T>(s: seq<T>, k: T -> int)
    requires SortedBy(s, k)
    ensures forall i, j :: 0 <= i < j < |s| ==> k(Reversed(s)[i]) >= k(Reversed(s)[j])
  {
    forall i, j | 0 <= i < j < |s|
      ensures k(Reversed(s)[i]) >= k(Reversed(s)[j])
    {
      assert Reversed(s)[i] == s[|s| - 1 - i] && Reversed(s)[j] == s[|s| - 1 - j];
    }
  }

  /**
   * The 1-based position, counted from the end, of the first element of
   * `reversed(s)` equal to `x`; 0 when `x` does not occur.
   */
  function ReversedIndex<T(==)>(x: T, s: seq<T>): nat {
    if x in s then |s| - LastIndexOf(s, x) else 0
  }

  /**
   * What `_rank(r, rs, k)` returns, stated without any sorting: 0 when `r` is
   * not among `rs`; otherwise 1, plus one for every report with a strictly
   * higher key, plus one for every report with the same key that comes after
   * the last occurrence of `r` in `rs` (later insertions of equal keys land
   * above it).
   */
  function RankSpec<T(==)>(r: T, rs: seq<T>, k: T -> int): nat {
    if r in rs then 1 + CountAbove(rs, k, k(r)) + |KeyFilter(rs[LastIndexOf(rs, r) + 1..], k, k(r))|
    else 0
  }

  // ---------------------------------------------------------------------------
  // Counting and filtering over concatenations

  lemma {:induction false} CountAboveConcat<T>(a: seq<T>, b: seq<T>, k: T -> int, c: int)
    ensures CountAbove(a + b, k, c) == CountAbove(a, k, c) + CountAbove(b, k, c)
    decreases |b|
  {
    if b == [] {
      assert a + b == a;
    } else {
      var n := |b|;
      assert (a + b)[..|a + b| - 1] == a + b[..n - 1];
      assert (a + b)[|a + b| - 1] == b[n - 1];
      CountAboveConcat(a, b[..n - 1], k, c);
    }
  }

  lemma {:induction false} KeyFilterConcat<T>(a: seq<T>, b: seq<T>, k: T -> int, c: int)
    ensures KeyFilter(a + b, k, c) == KeyFilter(a, k, c) + KeyFilter(b, k, c)
    decreases |b|
  {
    if b == [] {
      assert a + b == a;
    } else {
      var n := |b|;
      assert (a + b)[..|a + b| - 1] == a + b[..n - 1];
      assert (a + b)[|a + b| - 1] == b[n - 1];
      KeyFilterConcat(a, b[..n - 1], k, c);
    }
  }

  /** No element above `c`: the count is 0. */
  lemma {:induction false} CountAboveNone<T>(s: seq<T>, k: T -> int, c: int)
    requires forall i :: 0 <= i < |s| ==> k(s[i]) <= c
    ensures CountAbove(s, k, c) == 0
    decreases |s|
  {
    if s != [] {
      CountAboveNone(s[..|s| - 1], k, c);
    }
  }

  /** Every element above `c`: all are counted, and none has key `c`. */
  lemma {:induction false} AllAbove<T>(s: seq<T>, k: T -> int, c: int)
    requires forall i :: 0 <= i < |s| ==> c < k(s[i])
    ensures CountAbove(s, k, c) == |s|
    ensures KeyFilter(s, k, c) == []
    decreases |s|
  {
    if s != [] {
      AllAbove(s[..|s| - 1], k, c);
    }
  }

  /** In a sorted sequence split at `b` around `c`, exactly the part from `b` on is above `c`. */
  lemma SplitCountAbove<T>(s: seq<T>, k: T -> int, c: int, b: nat)
    requires b <= |s|
    requires forall i :: 0 <= i < b ==> k(s[i]) <= c
    requires forall i :: b <= i < |s| ==> c < k(s[i])
    ensures CountAbove(s, k, c) == |s| - b
  {
    assert s == s[..b] + s[b..];
    CountAboveConcat(s[..b], s[b..], k, c);
    CountAboveNone(s[..b], k, c);
    AllAbove(s[b..], k, c);
  }

  // ---------------------------------------------------------------------------
  // The ranking is a stable sort

  /** One insertion step, opened up: the new ranking and where the new element lands. */
  lemma InsertionSortStep<T>(rs: seq<T>, k: T -> int)
    requires rs != []
    ensures var init, x := rs[..|rs| - 1], rs[|rs| - 1];
            var s := InsertionSort(init, k);
            var b := SplitPoint(s, k, k(x));
            rs == init + [x] && InsertionSort(rs, k) == s[..b] + [x] + s[b..]
  {
    assert rs == rs[..|rs| - 1] + [rs[|rs| - 1]];
  }

  /** Sorting keeps the number of elements above any key. */
  lemma {:induction false} InsertionSortCountAbove<T>(rs: seq<T>, k: T -> int, c: int)
    ensures CountAbove(InsertionSort(rs, k), k, c) == CountAbove(rs, k, c)
    decreases |rs|
  {
    if rs != [] {
      var init, x := rs[..|rs| - 1], rs[|rs| - 1];
      var s := InsertionSort(init, k);
      var b := SplitPoint(s, k, k(x));
      InsertionSortStep(rs, k);
      InsertionSortCountAbove(init, k, c);
      CountAboveInsert(s, x, b, k, c);
    }
  }

  /** Inserting `x` anywhere adds one element above `c` exactly when `x`'s key is above `c`. */
  lemma CountAboveInsert<T>(s: seq<T>, x: T, b: nat, k: T -> int, c: int)
    requires b <= |s|
    ensures CountAbove(s[..b] + [x] + s[b..], k, c) == CountAbove(s, k, c) + (if k(x) > c then 1 else 0)
  {
    CountAboveConcat(s[..b] + [x], s[b..], k, c);
    CountAboveConcat(s[..b], [x], k, c);
    CountAboveConcat(s[..b], s[b..], k, c);
    assert s[..b] + s[b..] == s;
    assert CountAbove([x], k, c) == (if k(x) > c then 1 else 0) by {
      assert [x][..0] == [];
    }
  }

  /** Inserting `x` before only larger keys appends it to the elements with its key. */
  lemma KeyFilterInsert<T>(s: seq<T>, x: T, b: nat, k: T -> int, c: int)
    requires b <= |s|
    requires forall i :: b <= i < |s| ==> k(x) < k(s[i])
    ensures KeyFilter(s[..b] + [x] + s[b..], k, c) == KeyFilter(s, k, c) + (if k(x) == c then [x] else [])
  {
    KeyFilterConcat(s[..b] + [x], s[b..], k, c);
    KeyFilterConcat(s[..b], [x], k, c);
    KeyFilterConcat(s[..b], s[b..], k, c);
    assert s[..b] + s[b..] == s;
    assert KeyFilter([x], k, c) == (if k(x) == c then [x] else []) by {
      assert [x][..0] == [];
    }
    if k(x) == c {
      AllAbove(s[b..], k, c);
    }
  }

  /** Stability: for every key, the elements with that key keep their relative order. */
  lemma {:induction false} InsertionSortStable<T>(rs: seq<T>, k: T -> int, c: int)
    ensures KeyFilter(InsertionSort(rs, k), k, c) == KeyFilter(rs, k, c)
    decreases |rs|
  {
    if rs != [] {
      var init, x := rs[..|rs| - 1], rs[|rs| - 1];
      var s := InsertionSort(init, k);
      var b := SplitPoint(s, k, k(x));
      InsertionSortStep(rs, k);
      InsertionSortStable(init, k, c);
      KeyFilterInsert(s, x, b, k, c);
    }
  }

  /** Inserting a new element into a sequence without repeats gives one without repeats. */
  lemma DistinctInsert<T>(s: seq<T>, x: T, b: nat)
    requires b <= |s| && Distinct(s) && x !in s
    ensures Distinct(s[..b] + [x] + s[b..])
  {
    var t := s[..b] + [x] + s[b..];
    InsertAt(s, x, b);
    forall i, j | 0 <= i < j < |t|
      ensures t[i] != t[j]
    {
      if j < b {
        assert t[i] == s[i] && t[j] == s[j];
      } else if j == b {
        assert t[i] == s[i];
      } else if i < b {
        assert t[i] == s[i] && t[j] == s[j - 1];
      } else if i == b {
        assert t[j] == s[j - 1];
      } else {
        assert t[i] == s[i - 1] && t[j] == s[j - 1];
      }
    }
  }

  /** Sorting distinct elements gives distinct elements. */
  lemma {:induction false} InsertionSortDistinct<T>(rs: seq<T>, k: T -> int)
    requires Distinct(rs)
    ensures Distinct(InsertionSort(rs, k))
    decreases |rs|
  {
    if rs != [] {
      var init, x := rs[..|rs| - 1], rs[|rs| - 1];
      var s := InsertionSort(init, k);
      var b := SplitPoint(s, k, k(x));
      InsertionSortStep(rs, k);
      assert Distinct(init);
      InsertionSortDistinct(init, k);
      assert x !in multiset(s);
      DistinctInsert(s, x, b);
    }
  }

  /** A non-empty filter for key `c` means some element has key `c`. */
  lemma {:induction false} KeyFilterWitness<T>(s: seq<T>, k: T -> int, c: int)
    requires KeyFilter(s, k, c) != []
    ensures exists i :: 0 <= i < |s| && k(s[i]) == c
    decreases |s|
  {
    var n := |s|;
    if k(s[n - 1]) != c {
      KeyFilterWitness(s[..n - 1], k, c);
      var i :| 0 <= i < n - 1 && k(s[..n - 1][i]) == c;
      assert k(s[i]) == c;
    }
  }

  /** The last element shows up among the elements with its key. */
  lemma LastKeyFiltered<T>(s: seq<T>, k: T -> int)
    requires s != []
    ensures KeyFilter(s, k, k(s[|s| - 1])) != []
  {
  }

  /** In a sorted sequence, every key that occurs is at most the key of the last element. */
  lemma KeyAtMostLast<T>(s: seq<T>, k: T -> int, c: int)
    requires SortedBy(s, k) && KeyFilter(s, k, c) != []
    ensures s != [] && c <= k(s[|s| - 1])
  {
    KeyFilterWitness(s, k, c);
    var i :| 0 <= i < |s| && k(s[i]) == c;
  }

  /** Two sorted sequences that agree key by key end with the same largest key. */
  lemma LastKeysAgree<T>(a: seq<T>, b: seq<T>, k: T -> int)
    requires a != [] && b != []
    requires SortedBy(a, k) && SortedBy(b, k)
    requires KeyFilter(a, k, k(b[|b| - 1])) == KeyFilter(b, k, k(b[|b| - 1]))
    requires KeyFilter(a, k, k(a[|a| - 1])) == KeyFilter(b, k, k(a[|a| - 1]))
    ensures k(a[|a| - 1]) == k(b[|b| - 1])
  {
    var x, y := a[|a| - 1], b[|b| - 1];
    assert KeyFilter(b, k, k(y)) != [];
    KeyAtMostLast(a, k, k(y));
    assert KeyFilter(a, k, k(x)) != [];
    KeyAtMostLast(b, k, k(x));
  }

  /** Two sorted sequences that agree key by key end with the same element. */
  lemma LastElementsAgree<T>(a: seq<T>, b: seq<T>, k: T -> int)
    requires a != [] && b != []
    requires SortedBy(a, k) && SortedBy(b, k)
    requires forall c :: KeyFilter(a, k, c) == KeyFilter(b, k, c)
    ensures a[|a| - 1] == b[|b| - 1]
  {
    var x, y := a[|a| - 1], b[|b| - 1];
    LastKeysAgree(a, b, k);
    var fa, fb := KeyFilter(a[..|a| - 1], k, k(x)), KeyFilter(b[..|b| - 1], k, k(x));
    assert KeyFilter(a, k, k(x)) == fa + [x];
    assert KeyFilter(b, k, k(x)) == fb + [y];
    assert (fa + [x])[|fa|] == x && (fb + [y])[|fb|] == y;
  }

  /** Dropping the same last element from both keeps the key-by-key agreement. */
  lemma FiltersWithoutLast<T>(a: seq<T>, b: seq<T>, a': seq<T>, b': seq<T>, x: T, k: T -> int)
    requires a == a' + [x] && b == b' + [x]
    requires forall c :: KeyFilter(a, k, c) == KeyFilter(b, k, c)
    ensures forall c :: KeyFilter(a', k, c) == KeyFilter(b', k, c)
  {
    forall c
      ensures KeyFilter(a', k, c) == KeyFilter(b', k, c)
    {
      var ea, eb := KeyFilter(a', k, c), KeyFilter(b', k, c);
      var tail := if k(x) == c then [x] else [];
      assert a[..|a| - 1] == a' && b[..|b| - 1] == b';
      assert KeyFilter(a, k, c) == ea + tail;
      assert KeyFilter(b, k, c) == eb + tail;
      assert ea == (ea + tail)[..|ea|] && eb == (eb + tail)[..|eb|];
    }
  }

  /** Sequences that agree key by key are empty together. */
  lemma BothNonEmpty<T>(a: seq<T>, b: seq<T>, k: T -> int)
    requires a != [] || b != []
    requires forall c :: KeyFilter(a, k, c) == KeyFilter(b, k, c)
    ensures a != [] && b != []
  {
    var s := if a != [] then a else b;
    var c := k(s[|s| - 1]);
    LastKeyFiltered(s, k);
    assert KeyFilter(a, k, c) == KeyFilter(b, k, c);
  }

  /**
   * One step of the uniqueness argument: two sorted sequences that agree key by
   * key, not both empty, end with the same element, and what precedes it agrees
   * key by key again.
   */
  lemma PeelLast<T>(a: seq<T>, b: seq<T>, k: T -> int) returns (a': seq<T>, b': seq<T>, x: T)
    requires a != [] || b != []
    requires SortedBy(a, k) && SortedBy(b, k)
    requires forall c :: KeyFilter(a, k, c) == KeyFilter(b, k, c)
    ensures a == a' + [x] && b == b' + [x]
    ensures SortedBy(a', k) && SortedBy(b', k)
    ensures forall c :: KeyFilter(a', k, c) == KeyFilter(b', k, c)
  {
    BothNonEmpty(a, b, k);
    x := a[|a| - 1];
    a', b' := a[..|a| - 1], b[..|b| - 1];
    LastElementsAgree(a, b, k);
    assert a == a' + [x] && b == b' + [x];
    FiltersWithoutLast(a, b, a', b', x, k);
  }

  /**
   * A stable sort has only one possible result: two sorted sequences that agree,
   * key by key, on the order of their elements are equal.
   */
  lemma {:induction false} StableSortUnique<T>(a: seq<T>, b: seq<T>, k: T -> int)
    requires SortedBy(a, k) && SortedBy(b, k)
    requires forall c :: KeyFilter(a, k, c) == KeyFilter(b, k, c)
    ensures a == b
    decreases |a| + |b|
  {
    if a != [] || b != [] {
      var a', b', x := PeelLast(a, b, k);
      StableSortUnique(a', b', k);
    }
  }

  /**
   * Any sorted sequence that is a stable rearrangement of `rs` is the
   * insertion-sorted ranking. This is why the leaderboard's `sorted(...)` is
   * modelled by `InsertionSort`.
   */
  lemma StableSortIsInsertionSort<T>(rs: seq<T>, s: seq<T>, k: T -> int)
    requires SortedBy(s, k)
    requires forall c :: KeyFilter(s, k, c) == KeyFilter(rs, k, c)
    ensures s == InsertionSort(rs, k)
  {
    forall c
      ensures KeyFilter(s, k, c) == KeyFilter(InsertionSort(rs, k), k, c)
    {
      InsertionSortStable(rs, k, c);
    }
    StableSortUnique(s, InsertionSort(rs, k), k);
  }

  // ---------------------------------------------------------------------------
  // The rank

  /** Any index holding `x` with no `x` after it is the last index of `x`. */
  lemma LastIndexOfIs<T>(s: seq<T>, x: T, p: nat)
    requires p < |s| && s[p] == x
    requires forall j :: p < j < |s| ==> s[j] != x
    ensures LastIndexOf(s, x) == p
  {
  }

  /**
   * How the closed form changes when one more report `x` joins at the end:
   * `x` itself is ranked below exactly the higher keys, and every report already
   * present moves down by one when `x`'s key is at least its own.
   */
  lemma RankSpecAppend<T>(r: T, init: seq<T>, x: T, k: T -> int)
    ensures RankSpec(r, init + [x], k)
         == if x == r then 1 + CountAbove(init, k, k(r))
            else if r in init then RankSpec(r, init, k) + (if k(x) >= k(r) then 1 else 0)
            else 0
  {
    if x == r {
      RankSpecAppendSelf(init, x, k);
    } else if r in init {
      RankSpecAppendOther(r, init, x, k);
    } else {
      assert r !in init + [x];
    }
  }

  /** Appending one element adds one to the count above `c` exactly when its key is above `c`. */
  lemma CountAboveAppend<T>(init: seq<T>, x: T, k: T -> int, c: int)
    ensures CountAbove(init + [x], k, c) == CountAbove(init, k, c) + (if k(x) > c then 1 else 0)
  {
    assert (init + [x])[..|init|] == init;
  }

  /** Appending one element extends the filter for its own key by that element. */
  lemma KeyFilterAppend<T>(init: seq<T>, x: T, k: T -> int, c: int)
    ensures KeyFilter(init + [x], k, c) == KeyFilter(init, k, c) + (if k(x) == c then [x] else [])
  {
    assert (init + [x])[..|init|] == init;
  }

  /** A report appended last is ranked just below the reports with a higher key. */
  lemma RankSpecAppendSelf<T>(init: seq<T>, x: T, k: T -> int)
    ensures RankSpec(x, init + [x], k) == 1 + CountAbove(init, k, k(x))
  {
    var rs := init + [x];
    CountAboveAppend(init, x, k, k(x));
    LastIndexOfIs(rs, x, |init|);
    assert rs[|init| + 1..] == [];
  }

  /** A report already present moves down by one when the appended key is at least its own. */
  lemma RankSpecAppendOther<T>(r: T, init: seq<T>, x: T, k: T -> int)
    requires r in init && x != r
    ensures RankSpec(r, init + [x], k) == RankSpec(r, init, k) + (if k(x) >= k(r) then 1 else 0)
  {
    var rs := init + [x];
    CountAboveAppend(init, x, k, k(r));
    var q := LastIndexOf(init, r);
    LastIndexOfIs(rs, r, q);
    assert rs[q + 1..] == init[q + 1..] + [x];
    KeyFilterAppend(init[q + 1..], x, k, k(r));
  }

  /**
   * How the position counted from the top changes when `x` is inserted at a
   * split point `b` for its key: `x` lands at `b`, reports with a key <= `x`'s
   * move down by one, the others keep their position.
   */
  lemma ReversedIndexInsert<T>(r: T, s: seq<T>, x: T, b: nat, k: T -> int)
    requires b <= |s|
    requires forall i :: 0 <= i < b ==> k(s[i]) <= k(x)
    requires forall i :: b <= i < |s| ==> k(x) < k(s[i])
    ensures ReversedIndex(r, s[..b] + [x] + s[b..])
         == if x == r then |s| + 1 - b
            else if r in s then ReversedIndex(r, s) + (if k(x) >= k(r) then 1 else 0)
            else 0
  {
    var t := s[..b] + [x] + s[b..];
    InsertAt(s, x, b);
    if x == r {
      forall j | b < j < |t|
        ensures t[j] != r
      {
        assert t[j] == s[j - 1];
      }
      LastIndexOfIs(t, r, b);
    } else if r in s {
      var p := LastIndexOf(s, r);
      if k(x) >= k(r) {
        assert p < b;
        forall j | p < j < |t|
          ensures t[j] != r
        {
          if j < b {
            assert t[j] == s[j];
          } else if j > b {
            assert t[j] == s[j - 1];
          }
        }
        LastIndexOfIs(t, r, p);
      } else {
        assert b <= p;
        forall j | p + 1 < j < |t|
          ensures t[j] != r
        {
          assert t[j] == s[j - 1];
        }
        LastIndexOfIs(t, r, p + 1);
      }
    } else {
      assert r !in multiset(t);
    }
  }

  /**
   * The position `_rank` finds by walking the insertion-sorted ranking from the
   * top is the closed form `RankSpec`.
   */
  lemma {:induction false} RankFromSort<T>(r: T, rs: seq<T>, k: T -> int)
    ensures ReversedIndex(r, InsertionSort(rs, k)) == RankSpec(r, rs, k)
    decreases |rs|
  {
    if rs != [] {
      var init, x := rs[..|rs| - 1], rs[|rs| - 1];
      var s := InsertionSort(init, k);
      var b := SplitPoint(s, k, k(x));
      InsertionSortStep(rs, k);
      RankSpecAppend(r, init, x, k);
      ReversedIndexInsert(r, s, x, b, k);
      assert r in s <==> r in multiset(init);
      if x == r {
        SplitCountAbove(s, k, k(x), b);
        InsertionSortCountAbove(init, k, k(x));
      } else if r in init {
        RankFromSort(r, init, k);
      }
    }
  }

  /** Only reports that take part are ranked, and a rank is one of 1..|rs|. */
  lemma RankBounds<T>(r: T, rs: seq<T>, k: T -> int)
    ensures r in rs <==> RankSpec(r, rs, k) != 0
    ensures RankSpec(r, rs, k) <= |rs|
  {
    RankFromSort(r, rs, k);
    if r in rs {
      assert r in multiset(InsertionSort(rs, k));
    }
  }

  /** Two different reports that both take part never share a rank. */
  lemma RankInjective<T>(r1: T, r2: T, rs: seq<T>, k: T -> int)
    requires r1 in rs && r2 in rs && r1 != r2
    ensures RankSpec(r1, rs, k) != RankSpec(r2, rs, k)
  {
    RankFromSort(r1, rs, k);
    RankFromSort(r2, rs, k);
    var s := InsertionSort(rs, k);
    assert r1 in multiset(s) && r2 in multiset(s);
    assert s[LastIndexOf(s, r1)] != s[LastIndexOf(s, r2)];
  }

  /** In a sorted sequence the last occurrence of a higher key comes after that of a lower one. */
  lemma SortedLastIndexOrder<T>(s: seq<T>, k: T -> int, r1: T, r2: T)
    requires SortedBy(s, k) && r1 in s && r2 in s && k(r1) > k(r2)
    ensures LastIndexOf(s, r2) < LastIndexOf(s, r1)
  {
    var p1, p2 := LastIndexOf(s, r1), LastIndexOf(s, r2);
    assert k(s[p1]) > k(s[p2]);
  }

  /** A strictly higher key means a strictly better (smaller) rank. */
  lemma RankHigherKeyBetter<T>(r1: T, r2: T, rs: seq<T>, k: T -> int)
    requires r1 in rs && r2 in rs && k(r1) > k(r2)
    ensures RankSpec(r1, rs, k) < RankSpec(r2, rs, k)
  {
    var s := InsertionSort(rs, k);
    RankFromSort(r1, rs, k);
    RankFromSort(r2, rs, k);
    assert r1 in multiset(s) && r2 in multiset(s);
    SortedLastIndexOrder(s, k, r1, r2);
  }

  /** Among elements with key `c`, fewer come after a later position than after an earlier one. */
  lemma LaterTailShorter<T>(s: seq<T>, k: T -> int, c: int, p: nat, q: nat)
    requires p < q < |s| && k(s[q]) == c
    ensures |KeyFilter(s[q + 1..], k, c)| < |KeyFilter(s[p + 1..], k, c)|
  {
    assert s[p + 1..] == s[p + 1..q] + [s[q]] + s[q + 1..];
    KeyFilterConcat(s[p + 1..q] + [s[q]], s[q + 1..], k, c);
    KeyFilterAppend(s[p + 1..q], s[q], k, c);
  }

  /** Among equal keys, the report whose last occurrence in `rs` comes later ranks better. */
  lemma RankTieLaterBetter<T>(r1: T, r2: T, rs: seq<T>, k: T -> int)
    requires r1 in rs && r2 in rs && k(r1) == k(r2)
    requires LastIndexOf(rs, r2) < LastIndexOf(rs, r1)
    ensures RankSpec(r1, rs, k) < RankSpec(r2, rs, k)
  {
    LaterTailShorter(rs, k, k(r1), LastIndexOf(rs, r2), LastIndexOf(rs, r1));
  }

  /**
   * With distinct reports, the element at 0-based index `i` of the reversed
   * ranking has rank `i + 1`: walking `reversed(sorted(...))` with a counter
   * started at 1 yields exactly the ranks.
   */
  lemma ReversedPositionIsRank<T>(rs: seq<T>, k: T -> int, i: nat)
    requires Distinct(rs) && i < |rs|
    ensures RankSpec(Reversed(InsertionSort(rs, k))[i], rs, k) == i + 1
  {
    var s := InsertionSort(rs, k);
    InsertionSortDistinct(rs, k);
    ReversedIndexAt(s, i);
    RankFromSort(s[|s| - 1 - i], rs, k);
  }

  /** In a sequence without repetitions, the `i`-th element read backwards sits `i + 1` from the end. */
  lemma ReversedIndexAt<T>(s: seq<T>, i: nat)
    requires Distinct(s) && i < |s|
    ensures Reversed(s)[i] == s[|s| - 1 - i]
    ensures ReversedIndex(s[|s| - 1 - i], s) == i + 1
  {
    LastIndexOfIs(s, s[|s| - 1 - i], |s| - 1 - i);
  }

  // ---------------------------------------------------------------------------
  // The loops

  /** `bisect_right(a, key, key=k)` on a sorted ranking: a binary search for the split point. */
  method BisectRight<T>(a: seq<T>, k: T -> int, key: int) returns (lo: nat)
    requires SortedBy(a, k)
    ensures lo == SplitPoint(a, k, key)
  {
    ghost var b := SplitPoint(a, k, key);
    lo := 0;
    var hi := |a|;
    while lo < hi
      invariant 0 <= lo <= b <= hi <= |a|
      decreases hi - lo
    {
      var mid := (lo + hi) / 2;
      if key < k(a[mid]) {
        hi := mid;
      } else {
        lo := mid + 1;
      }
    }
  }

  /** The insertion loop of `_rank`: every report of `rs`, in order, is `insort`ed into the ranking. */
  method BuildRanking<T>(rs: seq<T>, k: T -> int) returns (ranking: seq<T>)
    ensures ranking == InsertionSort(rs, k)
  {
    ranking := [];
    for n := 0 to |rs|
      invariant ranking == InsertionSort(rs[..n], k)
    {
      var b := BisectRight(ranking, k, k(rs[n]));
      InsertionSortExtend(rs, n, k);
      ranking := ranking[..b] + [rs[n]] + ranking[b..];
    }
    assert rs[..|rs|] == rs;
  }

  /** One more insertion step extends the ranking of a prefix. */
  lemma InsertionSortExtend<T>(rs: seq<T>, n: nat, k: T -> int)
    requires n < |rs|
    ensures InsertionSort(rs[..n + 1], k) == Insorted(InsertionSort(rs[..n], k), rs[n], k)
  {
    assert rs[..n + 1][..n] == rs[..n];
  }

  /**
   * The search loop of `_rank`: walk `reversed(ranking)` counting from 1 and
   * stop at the first element equal to `r`; 0 when the walk finds none.
   */
  method PositionFromTop<T(==)>(r: T, ranking: seq<T>) returns (pos: nat)
    ensures pos == ReversedIndex(r, ranking)
  {
    var i := 1;
    while i <= |ranking|
      invariant 1 <= i <= |ranking| + 1
      invariant forall j :: |ranking| - i < j < |ranking| ==> ranking[j] != r
    {
      if ranking[|ranking| - i] == r {
        LastIndexOfIs(ranking, r, |ranking| - i);
        return i;
      }
      i := i + 1;
    }
    return 0;
  }

  /**
   * `_rank`: insert every report into an initially empty ranking, then return
   * the 1-based position of `r` counted from the top, or 0.
   */
  method Rank<T(==)>(r: T, rs: seq<T>, k: T -> int) returns (pos: nat)
    ensures pos == RankSpec(r, rs, k)
  {
    var ranking := BuildRanking(rs, k);
    pos := PositionFromTop(r, ranking);
    RankFromSort(r, rs, k);
  }
}
