/** Reads over a table: `where` filters, `orderBy: { <column>: 'desc' }`,
    `take: n`, `Array.prototype.reverse` and the `[...new Set(xs)]`
    de-duplication. The
    store's order between rows with equal keys is not specified; the model's
    sort keeps such rows in table order. */
module Ordering {
  import opened Wrappers

  /** Keys never increase from left to right. */
  ghost predicate SortedDesc<T>(s: seq<T>, key: T -> int) {
    forall i, j :: 0 <= i < j < |s| ==> key(s[i]) >= key(s[j])
  }

  /** Inserts `x` into a descending sequence, before the first smaller key. */
  function Insert<T>(x: T, s: seq<T>, key: T -> int): (r: seq<T>)
    requires SortedDesc(s, key)
    ensures SortedDesc(r, key)
    ensures multiset(r) == multiset(s) + multiset{x}
    ensures |r| == |s| + 1
    ensures r[0] == x || (s != [] && r[0] == s[0])
  {
    if s == [] then [x]
    else if key(x) >= key(s[0]) then
      SortedCons(x, s, key);
      [x] + s
    else
      var rest := Insert(x, s[1..], key);
      assert s == [s[0]] + s[1..];
      SortedCons(s[0], rest, key);
      [s[0]] + rest
  }

  /** Putting a first element whose key is at least that of the old head in
      front of a descending sequence keeps it descending. */
  lemma SortedCons<T>(x: T, s: seq<T>, key: T -> int)
    requires SortedDesc(s, key)
    requires s == [] || key(x) >= key(s[0])
    ensures SortedDesc([x] + s, key)
  {
    var r := [x] + s;
    forall i, j | 0 <= i < j < |r| ensures key(r[i]) >= key(r[j]) {
      if i == 0 {
        assert r[j] == s[j - 1];
      } else {
        assert r[i] == s[i - 1] && r[j] == s[j - 1];
      }
    }
  }

  /** `orderBy: { key: 'desc' }`: the rows of `s`, each exactly as often as in
      `s`, with keys in non-increasing order. */
  function SortDesc<T>(s: seq<T>, key: T -> int): (r: seq<T>)
    ensures SortedDesc(r, key)
    ensures multiset(r) == multiset(s)
    ensures |r| == |s|
  {
    if s == [] then []
    else
      assert s == [s[0]] + s[1..];
      Insert(s[0], SortDesc(s[1..], key), key)
  }

  /** `take: n`: the first `min(n, |s|)` rows. */
  function Take<T>(s: seq<T>, n: nat): (r: seq<T>)
    ensures |r| == if |s| < n then |s| else n
    ensures r == s[..|r|]
  {
    if |s| < n then s else s[..n]
  }

  /** `orderBy: { key: 'desc' }, take: n` keeps the rows with the largest
      keys: every kept row comes from `s`, no row is kept more often than it
      occurs in `s`, and no row left out has a larger key than a kept one. */
  lemma TakeSortedIsTop<T(!new)>(s: seq<T>, key: T -> int, n: nat)
    ensures forall x :: x in Take(SortDesc(s, key), n) ==> x in s
    ensures forall x, i :: x in s && x !in Take(SortDesc(s, key), n) && 0 <= i < |Take(SortDesc(s, key), n)| ==>
      key(Take(SortDesc(s, key), n)[i]) >= key(x)
    ensures multiset(Take(SortDesc(s, key), n)) <= multiset(s)
  {
    var sorted := SortDesc(s, key);
    var r := Take(sorted, n);
    assert sorted == r + sorted[|r|..];
    assert multiset(sorted) == multiset(r) + multiset(sorted[|r|..]);
    forall x | x in r ensures x in s {
      assert x in multiset(sorted);
    }
    forall x, i | x in s && x !in r && 0 <= i < |r| ensures key(r[i]) >= key(x) {
      assert x in multiset(sorted);
      var j :| 0 <= j < |sorted| && sorted[j] == x;
      assert j >= |r|;
      assert r[i] == sorted[i];
    }
  }

  /** `s.reverse()`: the element at `k` is the one that was at `|s| - 1 - k`. */
  function Reverse<T>(s: seq<T>): (r: seq<T>)
    ensures |r| == |s|
    ensures forall k :: 0 <= k < |s| ==> r[k] == s[|s| - 1 - k]
  {
    if s == [] then [] else Reverse(s[1..]) + [s[0]]
  }

  /** The position of the first occurrence of `x` in `s`. */
  function FirstOccurrence<T(==)>(s: seq<T>, x: T): (k: nat)
    requires x in s
    ensures k < |s| && s[k] == x
    ensures forall i :: 0 <= i < k ==> s[i] != x
  {
    if s[0] == x then 0 else 1 + FirstOccurrence(s[1..], x)
  }

  /** An element of a prefix first occurs in the whole sequence where it first
      occurs in the prefix. */
  lemma FirstOccurrenceInPrefix<T>(s: seq<T>, n: nat, x: T)
    requires n <= |s| && x in s[..n]
    ensures x in s && FirstOccurrence(s, x) == FirstOccurrence(s[..n], x)
  {
    var t := s[..n];
    var k := FirstOccurrence(t, x);
    var m := FirstOccurrence(s, x);
    assert t[k] == s[k];
    assert m <= k;
    assert t[m] == s[m];
  }

  /** `[...new Set(s)]`: the distinct elements of `s`, in order of first
      occurrence. */
  function Distinct<T(==)>(s: seq<T>): (r: seq<T>)
    ensures forall i :: 0 <= i < |s| ==> s[i] in r
    ensures forall i :: 0 <= i < |r| ==> r[i] in s
    ensures forall i, j :: 0 <= i < j < |r| ==> r[i] != r[j]
    ensures |r| <= |s|
  {
    if s == [] then []
    else
      var prefix := Distinct(s[..|s| - 1]);
      assert forall i :: 0 <= i < |s| - 1 ==> s[i] == s[..|s| - 1][i];
      if s[|s| - 1] in prefix then prefix else prefix + [s[|s| - 1]]
  }

  /** The step of `Distinct`: if `prefix` lists the elements of all of `s`
      but its last in order of first occurrence, adding the last element when
      it is new keeps that order in `s`. */
  lemma ExtendInOrder<T>(s: seq<T>, prefix: seq<T>)
    requires s != []
    requires forall i :: 0 <= i < |prefix| ==> prefix[i] in s[..|s| - 1]
    requires forall i :: 0 <= i < |s| - 1 ==> s[i] in prefix
    requires forall i, j :: 0 <= i < j < |prefix| ==>
      FirstOccurrence(s[..|s| - 1], prefix[i]) < FirstOccurrence(s[..|s| - 1], prefix[j])
    ensures var r := if s[|s| - 1] in prefix then prefix else prefix + [s[|s| - 1]];
      forall i :: 0 <= i < |r| ==> r[i] in s
    ensures var r := if s[|s| - 1] in prefix then prefix else prefix + [s[|s| - 1]];
      forall i, j :: 0 <= i < j < |r| ==> FirstOccurrence(s, r[i]) < FirstOccurrence(s, r[j])
  {
    var init := s[..|s| - 1];
    var last := s[|s| - 1];
    var r := if last in prefix then prefix else prefix + [last];
    forall x | x in prefix ensures x in s && FirstOccurrence(s, x) == FirstOccurrence(init, x) {
      FirstOccurrenceInPrefix(s, |s| - 1, x);
    }
    forall i, j | 0 <= i < j < |r| ensures FirstOccurrence(s, r[i]) < FirstOccurrence(s, r[j]) {
      var a := prefix[i];
      assert r[i] == a && a in prefix;
      if j < |prefix| {
        var b := prefix[j];
        assert r[j] == b && b in prefix;
      } else {
        assert FirstOccurrence(init, a) < |init|;
      }
    }
  }

  /** `Distinct` keeps the order of first occurrence: of two kept elements,
      the earlier one occurs first in `s`. */
  lemma {:induction false} DistinctInOrder<T>(s: seq<T>)
    ensures forall i, j :: 0 <= i < j < |Distinct(s)| ==>
      FirstOccurrence(s, Distinct(s)[i]) < FirstOccurrence(s, Distinct(s)[j])
  {
    if s != [] {
      var init := s[..|s| - 1];
      DistinctInOrder(init);
      assert forall i :: 0 <= i < |s| - 1 ==> s[i] == init[i];
      ExtendInOrder(s, Distinct(init));
    }
  }

  /** The rows of `s` that satisfy `keep`, in table order: a `where` clause,
      or what a `deleteMany` with the opposite condition leaves behind. */
  function Filter<T>(s: seq<T>, keep: T -> bool): (r: seq<T>)
    ensures |r| <= |s|
  {
    if s == [] then []
    else (if keep(s[0]) then [s[0]] else []) + Filter(s[1..], keep)
  }

  /** A row is in the filtered table exactly when it is in the table and
      satisfies the condition. */
  lemma {:induction false} FilterMembers<T(!new)>(s: seq<T>, keep: T -> bool)
    ensures forall x :: x in Filter(s, keep) <==> x in s && keep(x)
  {
    if s != [] {
      FilterMembers(s[1..], keep);
      assert s == [s[0]] + s[1..];
    }
  }

  /** Every row is either kept or dropped: the rows a `deleteMany` removes
      and the rows it leaves add up to the table. */
  lemma {:induction false} FilterSplits<T(!new)>(s: seq<T>, keep: T -> bool, drop: T -> bool)
    requires forall x :: drop(x) <==> !keep(x)
    ensures |Filter(s, keep)| + |Filter(s, drop)| == |s|
  {
    if s != [] {
      FilterSplits(s[1..], keep, drop);
    }
  }

  /** Filtering twice with the same condition changes nothing the second time. */
  lemma {:induction false} FilterIdempotent<T(!new)>(s: seq<T>, keep: T -> bool)
    ensures Filter(Filter(s, keep), keep) == Filter(s, keep)
  {
    if s != [] {
      FilterIdempotent(s[1..], keep);
      if keep(s[0]) {
        var f := Filter(s, keep);
        assert f == [s[0]] + Filter(s[1..], keep);
        assert f[0] == s[0] && f[1..] == Filter(s[1..], keep);
        assert Filter(f, keep) == [s[0]] + Filter(f[1..], keep);
      } else {
        assert Filter(s, keep) == [] + Filter(s[1..], keep) == Filter(s[1..], keep);
      }
    }
  }

  /** A filter that no row satisfies leaves nothing. */
  lemma {:induction false} FilterNone<T>(s: seq<T>, keep: T -> bool)
    requires forall i :: 0 <= i < |s| ==> !keep(s[i])
    ensures Filter(s, keep) == []
  {
    if s != [] {
      FilterNone(s[1..], keep);
    }
  }

  /** A filter keeps everything exactly when every row satisfies it. */
  lemma {:induction false} FilterKeepsAll<T(!new)>(s: seq<T>, keep: T -> bool)
    ensures Filter(s, keep) == s <==> forall i :: 0 <= i < |s| ==> keep(s[i])
  {
    if s != [] {
      FilterKeepsAll(s[1..], keep);
      if !keep(s[0]) {
        assert |Filter(s, keep)| < |s|;
      } else {
        assert forall i :: 1 <= i < |s| ==> s[i] == s[1..][i - 1];
      }
    }
  }

  /** `findFirst`: the index of the first row, in table order, that satisfies
      `p`. */
  function FirstIndex<T>(s: seq<T>, p: T -> bool): (r: Option<nat>)
    ensures r.Some? ==> r.value < |s| && p(s[r.value])
    ensures r.Some? ==> forall k :: 0 <= k < r.value ==> !p(s[k])
    ensures r.None? <==> forall k :: 0 <= k < |s| ==> !p(s[k])
  {
    if s == [] then None
    else if p(s[0]) then Some(0)
    else match FirstIndex(s[1..], p)
      case None => None
      case Some(i) => Some(i + 1)
  }

  /** `s` without the row at `i`. */
  function RemoveAt<T>(s: seq<T>, i: nat): (r: seq<T>)
    requires i < |s|
    ensures |r| == |s| - 1
    ensures forall k :: 0 <= k < i ==> r[k] == s[k]
    ensures forall k :: i <= k < |r| ==> r[k] == s[k + 1]
  {
    s[..i] + s[i + 1..]
  }

  /** Replacing one row that satisfies `keep` by one that does not takes
      exactly one row out of the filter. */
  lemma {:induction false} FilterUpdateDrops<T(!new)>(s: seq<T>, i: nat, v: T, keep: T -> bool)
    requires i < |s| && keep(s[i]) && !keep(v)
    ensures |Filter(s[i := v], keep)| == |Filter(s, keep)| - 1
  {
    if i == 0 {
      assert s[i := v][1..] == s[1..];
    } else {
      FilterUpdateDrops(s[1..], i - 1, v, keep);
      assert s[i := v][1..] == s[1..][i - 1 := v];
    }
  }

  /** Removing one row that satisfies `keep` takes exactly one row out of the
      filter. */
  lemma {:induction false} FilterRemoveDrops<T(!new)>(s: seq<T>, i: nat, keep: T -> bool)
    requires i < |s| && keep(s[i])
    ensures |Filter(RemoveAt(s, i), keep)| == |Filter(s, keep)| - 1
  {
    if i == 0 {
      assert RemoveAt(s, i) == s[1..];
    } else {
      FilterRemoveDrops(s[1..], i - 1, keep);
      assert RemoveAt(s, i) == [s[0]] + RemoveAt(s[1..], i - 1);
    }
  }
}
