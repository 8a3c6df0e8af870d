/** Sequence operations the SQL queries of the inventory backend are built from:
    filtering (WHERE), summing and counting (SUM, COUNT), ordering (ORDER BY)
    and truncation (LIMIT). */
module Seqs {

  function Min(a: int, b: int): int { if a <= b then a else b }

  /** SUM(f(x)) over the rows of s; 0 for no rows. */
  function SumOf<T>(s: seq<T>, f: T -> int): int
  {
    if s == [] then 0 else f(s[0]) + SumOf(s[1..], f)
  }

  /** COUNT(*) of the rows of s satisfying p. */
  function CountWhere<T>(s: seq<T>, p: T -> bool): (n: nat)
    ensures n <= |s|
  {
    if s == [] then 0 else (if p(s[0]) then 1 else 0) + CountWhere(s[1..], p)
  }

  /** The rows of s that satisfy p, in their original order. */
  function Filter<T(!new)>(s: seq<T>, p: T -> bool): (r: seq<T>)
    ensures |r| == CountWhere(s, p)
    ensures forall x :: x in r <==> x in s && p(x)
    ensures multiset(r) <= multiset(s)
  {
    if s == [] then []
    else
      assert s == [s[0]] + s[1..];
      if p(s[0]) then [s[0]] + Filter(s[1..], p) else Filter(s[1..], p)
  }

  function Map<T, U>(s: seq<T>, f: T -> U): (r: seq<U>)
    ensures |r| == |s|
    ensures forall i :: 0 <= i < |s| ==> r[i] == f(s[i])
  {
    if s == [] then [] else [f(s[0])] + Map(s[1..], f)
  }

  /** LIMIT k: the first k rows, or all of them when there are fewer. */
  function Take<T>(s: seq<T>, k: nat): (r: seq<T>)
    ensures |r| == Min(k, |s|)
    ensures r == s[..|r|]
  {
    if k < |s| then s[..k] else s
  }

  /** le orders its arguments totally and transitively: ties are allowed. */
  ghost predicate TotalPreorder<T(!new)>(le: (T, T) -> bool)
  {
    && (forall a, b :: le(a, b) || le(b, a))
    && (forall a, b, c :: le(a, b) && le(b, c) ==> le(a, c))
  }

  predicate Sorted<T>(s: seq<T>, le: (T, T) -> bool)
  {
    forall i, j :: 0 <= i < j < |s| ==> le(s[i], s[j])
  }

  function Insert<T>(x: T, s: seq<T>, le: (T, T) -> bool): (r: seq<T>)
    ensures multiset(r) == multiset(s) + multiset{x}
    ensures |r| == |s| + 1
  {
    if s == [] then [x]
    else if le(x, s[0]) then [x] + s
    else
      assert s == [s[0]] + s[1..];
      [s[0]] + Insert(x, s[1..], le)
  }

  /** ORDER BY le: an insertion sort. Rows that le ranks equal keep no
      particular order, as in SQL. */
  function SortBy<T>(s: seq<T>, le: (T, T) -> bool): (r: seq<T>)
    ensures multiset(r) == multiset(s)
    ensures |r| == |s|
  {
    if s == [] then []
    else
      assert s == [s[0]] + s[1..];
      Insert(s[0], SortBy(s[1..], le), le)
  }

  lemma {:induction false} InsertSorted<T(!new)>(x: T, s: seq<T>, le: (T, T) -> bool)
    requires TotalPreorder(le)
    requires Sorted(s, le)
    ensures Sorted(Insert(x, s, le), le)
  {
    if s == [] {
    } else if le(x, s[0]) {
    } else {
      var tail := Insert(x, s[1..], le);
      InsertSorted(x, s[1..], le);
      assert le(s[0], x);
      forall j | 0 <= j < |tail| ensures le(s[0], tail[j]) {
        assert tail[j] in multiset(tail);
        assert tail[j] == x || tail[j] in multiset(s[1..]);
        if tail[j] != x {
          var k :| 0 <= k < |s[1..]| && s[1..][k] == tail[j];
          assert s[k + 1] == tail[j];
        }
      }
      assert Insert(x, s, le) == [s[0]] + tail;
    }
  }

  lemma {:induction false} SortBySorted<T(!new)>(s: seq<T>, le: (T, T) -> bool)
    requires TotalPreorder(le)
    ensures Sorted(SortBy(s, le), le)
  {
    if s != [] {
      SortBySorted(s[1..], le);
      InsertSorted(s[0], SortBy(s[1..], le), le);
    }
  }

  /** ORDER BY le LIMIT k keeps min(k, |s|) rows of s, in order, and every row
      it drops ranks no earlier than every row it keeps. */
  lemma TopRows<T(!new)>(s: seq<T>, le: (T, T) -> bool, k: nat)
    requires TotalPreorder(le)
    ensures var r := Take(SortBy(s, le), k);
      && |r| == Min(k, |s|)
      && multiset(r) <= multiset(s)
      && Sorted(r, le)
      && forall x, i :: x in multiset(s) - multiset(r) && 0 <= i < |r| ==> le(r[i], x)
  {
    SortBySorted(s, le);
    TakeSorted(SortBy(s, le), le, k);
  }

  /** The first k rows of a sorted sequence are sorted, and each of them
      ranks no later than every row left behind. */
  lemma TakeSorted<T(!new)>(sorted: seq<T>, le: (T, T) -> bool, k: nat)
    requires Sorted(sorted, le)
    ensures var r := Take(sorted, k);
      && multiset(r) <= multiset(sorted)
      && Sorted(r, le)
      && forall x, i :: x in multiset(sorted) - multiset(r) && 0 <= i < |r| ==> le(r[i], x)
  {
    var r := Take(sorted, k);
    var rest := sorted[|r|..];
    assert sorted == r + rest;
    assert multiset(sorted) == multiset(r) + multiset(rest);
    forall x, i | x in multiset(sorted) - multiset(r) && 0 <= i < |r| ensures le(r[i], x) {
      assert x in rest;
      var j :| 0 <= j < |rest| && rest[j] == x;
      assert sorted[|r| + j] == x;
    }
  }

  lemma {:induction false} SumOfAppend<T>(a: seq<T>, b: seq<T>, f: T -> int)
    ensures SumOf(a + b, f) == SumOf(a, f) + SumOf(b, f)
  {
    if a == [] {
      assert a + b == b;
    } else {
      assert (a + b)[1..] == a[1..] + b;
      SumOfAppend(a[1..], b, f);
    }
  }

  lemma SumOfRemove<T>(b: seq<T>, k: nat, f: T -> int)
    requires k < |b|
    ensures SumOf(b, f) == f(b[k]) + SumOf(b[..k] + b[k + 1..], f)
  {
    var front, back := b[..k], b[k + 1..];
    var tail := [b[k]] + back;
    assert b == front + tail;
    assert tail[1..] == back;
    assert SumOf(tail, f) == f(b[k]) + SumOf(back, f);
    SumOfAppend(front, tail, f);
    SumOfAppend(front, back, f);
  }

  lemma MultisetRemove<T>(b: seq<T>, k: nat)
    requires k < |b|
    ensures multiset(b[..k] + b[k + 1..]) == multiset(b) - multiset{b[k]}
  {
    assert b == b[..k] + [b[k]] + b[k + 1..];
  }

  /** Taking the first row of a off a and one copy of it off b keeps the
      two multisets equal. */
  lemma MultisetRemoveFirst<T>(a: seq<T>, b: seq<T>, k: nat)
    requires multiset(a) == multiset(b)
    requires k < |b| && a != [] && b[k] == a[0]
    ensures multiset(a[1..]) == multiset(b[..k] + b[k + 1..])
  {
    MultisetRemove(b, k);
    MultisetRemove(a, 0);
    assert a[..0] + a[1..] == a[1..];
  }

  /** A sum does not depend on the order of its rows. */
  lemma {:induction false} SumOfPermutation<T>(a: seq<T>, b: seq<T>, f: T -> int)
    requires multiset(a) == multiset(b)
    ensures SumOf(a, f) == SumOf(b, f)
  {
    if a == [] {
      assert |multiset(b)| == 0;
    } else {
      assert a[0] in multiset(b);
      var k :| 0 <= k < |b| && b[k] == a[0];
      var b' := b[..k] + b[k + 1..];
      MultisetRemoveFirst(a, b, k);
      SumOfPermutation(a[1..], b', f);
      SumOfRemove(b, k, f);
    }
  }

  /** Sums taken with two pointwise-related summands are related the same way. */
  lemma {:induction false} SumOfLinear<T>(s: seq<T>, f: T -> int, g: T -> int, h: T -> int)
    requires forall x :: f(x) == g(x) - h(x)
    ensures SumOf(s, f) == SumOf(s, g) - SumOf(s, h)
  {
    if s != [] {
      SumOfLinear(s[1..], f, g, h);
    }
  }

  lemma {:induction false} SumOfZero<T>(s: seq<T>, f: T -> int)
    requires forall i :: 0 <= i < |s| ==> f(s[i]) == 0
    ensures SumOf(s, f) == 0
  {
    if s != [] {
      SumOfZero(s[1..], f);
    }
  }

  lemma {:induction false} SumOfFilter<T(!new)>(s: seq<T>, p: T -> bool, f: T -> int, g: T -> int)
    requires forall x :: g(x) == if p(x) then f(x) else 0
    ensures SumOf(Filter(s, p), f) == SumOf(s, g)
  {
    if s != [] {
      SumOfFilter(s[1..], p, f, g);
    }
  }

  lemma {:induction false} SumOfMap<T, U>(s: seq<T>, m: T -> U, f: U -> int, g: T -> int)
    requires forall x :: g(x) == f(m(x))
    ensures SumOf(Map(s, m), f) == SumOf(s, g)
  {
    if s != [] {
      assert Map(s, m)[1..] == Map(s[1..], m);
      SumOfMap(s[1..], m, f, g);
    }
  }

  lemma {:induction false} CountWhereIsSum<T>(s: seq<T>, p: T -> bool, f: T -> int)
    requires forall x :: f(x) == if p(x) then 1 else 0
    ensures CountWhere(s, p) == SumOf(s, f)
  {
    if s != [] {
      CountWhereIsSum(s[1..], p, f);
    }
  }

  lemma {:induction false} CountWhereSame<T>(s: seq<T>, p: T -> bool, q: T -> bool)
    requires forall i :: 0 <= i < |s| ==> p(s[i]) == q(s[i])
    ensures CountWhere(s, p) == CountWhere(s, q)
  {
    if s != [] {
      CountWhereSame(s[1..], p, q);
    }
  }

  lemma {:induction false} SumOfAdd<T>(s: seq<T>, f: T -> int, g: T -> int, h: T -> int)
    requires forall x :: f(x) == g(x) + h(x)
    ensures SumOf(s, f) == SumOf(s, g) + SumOf(s, h)
  {
    if s != [] {
      SumOfAdd(s[1..], f, g, h);
    }
  }

  /** A sum of terms that share a factor c is c times the sum of the rest. */
  lemma {:induction false} SumOfScale<T>(s: seq<T>, f: T -> int, g: T -> int, c: int)
    requires forall x :: g(x) == f(x) * c
    ensures SumOf(s, g) == SumOf(s, f) * c
  {
    if s != [] {
      SumOfScale(s[1..], f, g, c);
      assert (f(s[0]) + SumOf(s[1..], f)) * c == f(s[0]) * c + SumOf(s[1..], f) * c;
    }
  }

  lemma {:induction false} CountWherePositive<T>(s: seq<T>, p: T -> bool)
    ensures CountWhere(s, p) > 0 <==> exists i :: 0 <= i < |s| && p(s[i])
  {
    if s != [] {
      CountWherePositive(s[1..], p);
      if exists i :: 0 <= i < |s| && p(s[i]) {
        var i :| 0 <= i < |s| && p(s[i]);
        if i > 0 {
          assert s[1..][i - 1] == s[i];
        }
      }
      if exists i :: 0 <= i < |s[1..]| && p(s[1..][i]) {
        var i :| 0 <= i < |s[1..]| && p(s[1..][i]);
        assert s[i + 1] == s[1..][i];
      }
    }
  }

  lemma {:induction false} FilterAll<T(!new)>(s: seq<T>, p: T -> bool)
    requires forall i :: 0 <= i < |s| ==> p(s[i])
    ensures Filter(s, p) == s
  {
    if s != [] {
      assert forall i :: 0 <= i < |s[1..]| ==> s[1..][i] == s[i + 1];
      FilterAll(s[1..], p);
    }
  }

  /** The rows of Map(s, f) are the images of the rows of s. */
  lemma MapMembers<T, U>(s: seq<T>, f: T -> U)
    ensures forall y :: y in Map(s, f) <==> exists x :: x in s && y == f(x)
  {
    forall y ensures y in Map(s, f) <==> exists x :: x in s && y == f(x) {
      if exists x :: x in s && y == f(x) {
        var x :| x in s && y == f(x);
        var i :| 0 <= i < |s| && s[i] == x;
        assert Map(s, f)[i] == y;
      }
    }
  }

  /** SELECT f(x) FROM s WHERE p(x) ORDER BY le: one row for each selected
      row of s, in order. */
  lemma SortedSelection<T(!new), U(!new)>(s: seq<T>, p: T -> bool, f: T -> U, le: (U, U) -> bool)
    requires TotalPreorder(le)
    ensures var r := SortBy(Map(Filter(s, p), f), le);
      && |r| == CountWhere(s, p)
      && (forall y :: y in r <==> exists x :: x in s && p(x) && y == f(x))
      && Sorted(r, le)
  {
    var all := Map(Filter(s, p), f);
    var r := SortBy(all, le);
    MapMembers(Filter(s, p), f);
    SortBySorted(all, le);
    forall y ensures y in r <==> y in all {
      assert y in r <==> y in multiset(r);
    }
  }

  /** SELECT f(x) FROM s WHERE p(x) ORDER BY le LIMIT k: at most k rows,
      each the image of a selected row, in order; a selected row whose image
      is left out ranks no earlier than any row kept. */
  lemma RankedSelection<T(!new), U(!new)>(s: seq<T>, p: T -> bool, f: T -> U, le: (U, U) -> bool, k: nat, r: seq<U>)
    requires TotalPreorder(le)
    requires r == Take(SortBy(Map(Filter(s, p), f), le), k)
    ensures |r| == Min(k, CountWhere(s, p))
    ensures multiset(r) <= multiset(Map(Filter(s, p), f))
    ensures forall i :: 0 <= i < |r| ==> exists x :: x in s && p(x) && r[i] == f(x)
    ensures Sorted(r, le)
    ensures forall x, i :: x in s && p(x) && f(x) !in r && 0 <= i < |r| ==> le(r[i], f(x))
  {
    var all := Map(Filter(s, p), f);
    TopRows(all, le, k);
    MapMembers(Filter(s, p), f);
    forall i | 0 <= i < |r| ensures exists x :: x in s && p(x) && r[i] == f(x) {
      assert r[i] in multiset(r);
      assert r[i] in all;
    }
    forall x, i | x in s && p(x) && f(x) !in r && 0 <= i < |r| ensures le(r[i], f(x)) {
      assert f(x) in all;
      assert f(x) in multiset(all) - multiset(r);
    }
  }

  predicate NoDuplicates<T(==)>(s: seq<T>)
  {
    forall i, j :: 0 <= i < j < |s| ==> s[i] != s[j]
  }

  lemma {:induction false} NoDuplicatesCount<T>(s: seq<T>)
    ensures NoDuplicates(s) <==> forall x :: multiset(s)[x] <= 1
  {
    if s != [] {
      NoDuplicatesCount(s[1..]);
      assert s == [s[0]] + s[1..];
      assert forall x :: multiset(s)[x] == multiset(s[1..])[x] + (if x == s[0] then 1 else 0);
      if NoDuplicates(s) {
        assert NoDuplicates(s[1..]) by {
          forall i, j | 0 <= i < j < |s[1..]| ensures s[1..][i] != s[1..][j] {
            assert s[1..][i] == s[i + 1] && s[1..][j] == s[j + 1];
          }
        }
      }
      if forall x :: multiset(s)[x] <= 1 {
        forall i, j | 0 <= i < j < |s| ensures s[i] != s[j] {
          if i == 0 {
            assert s[j] == s[1..][j - 1];
            assert s[j] in multiset(s[1..]);
          } else {
            assert s[i] == s[1..][i - 1] && s[j] == s[1..][j - 1];
          }
        }
      }
    }
  }

  /** Reordering rows neither creates nor removes duplicates. */
  lemma PermutationNoDuplicates<T>(a: seq<T>, b: seq<T>)
    requires multiset(a) == multiset(b)
    requires NoDuplicates(a)
    ensures NoDuplicates(b)
  {
    NoDuplicatesCount(a);
    NoDuplicatesCount(b);
  }

  lemma {:induction false} CountWhereAll<T>(s: seq<T>, p: T -> bool)
    requires forall i :: 0 <= i < |s| ==> p(s[i])
    ensures CountWhere(s, p) == |s|
  {
    if s != [] {
      assert forall i :: 0 <= i < |s[1..]| ==> s[1..][i] == s[i + 1];
      CountWhereAll(s[1..], p);
    }
  }

  /** Keeping some rows of a sequence without duplicates leaves none. */
  lemma FilterNoDuplicates<T(!new)>(s: seq<T>, p: T -> bool)
    requires NoDuplicates(s)
    ensures NoDuplicates(Filter(s, p))
  {
    NoDuplicatesCount(s);
    NoDuplicatesCount(Filter(s, p));
  }

  /** No two rows of s share a key. */
  predicate KeysDistinct<T, K(==)>(s: seq<T>, key: T -> K)
  {
    forall i, j :: 0 <= i < j < |s| ==> key(s[i]) != key(s[j])
  }

  /** A row at two positions of r occurs at least twice in r. */
  lemma TwoCopies<T>(r: seq<T>, i: nat, j: nat)
    requires i < j < |r| && r[i] == r[j]
    ensures multiset(r)[r[i]] >= 2
  {
    assert r == r[..j] + [r[j]] + r[j + 1..];
    assert r[i] in r[..j];
  }

  /** Rows drawn from s, each at most as often as in s, share no key when the
      rows of s share none. */
  lemma SubmultisetKeysDistinct<T, K>(r: seq<T>, s: seq<T>, key: T -> K)
    requires multiset(r) <= multiset(s)
    requires KeysDistinct(s, key)
    ensures KeysDistinct(r, key)
  {
    assert NoDuplicates(s);
    NoDuplicatesCount(s);
    forall i, j | 0 <= i < j < |r| ensures key(r[i]) != key(r[j]) {
      if key(r[i]) == key(r[j]) {
        assert r[i] in multiset(s) && r[j] in multiset(s);
        var a :| 0 <= a < |s| && s[a] == r[i];
        var b :| 0 <= b < |s| && s[b] == r[j];
        assert a == b;
        TwoCopies(r, i, j);
        assert false;
      }
    }
  }

  /** Mapping rows to rows that carry the old key keeps the keys distinct. */
  lemma MapKeysDistinct<T, U, K>(s: seq<T>, f: T -> U, key: T -> K, key': U -> K)
    requires KeysDistinct(s, key)
    requires forall x :: key'(f(x)) == key(x)
    ensures KeysDistinct(Map(s, f), key')
  {
  }
}
