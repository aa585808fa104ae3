/**
 * Rows of a table as a sequence: selecting the rows that satisfy a condition, summing a
 * column, and the order that an `ORDER BY` clause puts them in.
 */
module Ordering {

  /** The rows of `s` that satisfy `p`, in table order (`WHERE p`). */
  function Keep<T(!new)>(s: seq<T>, p: T -> bool): (r: seq<T>)
    ensures |r| <= |s|
    ensures forall x :: x in r <==> x in s && p(x)
    ensures forall i :: 0 <= i < |r| ==> p(r[i])
    ensures |r| == |s| ==> forall i :: 0 <= i < |s| ==> p(s[i])
  {
    if s == [] then []
    else if p(s[0]) then [s[0]] + Keep(s[1..], p)
    else Keep(s[1..], p)
  }

  /** Selecting twice selects the rows satisfying both conditions. */
  lemma {:induction false} KeepKeep<T(!new)>(s: seq<T>, p: T -> bool, q: T -> bool, both: T -> bool)
    requires forall x :: both(x) == (p(x) && q(x))
    ensures Keep(Keep(s, p), q) == Keep(s, both)
  {
    if s != [] {
      KeepKeep(s[1..], p, q, both);
      if p(s[0]) {
        assert Keep(s, p) == [s[0]] + Keep(s[1..], p);
        assert ([s[0]] + Keep(s[1..], p))[1..] == Keep(s[1..], p);
      }
    }
  }

  /** A condition every row satisfies keeps the table as it is. */
  lemma {:induction false} KeepAll<T(!new)>(s: seq<T>, p: T -> bool)
    requires forall i :: 0 <= i < |s| ==> p(s[i])
    ensures Keep(s, p) == s
  {
    if s != [] {
      KeepAll(s[1..], p);
    }
  }

  /** Selection distributes over a split of the table. */
  lemma {:induction false} KeepAppend<T(!new)>(s: seq<T>, t: seq<T>, p: T -> bool)
    ensures Keep(s + t, p) == Keep(s, p) + Keep(t, p)
  {
    if s == [] {
      assert s + t == t;
    } else {
      assert (s + t)[1..] == s[1..] + t;
      KeepAppend(s[1..], t, p);
    }
  }

  /** Conditions that agree on every row select the same rows. */
  lemma {:induction false} KeepSame<T(!new)>(s: seq<T>, p: T -> bool, q: T -> bool)
    requires forall x :: x in s ==> p(x) == q(x)
    ensures Keep(s, p) == Keep(s, q)
  {
    if s != [] {
      KeepSame(s[1..], p, q);
    }
  }

  lemma KeepAppendOne<T(!new)>(s: seq<T>, x: T, p: T -> bool)
    ensures Keep(s + [x], p) == Keep(s, p) + (if p(x) then [x] else [])
  {
    KeepAppend(s, [x], p);
    assert [x][1..] == [];
  }

  /** Replacing a selected row by another selected row replaces it in the selection; replacing
      an unselected row by another unselected row leaves the selection as it is. */
  lemma KeepUpdate<T(!new)>(s: seq<T>, i: nat, x: T, p: T -> bool)
    requires i < |s| && p(s[i]) == p(x)
    ensures p(x) ==> Keep(s, p) == Keep(s[..i], p) + [s[i]] + Keep(s[i + 1..], p)
    ensures p(x) ==> Keep(s[i := x], p) == Keep(s[..i], p) + [x] + Keep(s[i + 1..], p)
    ensures !p(x) ==> Keep(s[i := x], p) == Keep(s, p)
  {
    assert s == s[..i] + [s[i]] + s[i + 1..];
    assert s[i := x] == s[..i] + [x] + s[i + 1..];
    KeepAppend(s[..i] + [s[i]], s[i + 1..], p);
    KeepAppendOne(s[..i], s[i], p);
    KeepAppend(s[..i] + [x], s[i + 1..], p);
    KeepAppendOne(s[..i], x, p);
  }

  /** The number of rows satisfying `p`. */
  function Count<T(!new)>(s: seq<T>, p: T -> bool): (n: nat)
    ensures n == |Keep(s, p)|
  {
    if s == [] then 0 else (if p(s[0]) then 1 else 0) + Count(s[1..], p)
  }

  /** A sum of an integer column over the rows (`reduce((sum, r) => sum + f(r), 0)`). */
  function Sum<T>(s: seq<T>, f: T -> int): int {
    if s == [] then 0 else f(s[0]) + Sum(s[1..], f)
  }

  lemma {:induction false} SumAppend<T>(s: seq<T>, t: seq<T>, f: T -> int)
    ensures Sum(s + t, f) == Sum(s, f) + Sum(t, f)
  {
    if s == [] {
      assert s + t == t;
    } else {
      assert (s + t)[1..] == s[1..] + t;
      SumAppend(s[1..], t, f);
    }
  }

  lemma SumReplace<T>(a: seq<T>, x: T, y: T, b: seq<T>, f: T -> int)
    ensures Sum(a + [x] + b, f) == Sum(a + [y] + b, f) + f(x) - f(y)
  {
    SumAppend(a + [x], b, f);
    SumAppend(a, [x], f);
    SumAppend(a + [y], b, f);
    SumAppend(a, [y], f);
  }

  /** Replacing a selected row by another selected row changes the column total of the
      selection by the difference of the two rows. */
  lemma SumKeepUpdate<T(!new)>(s: seq<T>, i: nat, x: T, p: T -> bool, f: T -> int)
    requires i < |s| && p(s[i]) && p(x)
    ensures Sum(Keep(s[i := x], p), f) == Sum(Keep(s, p), f) + f(x) - f(s[i])
  {
    KeepUpdate(s, i, x, p);
    SumReplace(Keep(s[..i], p), x, s[i], Keep(s[i + 1..], p), f);
  }

  /** Appending a selected row adds it to the column total of the selection. */
  lemma SumKeepAppendOne<T(!new)>(s: seq<T>, x: T, p: T -> bool, f: T -> int)
    requires p(x)
    ensures Sum(Keep(s + [x], p), f) == Sum(Keep(s, p), f) + f(x)
  {
    KeepAppendOne(s, x, p);
    SumAppend(Keep(s, p), [x], f);
    assert [x][1..] == [];
  }

  lemma {:induction false} SumNonNegative<T>(s: seq<T>, f: T -> int)
    requires forall i :: 0 <= i < |s| ==> f(s[i]) >= 0
    ensures Sum(s, f) >= 0
  {
    if s != [] {
      SumNonNegative(s[1..], f);
    }
  }

  /** The first `n` rows (`LIMIT n`): a prefix, which is the whole table when it is short. */
  function Limit<T>(s: seq<T>, n: nat): (r: seq<T>)
    ensures r <= s
    ensures |r| <= n
    ensures |r| < n ==> r == s
  {
    if |s| <= n then s else s[..n]
  }

  // ---------------------------------------------------------------------------
  // ORDER BY

  /** `le` orders any two rows and is transitive. */
  ghost predicate TotalPreorder<T(!new)>(le: (T, T) -> bool) {
    && (forall a, b :: le(a, b) || le(b, a))
    && (forall a, b, c :: le(a, b) && le(b, c) ==> le(a, c))
  }

  predicate SortedBy<T>(s: seq<T>, le: (T, T) -> bool) {
    forall i, j :: 0 <= i < j < |s| ==> le(s[i], s[j])
  }

  function Insert<T>(x: T, s: seq<T>, le: (T, T) -> bool): (r: seq<T>)
    ensures multiset(r) == multiset{x} + multiset(s)
    ensures |r| == |s| + 1
  {
    if s == [] || le(x, s[0]) then [x] + s
    else
      assert s == [s[0]] + s[1..];
      [s[0]] + Insert(x, s[1..], le)
  }

  lemma {:induction false} InsertSorted<T(!new)>(x: T, s: seq<T>, le: (T, T) -> bool)
    requires TotalPreorder(le) && SortedBy(s, le)
    ensures SortedBy(Insert(x, s, le), le)
  {
    if s != [] && !le(x, s[0]) {
      InsertSorted(x, s[1..], le);
      var r := Insert(x, s, le);
      var tail := Insert(x, s[1..], le);
      assert r == [s[0]] + tail;
      forall k | 0 <= k < |tail|
        ensures le(s[0], tail[k])
      {
        assert tail[k] in multiset(tail);
        assert tail[k] == x || tail[k] in s[1..];
      }
    }
  }

  /** The rows of `s` in the order `le` (`ORDER BY`): sorted, and the same rows. */
  function SortBy<T(!new)>(s: seq<T>, le: (T, T) -> bool): (r: seq<T>)
    requires TotalPreorder(le)
    ensures SortedBy(r, le)
    ensures multiset(r) == multiset(s)
  {
    if s == [] then []
    else
      var rest := SortBy(s[1..], le);
      InsertSorted(s[0], rest, le);
      assert s == [s[0]] + s[1..];
      Insert(s[0], rest, le)
  }

  /** Each sorted row is one of the table's rows (and the other way round). */
  lemma SortBySameRows<T(!new)>(s: seq<T>, le: (T, T) -> bool)
    requires TotalPreorder(le)
    ensures |SortBy(s, le)| == |s|
    ensures forall x :: x in SortBy(s, le) <==> x in s
  {
    var r := SortBy(s, le);
    assert |r| == |multiset(r)| == |multiset(s)| == |s|;
    forall x
      ensures x in r <==> x in s
    {
      assert x in r <==> x in multiset(r);
      assert x in s <==> x in multiset(s);
    }
  }

  /** `ORDER BY … LIMIT n`: the rows in the order `le`, cut to the first `n`. The result is
      sorted, is drawn from the table, has as many rows as the table allows up to `n`, and no
      row left out comes before a row kept. */
  function Top<T(!new)>(s: seq<T>, le: (T, T) -> bool, n: nat): (r: seq<T>)
    requires TotalPreorder(le)
    ensures FirstInOrder(r, s, le, n)
  {
    var sorted := SortBy(s, le);
    var r := Limit(sorted, n);
    TopSplit(sorted, r, s, le);
    r
  }

  /** `r` is what `ORDER BY le LIMIT n` may return for the table `s`: sorted, drawn from the
      table with multiplicity, as many rows as the table allows up to `n`, and no row left out
      before a row kept (ties may fall either way). */
  ghost predicate FirstInOrder<T>(r: seq<T>, s: seq<T>, le: (T, T) -> bool, n: nat) {
    && SortedBy(r, le)
    && |r| == (if |s| < n then |s| else n)
    && multiset(r) <= multiset(s)
    && (forall x, y :: x in r && y in multiset(s) - multiset(r) ==> le(x, y))
  }

  /** A sorted permutation cut at a prefix: the prefix is drawn from the table and every row
      after it is ordered after every row in it. */
  lemma TopSplit<T(!new)>(sorted: seq<T>, r: seq<T>, s: seq<T>, le: (T, T) -> bool)
    requires SortedBy(sorted, le) && multiset(sorted) == multiset(s) && r <= sorted
    ensures |sorted| == |s|
    ensures multiset(r) <= multiset(s)
    ensures forall x, y :: x in r && y in multiset(s) - multiset(r) ==> le(x, y)
  {
    assert |sorted| == |multiset(sorted)| == |multiset(s)| == |s|;
    var rest := sorted[|r|..];
    assert sorted == r + rest;
    assert multiset(s) == multiset(r) + multiset(rest);
    forall x, y | x in r && y in multiset(s) - multiset(r)
      ensures le(x, y)
    {
      assert y in multiset(rest);
      assert y in rest;
      var i :| 0 <= i < |r| && r[i] == x;
      var j :| 0 <= j < |rest| && rest[j] == y;
      assert sorted[i] == x && sorted[|r| + j] == y;
    }
  }

  // ---------------------------------------------------------------------------
  // Text order

  /** Lexicographic order of strings by code point. */
  predicate LexLe(a: string, b: string) {
    a == [] || (b != [] && (a[0] < b[0] || (a[0] == b[0] && LexLe(a[1..], b[1..]))))
  }

  lemma {:induction false} LexLeTotal(a: string, b: string)
    ensures LexLe(a, b) || LexLe(b, a)
  {
    if a != [] && b != [] && a[0] == b[0] {
      LexLeTotal(a[1..], b[1..]);
    }
  }

  lemma {:induction false} LexLeTransitive(a: string, b: string, c: string)
    requires LexLe(a, b) && LexLe(b, c)
    ensures LexLe(a, c)
  {
    if a != [] && a[0] == b[0] && b[0] == c[0] {
      LexLeTransitive(a[1..], b[1..], c[1..]);
    }
  }

  lemma LexLeIsTotalPreorder()
    ensures TotalPreorder(LexLe)
  {
    forall a, b
      ensures LexLe(a, b) || LexLe(b, a)
    {
      LexLeTotal(a, b);
    }
    forall a, b, c | LexLe(a, b) && LexLe(b, c)
      ensures LexLe(a, c)
    {
      LexLeTransitive(a, b, c);
    }
  }
}
