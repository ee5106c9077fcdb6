/**
 * Row selection and ordering over tables held as sequences.
 *
 * A query `SELECT * FROM t WHERE keep ORDER BY key` is specified by
 * `Selected`: its result holds every row of `t` that satisfies `keep`, as
 * many times as the table holds it and no other row, arranged so that the
 * ordering relation holds between every earlier and every later row. The
 * order among rows with equal keys is left open, as SQL leaves it open.
 * `Query` is one such result, computed by filtering and an insertion sort.
 */
module Ordering {
  import opened Outcomes

  /** A relation usable as a sort order: total and transitive. */
  ghost predicate TotalPreorder<T(!new)>(le: (T, T) -> bool)
  {
    && (forall a, b :: le(a, b) || le(b, a))
    && (forall a, b, c :: le(a, b) && le(b, c) ==> le(a, c))
  }

  ghost predicate SortedBy<T>(s: seq<T>, le: (T, T) -> bool)
  {
    forall i, j :: 0 <= i < j < |s| ==> le(s[i], s[j])
  }

  /** `r` holds exactly the rows of `table` satisfying `keep`, counted with
      multiplicity, in some order. */
  ghost predicate Selects<T(!new)>(r: seq<T>, table: seq<T>, keep: T -> bool)
  {
    forall x :: multiset(r)[x] == if keep(x) then multiset(table)[x] else 0
  }

  /** A selected row is a row of the table that satisfies the condition. */
  lemma SelectedRow<T(!new)>(r: seq<T>, table: seq<T>, keep: T -> bool, x: T)
    requires Selects(r, table, keep)
    requires x in r
    ensures x in table && keep(x)
  {
    assert multiset(r)[x] > 0;
  }

  /** A row of the table that satisfies the condition is selected. */
  lemma RowSelected<T(!new)>(r: seq<T>, table: seq<T>, keep: T -> bool, x: T)
    requires Selects(r, table, keep)
    requires x in table && keep(x)
    ensures x in r
  {
    assert multiset(table)[x] > 0;
  }

  /** The result of `SELECT ... WHERE keep ORDER BY le`. */
  ghost predicate Selected<T(!new)>(r: seq<T>, table: seq<T>, keep: T -> bool, le: (T, T) -> bool)
  {
    Selects(r, table, keep) && SortedBy(r, le)
  }

  /** Two selected rows that the ordering strictly separates come out in
      that order. */
  lemma SelectedInOrder<T(!new)>(r: seq<T>, table: seq<T>, keep: T -> bool, le: (T, T) -> bool, x: T, y: T)
    requires Selected(r, table, keep, le)
    requires x in table && keep(x) && y in table && keep(y)
    requires x != y && !le(y, x)
    ensures x in r && y in r
    ensures forall i, j :: 0 <= i < |r| && 0 <= j < |r| && r[i] == x && r[j] == y ==> i < j
  {
  }

  /** `r` is `s` with some elements dropped and the rest in their order. */
  predicate IsSubsequence<T(==)>(r: seq<T>, s: seq<T>)
    decreases |s|
  {
    if r == [] then true
    else if s == [] then false
    else (r[0] == s[0] && IsSubsequence(r[1..], s[1..])) || IsSubsequence(r, s[1..])
  }

  /** JavaScript's `Array.prototype.filter`, and SQL's WHERE before ordering. */
  function Filter<T(!new)>(s: seq<T>, keep: T -> bool): (r: seq<T>)
    ensures Selects(r, s, keep)
    decreases |s|
  {
    if s == [] then []
    else
      var rest := Filter(s[1..], keep);
      assert s == [s[0]] + s[1..];
      if keep(s[0]) then [s[0]] + rest else rest
  }

  /** Filtering keeps the surviving rows in their original order. */
  lemma {:induction false} FilterIsSubsequence<T(!new)>(s: seq<T>, keep: T -> bool)
    ensures IsSubsequence(Filter(s, keep), s)
    decreases |s|
  {
    if s != [] {
      FilterIsSubsequence(s[1..], keep);
      var rest := Filter(s[1..], keep);
      if keep(s[0]) {
        assert ([s[0]] + rest)[1..] == rest;
      }
    }
  }

  lemma {:induction false} SubsequenceReflexive<T>(s: seq<T>)
    ensures IsSubsequence(s, s)
    decreases |s|
  {
    if s != [] {
      SubsequenceReflexive(s[1..]);
    }
  }

  /** Keeping a subsequence of a subsequence keeps a subsequence. */
  lemma {:induction false} SubsequenceTransitive<T>(a: seq<T>, b: seq<T>, c: seq<T>)
    requires IsSubsequence(a, b) && IsSubsequence(b, c)
    ensures IsSubsequence(a, c)
    decreases |c|
  {
    if a == [] {
    } else if b[0] == c[0] && IsSubsequence(b[1..], c[1..]) {
      if a[0] == b[0] && IsSubsequence(a[1..], b[1..]) {
        SubsequenceTransitive(a[1..], b[1..], c[1..]);
      } else {
        SubsequenceTransitive(a, b[1..], c[1..]);
      }
    } else {
      SubsequenceTransitive(a, b, c[1..]);
    }
  }

  /** Every element of `s` is at least `x`. */
  ghost predicate AtLeast<T>(x: T, s: seq<T>, le: (T, T) -> bool)
  {
    forall i :: 0 <= i < |s| ==> le(x, s[i])
  }

  lemma AtLeastByMultiset<T>(x: T, s: seq<T>, t: seq<T>, le: (T, T) -> bool)
    requires AtLeast(x, t, le)
    requires multiset(s) <= multiset(t)
    ensures AtLeast(x, s, le)
  {
    forall i | 0 <= i < |s|
      ensures le(x, s[i])
    {
      assert s[i] in multiset(s);
      assert s[i] in multiset(t);
      var j :| 0 <= j < |t| && t[j] == s[i];
    }
  }

  /** Inserts `x` into a sorted sequence before the first element it does
      not exceed. */
  function Insert<T(!new)>(x: T, s: seq<T>, le: (T, T) -> bool): (r: seq<T>)
    requires TotalPreorder(le)
    requires SortedBy(s, le)
    ensures multiset(r) == multiset(s) + multiset{x}
    ensures SortedBy(r, le)
    decreases |s|
  {
    if s == [] then [x]
    else if le(x, s[0]) then
      assert AtLeast(x, s, le);
      [x] + s
    else
      var rest := Insert(x, s[1..], le);
      assert s == [s[0]] + s[1..];
      assert le(s[0], x);
      assert AtLeast(s[0], s[1..] + [x], le);
      assert multiset(rest) == multiset(s[1..] + [x]);
      AtLeastByMultiset(s[0], rest, s[1..] + [x], le);
      [s[0]] + rest
  }

  /** Insertion sort; equal elements keep their relative order. */
  function Sort<T(!new)>(s: seq<T>, le: (T, T) -> bool): (r: seq<T>)
    requires TotalPreorder(le)
    ensures multiset(r) == multiset(s)
    ensures SortedBy(r, le)
    decreases |s|
  {
    if s == [] then []
    else
      assert s == [s[0]] + s[1..];
      Insert(s[0], Sort(s[1..], le), le)
  }

  /** `SELECT * FROM table WHERE keep ORDER BY le`. */
  function Query<T(!new)>(table: seq<T>, keep: T -> bool, le: (T, T) -> bool): (r: seq<T>)
    requires TotalPreorder(le)
    ensures Selected(r, table, keep, le)
    ensures |r| == |Filter(table, keep)|
  {
    var f := Filter(table, keep);
    var r := Sort(f, le);
    assert |r| == |multiset(r)| == |multiset(f)| == |f|;
    r
  }

  /** Filtering depends only on which rows the condition keeps. */
  lemma {:induction false} FilterCongruent<T(!new)>(s: seq<T>, p: T -> bool, q: T -> bool)
    requires forall x :: p(x) == q(x)
    ensures Filter(s, p) == Filter(s, q)
    decreases |s|
  {
    if s != [] {
      FilterCongruent(s[1..], p, q);
    }
  }

  /** A condition every row satisfies keeps the whole table, in order. */
  lemma {:induction false} FilterKeepsAll<T(!new)>(s: seq<T>, keep: T -> bool)
    requires forall i :: 0 <= i < |s| ==> keep(s[i])
    ensures Filter(s, keep) == s
    decreases |s|
  {
    if s != [] {
      assert forall i :: 0 <= i < |s[1..]| ==> keep(s[1..][i]) by {
        forall i | 0 <= i < |s[1..]| ensures keep(s[1..][i]) {
          assert s[1..][i] == s[i + 1];
        }
      }
      FilterKeepsAll(s[1..], keep);
      assert s == [s[0]] + s[1..];
    }
  }

  /** A condition no row satisfies keeps nothing. */
  lemma {:induction false} FilterKeepsNone<T(!new)>(s: seq<T>, keep: T -> bool)
    requires forall i :: 0 <= i < |s| ==> !keep(s[i])
    ensures Filter(s, keep) == []
    decreases |s|
  {
    if s != [] {
      assert forall i :: 0 <= i < |s[1..]| ==> !keep(s[1..][i]) by {
        forall i | 0 <= i < |s[1..]| ensures !keep(s[1..][i]) {
          assert s[1..][i] == s[i + 1];
        }
      }
      FilterKeepsNone(s[1..], keep);
    }
  }

  /** A selection has exactly as many rows as the filter it sorts. */
  lemma SelectsSize<T(!new)>(r: seq<T>, table: seq<T>, keep: T -> bool)
    requires Selects(r, table, keep)
    ensures |r| == |Filter(table, keep)|
  {
    var f := Filter(table, keep);
    assert multiset(r) == multiset(f);
    assert |r| == |multiset(r)| == |multiset(f)| == |f|;
  }

  /** Filtering two arrangements of the same rows keeps the same rows. */
  lemma FilterPermutation<T(!new)>(a: seq<T>, b: seq<T>, keep: T -> bool)
    requires multiset(a) == multiset(b)
    ensures multiset(Filter(a, keep)) == multiset(Filter(b, keep))
    ensures |Filter(a, keep)| == |Filter(b, keep)|
  {
    var fa, fb := Filter(a, keep), Filter(b, keep);
    assert forall x :: multiset(fa)[x] == multiset(fb)[x];
    assert multiset(fa) == multiset(fb);
    assert |fa| == |multiset(fa)| == |multiset(fb)| == |fb|;
  }

  /** Two disjoint filters together keep at most every row, and exactly
      every row when, and only when, each row satisfies one of them. */
  lemma {:induction false} FilterDisjointSizes<T(!new)>(s: seq<T>, p: T -> bool, q: T -> bool)
    requires forall x :: !(p(x) && q(x))
    ensures |Filter(s, p)| + |Filter(s, q)| <= |s|
    ensures (forall i :: 0 <= i < |s| ==> p(s[i]) || q(s[i])) <==>
            |Filter(s, p)| + |Filter(s, q)| == |s|
    decreases |s|
  {
    if s != [] {
      FilterDisjointSizes(s[1..], p, q);
      if forall i :: 0 <= i < |s| ==> p(s[i]) || q(s[i]) {
        assert forall i :: 0 <= i < |s[1..]| ==> p(s[1..][i]) || q(s[1..][i]) by {
          forall i | 0 <= i < |s[1..]| ensures p(s[1..][i]) || q(s[1..][i]) {
            assert s[1..][i] == s[i + 1];
          }
        }
      }
      if |Filter(s, p)| + |Filter(s, q)| == |s| {
        assert p(s[0]) || q(s[0]);
        forall i | 0 <= i < |s| ensures p(s[i]) || q(s[i]) {
          if i > 0 { assert s[i] == s[1..][i - 1]; }
        }
      }
    }
  }

  /** The first element satisfying `hit`: `const [row] = await ...where(...)`. */
  function First<T>(s: seq<T>, hit: T -> bool): (r: Option<T>)
    ensures r.Some? ==> r.value in s && hit(r.value)
    ensures r.Some? ==> exists i :: 0 <= i < |s| && s[i] == r.value && forall j :: 0 <= j < i ==> !hit(s[j])
    ensures r.None? <==> forall i :: 0 <= i < |s| ==> !hit(s[i])
    decreases |s|
  {
    if s == [] then None
    else if hit(s[0]) then Some(s[0])
    else
      var r := First(s[1..], hit);
      assert r.Some? ==> exists i :: 0 <= i < |s| && s[i] == r.value && forall j :: 0 <= j < i ==> !hit(s[j]) by {
        if r.Some? {
          var i :| 0 <= i < |s[1..]| && s[1..][i] == r.value && forall j :: 0 <= j < i ==> !hit(s[1..][j]);
          assert s[i + 1] == r.value;
          forall j | 0 <= j < i + 1 ensures !hit(s[j]) {
            if j > 0 { assert s[j] == s[1..][j - 1]; }
          }
        }
      }
      assert r.None? ==> forall i :: 0 <= i < |s| ==> !hit(s[i]) by {
        if r.None? {
          forall i | 0 <= i < |s| ensures !hit(s[i]) {
            if i > 0 { assert s[i] == s[1..][i - 1]; }
          }
        }
      }
      r
  }

  /** A row appended to a table in which no row satisfied `hit` is the
      first row that does. */
  lemma FirstOfAppended<T>(s: seq<T>, x: T, hit: T -> bool)
    requires forall i :: 0 <= i < |s| ==> !hit(s[i])
    requires hit(x)
    ensures First(s + [x], hit) == Some(x)
  {
    var t := s + [x];
    var r := First(t, hit);
    assert t[|s|] == x;
    assert forall k :: 0 <= k < |s| ==> t[k] == s[k] && !hit(t[k]);
    var i :| 0 <= i < |t| && t[i] == r.value && forall j :: 0 <= j < i ==> !hit(t[j]);
    assert i == |s|;
  }

  /** `UPDATE t SET ... WHERE hit`: `f` applied to every hit row, the rest
      left as they are, in place. */
  function UpdateWhere<T>(s: seq<T>, hit: T -> bool, f: T -> T): (r: seq<T>)
    ensures |r| == |s|
    ensures forall i :: 0 <= i < |s| ==> r[i] == if hit(s[i]) then f(s[i]) else s[i]
  {
    seq(|s|, i requires 0 <= i < |s| => if hit(s[i]) then f(s[i]) else s[i])
  }

  /** An update that keeps hit rows hit leaves the count of every row it
      does not hit as it was. */
  lemma {:induction false} UpdateWhereKeepsOthers<T>(s: seq<T>, hit: T -> bool, f: T -> T, x: T)
    requires !hit(x)
    requires forall y :: hit(y) ==> hit(f(y))
    ensures multiset(UpdateWhere(s, hit, f))[x] == multiset(s)[x]
    decreases |s|
  {
    if s != [] {
      UpdateWhereKeepsOthers(s[1..], hit, f, x);
      var u := UpdateWhere(s, hit, f);
      assert u == [u[0]] + UpdateWhere(s[1..], hit, f);
      assert s == [s[0]] + s[1..];
    }
  }

  /** Applying an idempotent update twice is applying it once. */
  lemma UpdateWhereTwice<T>(s: seq<T>, hit: T -> bool, f: T -> T)
    requires forall y :: hit(y) ==> hit(f(y)) && f(f(y)) == f(y)
    ensures UpdateWhere(UpdateWhere(s, hit, f), hit, f) == UpdateWhere(s, hit, f)
  {
  }
}
