/** Filtering, mapping and counting over sequences, and row updates over bags. */
module Seqs {

  lemma FullPrefix<T>(s: seq<T>)
    ensures s[..|s|] == s
  {
  }

  lemma PrefixOfConcat<T>(a: seq<T>, b: seq<T>, k: nat)
    requires k <= |a| + |b|
    ensures k <= |a| ==> (a + b)[..k] == a[..k]
    ensures k >= |a| ==> (a + b)[..k] == a + b[..k - |a|]
  {
  }

  /** Every element fits its place. */
  ghost predicate EachAt<T>(s: seq<T>, p: (nat, T) -> bool) {
    forall i :: 0 <= i < |s| ==> p(i, s[i])
  }

  lemma EachAtOneMore<T>(s: seq<T>, x: T, p: (nat, T) -> bool)
    requires EachAt(s, p) && p(|s|, x)
    ensures EachAt(s + [x], p)
  {
  }

  lemma SplitLast<T>(s: seq<T>)
    requires s != []
    ensures s == s[..|s| - 1] + [s[|s| - 1]]
    ensures multiset(s) == multiset(s[..|s| - 1]) + multiset{s[|s| - 1]}
  {
    assert s == s[..|s| - 1] + [s[|s| - 1]];
  }

  /** Where an element first occurs. */
  function FirstIndex<T(==)>(s: seq<T>, x: T): (i: nat)
    requires x in s
    ensures i < |s| && s[i] == x && forall j :: 0 <= j < i ==> s[j] != x
  {
    if s[0] == x then 0
    else
      assert s == [s[0]] + s[1..];
      FirstIndex(s[1..], x) + 1
  }

  function Filter<T(!new)>(s: seq<T>, p: T -> bool): (r: seq<T>)
    ensures forall x :: x in r <==> x in s && p(x)
  {
    if s == [] then []
    else
      var n := |s| - 1;
      SplitLast(s);
      Filter(s[..n], p) + (if p(s[n]) then [s[n]] else [])
  }

  function Map<A, B>(s: seq<A>, f: A -> B): (r: seq<B>)
    ensures |r| == |s| && forall i :: 0 <= i < |s| ==> r[i] == f(s[i])
  {
    seq(|s|, i requires 0 <= i < |s| => f(s[i]))
  }

  /** A filter keeps every occurrence of what passes and nothing else. */
  lemma {:induction false} FilterCount<T(!new)>(s: seq<T>, p: T -> bool, x: T)
    ensures multiset(Filter(s, p))[x] == if p(x) then multiset(s)[x] else 0
  {
    if s != [] {
      SplitLast(s);
      FilterCount(s[..|s| - 1], p, x);
    }
  }

  /** `picked` is the elements of s that pass, in order: `at` lists their positions, ascending. */
  ghost predicate Picks<T>(s: seq<T>, p: T -> bool, picked: seq<T>, at: seq<nat>) {
    && |at| == |picked|
    && (forall i, j :: 0 <= i < j < |at| ==> at[i] < at[j])
    && (forall i :: 0 <= i < |at| ==> at[i] < |s| && picked[i] == s[at[i]])
    && (forall n :: 0 <= n < |s| ==> (p(s[n]) <==> n in at))
  }

  /** A filter is the elements that pass, in their order and each as often. */
  lemma {:induction false} FilterPicks<T(!new)>(s: seq<T>, p: T -> bool) returns (at: seq<nat>)
    ensures Picks(s, p, Filter(s, p), at)
  {
    at := [];
    if s != [] {
      var n := |s| - 1;
      var before := FilterPicks(s[..n], p);
      at := if p(s[n]) then before + [n] else before;
      PickOneMore(s, p, Filter(s[..n], p), before);
    }
  }

  lemma PickOneMore<T(!new)>(s: seq<T>, p: T -> bool, picked: seq<T>, at: seq<nat>)
    requires s != [] && Picks(s[..|s| - 1], p, picked, at)
    ensures var n := |s| - 1;
            Picks(s, p, picked + (if p(s[n]) then [s[n]] else []), if p(s[n]) then at + [n] else at)
  {
    var n := |s| - 1;
    var at' := if p(s[n]) then at + [n] else at;
    forall k | 0 <= k < |s| ensures p(s[k]) <==> k in at' {
      if k < n {
        assert s[..n][k] == s[k];
      }
    }
  }

  lemma MapAppend<A, B>(s: seq<A>, tail: seq<A>, f: A -> B)
    ensures Map(s + tail, f) == Map(s, f) + Map(tail, f)
  {
  }

  lemma {:induction false} FilterMap<A(!new), B(!new)>(s: seq<A>, f: A -> B, p: A -> bool, q: B -> bool)
    requires forall x :: x in s ==> (q(f(x)) <==> p(x))
    ensures Filter(Map(s, f), q) == Map(Filter(s, p), f)
  {
    if s != [] {
      var n := |s| - 1;
      SplitLast(s);
      FilterMap(s[..n], f, p, q);
      assert Map(s, f)[..n] == Map(s[..n], f);
      assert s[n] in s;
      MapAppend(Filter(s[..n], p), if p(s[n]) then [s[n]] else [], f);
    }
  }

  lemma MapFilterOne<A(!new), B>(x: A, p: A -> bool, f: A -> B)
    ensures Map(Filter([x], p), f) == if p(x) then [f(x)] else []
  {
    assert [x][..0] == [];
    assert Filter([x], p) == if p(x) then [x] else [];
  }

  lemma {:induction false} FilterAll<T(!new)>(s: seq<T>, p: T -> bool)
    requires forall x :: x in s ==> p(x)
    ensures Filter(s, p) == s
  {
    if s != [] {
      SplitLast(s);
      FilterAll(s[..|s| - 1], p);
    }
  }

  lemma FilterNone<T(!new)>(s: seq<T>, p: T -> bool)
    requires forall x :: x in s ==> !p(x)
    ensures Filter(s, p) == []
  {
    if s != [] {
      SplitLast(s);
      FilterNone(s[..|s| - 1], p);
    }
  }

  lemma MapFilterStep<A(!new), B>(s: seq<A>, p: A -> bool, f: A -> B)
    requires s != []
    ensures var n := |s| - 1;
            Map(Filter(s, p), f) == Map(Filter(s[..n], p), f) + (if p(s[n]) then [f(s[n])] else [])
  {
    var n := |s| - 1;
    MapAppend(Filter(s[..n], p), if p(s[n]) then [s[n]] else [], f);
  }

  lemma Assoc<T>(a: seq<T>, b: seq<T>, c: seq<T>)
    ensures a + b + c == a + (b + c)
  {
  }

  lemma FilterOneMore<T(!new)>(s: seq<T>, before: seq<T>, last: T, p: T -> bool)
    requires s != [] && s[..|s| - 1] == before && s[|s| - 1] == last
    ensures Filter(s, p) == Filter(before, p) + (if p(last) then [last] else [])
  {
  }

  lemma {:induction false} FilterAppend<T(!new)>(a: seq<T>, b: seq<T>, p: T -> bool)
    ensures Filter(a + b, p) == Filter(a, p) + Filter(b, p)
  {
    if b == [] {
      assert a + b == a;
    } else {
      var n := |b| - 1;
      PrefixOfConcat(a, b, |a| + n);
      FilterAppend(a, b[..n], p);
      FilterOneMore(a + b, a + b[..n], b[n], p);
      FilterOneMore(b, b[..n], b[n], p);
      Assoc(Filter(a, p), Filter(b[..n], p), if p(b[n]) then [b[n]] else []);
    }
  }

  /** What passes among the rows of two sequences, read off row by row. */
  lemma MapFilterAppend<A(!new), B>(a: seq<A>, b: seq<A>, p: A -> bool, f: A -> B)
    ensures Map(Filter(a + b, p), f) == Map(Filter(a, p), f) + Map(Filter(b, p), f)
  {
    FilterAppend(a, b, p);
    MapAppend(Filter(a, p), Filter(b, p), f);
  }

  lemma FilterMapStep<A, B(!new)>(s: seq<A>, f: A -> B, q: B -> bool)
    requires s != []
    ensures var n := |s| - 1;
            Filter(Map(s, f), q) == Filter(Map(s[..n], f), q) + (if q(f(s[n])) then [f(s[n])] else [])
  {
    assert Map(s, f)[..|s| - 1] == Map(s[..|s| - 1], f);
  }

  // ---- bags ----

  /** `UPDATE`: every row of a bag replaced by its image. */
  ghost function UpdateRows<A, B>(rows: multiset<A>, f: A -> B): multiset<B>
    decreases |rows|
  {
    if rows == multiset{} then multiset{}
    else
      var r :| r in rows;
      UpdateRows(rows - multiset{r}, f) + multiset{f(r)}
  }

  lemma Swap<T>(base: multiset<T>, x: T, y: T)
    ensures base + multiset{x} + multiset{y} == base + multiset{y} + multiset{x}
  {
  }

  /** It does not matter which row is updated first. */
  lemma {:induction false} UpdateRow<A, B>(rows: multiset<A>, f: A -> B, r: A)
    requires r in rows
    ensures UpdateRows(rows, f) == UpdateRows(rows - multiset{r}, f) + multiset{f(r)}
    decreases |rows|
  {
    var c :| c in rows && UpdateRows(rows, f) == UpdateRows(rows - multiset{c}, f) + multiset{f(c)};
    if c != r {
      var rest := rows - multiset{c} - multiset{r};
      assert rest == rows - multiset{r} - multiset{c};
      var base := UpdateRows(rest, f);
      assert UpdateRows(rows - multiset{c}, f) == base + multiset{f(r)} by { UpdateRow(rows - multiset{c}, f, r); }
      assert UpdateRows(rows - multiset{r}, f) == base + multiset{f(c)} by { UpdateRow(rows - multiset{r}, f, c); }
      Swap(base, f(r), f(c));
    }
  }

  lemma {:induction false} UpdateRowsOfSeq<A, B>(s: seq<A>, f: A -> B)
    ensures UpdateRows(multiset(s), f) == multiset(Map(s, f))
  {
    if s != [] {
      var n := |s| - 1;
      SplitLast(s);
      SplitLast(Map(s, f));
      assert Map(s, f)[..n] == Map(s[..n], f);
      UpdateRow(multiset(s), f, s[n]);
      assert multiset(s) - multiset{s[n]} == multiset(s[..n]);
      UpdateRowsOfSeq(s[..n], f);
    }
  }

  /** How often a row occurs after an update that at most two different rows could have become. */
  lemma {:induction false} UpdateCount<A(!new), B>(rows: multiset<A>, f: A -> B, y: B, a: A, b: A)
    requires a != b && f(a) == y && f(b) == y
    requires forall x :: f(x) == y ==> x == a || x == b
    ensures UpdateRows(rows, f)[y] == rows[a] + rows[b]
    decreases |rows|
  {
    if rows != multiset{} {
      var r :| r in rows && UpdateRows(rows, f) == UpdateRows(rows - multiset{r}, f) + multiset{f(r)};
      UpdateCount(rows - multiset{r}, f, y, a, b);
    }
  }

  lemma {:induction false} UpdateCountOne<A(!new), B>(rows: multiset<A>, f: A -> B, y: B, a: A)
    requires f(a) == y && forall x :: f(x) == y ==> x == a
    ensures UpdateRows(rows, f)[y] == rows[a]
    decreases |rows|
  {
    if rows != multiset{} {
      var r :| r in rows && UpdateRows(rows, f) == UpdateRows(rows - multiset{r}, f) + multiset{f(r)};
      UpdateCountOne(rows - multiset{r}, f, y, a);
    }
  }

  lemma {:induction false} UpdateCountNone<A(!new), B>(rows: multiset<A>, f: A -> B, y: B)
    requires forall x :: f(x) != y
    ensures UpdateRows(rows, f)[y] == 0
    decreases |rows|
  {
    if rows != multiset{} {
      var r :| r in rows && UpdateRows(rows, f) == UpdateRows(rows - multiset{r}, f) + multiset{f(r)};
      UpdateCountNone(rows - multiset{r}, f, y);
    }
  }
}
