/** Python's ordering of strings and its stable `sorted` / `list.sort`, which several parts of
    the system rely on for reproducible output. */
module Sorting {
  import Seqs

  /** Code-point lexicographic order, as Python compares `str`. */
  predicate StrLe(a: string, b: string) {
    if a == "" then true
    else if b == "" then false
    else if a[0] != b[0] then a[0] < b[0]
    else StrLe(a[1..], b[1..])
  }

  ghost predicate Connex<T(!new)>(le: (T, T) -> bool) {
    forall x, y :: le(x, y) || le(y, x)
  }

  ghost predicate Transitive<T(!new)>(le: (T, T) -> bool) {
    forall x, y, z :: le(x, y) && le(y, z) ==> le(x, z)
  }

  ghost predicate TotalPreorder<T(!new)>(le: (T, T) -> bool) {
    Connex(le) && Transitive(le)
  }

  ghost predicate SortedBy<T>(s: seq<T>, le: (T, T) -> bool) {
    forall i, j :: 0 <= i < j < |s| ==> le(s[i], s[j])
  }

  lemma {:induction false} StrLeTotal(a: string, b: string)
    ensures StrLe(a, b) || StrLe(b, a)
    ensures StrLe(a, b) && StrLe(b, a) ==> a == b
  {
    if a != "" && b != "" && a[0] == b[0] {
      StrLeTotal(a[1..], b[1..]);
      assert a == [a[0]] + a[1..] && b == [b[0]] + b[1..];
    }
  }

  lemma {:induction false} StrLeTransitive(a: string, b: string, c: string)
    requires StrLe(a, b) && StrLe(b, c)
    ensures StrLe(a, c)
  {
    if a != "" && a[0] == b[0] == c[0] {
      StrLeTransitive(a[1..], b[1..], c[1..]);
    }
  }

  /** The first place where two strings differ decides. */
  lemma {:induction false} StrLeAfter(prefix: string, a: string, b: string)
    ensures StrLe(prefix + a, prefix + b) <==> StrLe(a, b)
  {
    if prefix == "" {
      assert prefix + a == a && prefix + b == b;
    } else {
      assert (prefix + a)[1..] == prefix[1..] + a && (prefix + b)[1..] == prefix[1..] + b;
      StrLeAfter(prefix[1..], a, b);
    }
  }

  predicate SortsBefore(a: string, b: string) {
    StrLe(a, b) && a != b
  }

  /** Each name strictly before the next. */
  ghost predicate Alphabetical(names: seq<string>) {
    forall k :: 0 <= k < |names| - 1 ==> SortsBefore(names[k], names[k + 1])
  }

  lemma SevenInOrder(a: string, b: string, c: string, d: string, e: string, f: string, g: string)
    requires SortsBefore(a, b) && SortsBefore(b, c) && SortsBefore(c, d) && SortsBefore(d, e) && SortsBefore(e, f)
        && SortsBefore(f, g)
    ensures Alphabetical([a, b, c, d, e, f, g])
  {
    var names := [a, b, c, d, e, f, g];
    forall k | 0 <= k < |names| - 1 ensures SortsBefore(names[k], names[k + 1]) {
      assert k == 0 || k == 1 || k == 2 || k == 3 || k == 4 || k == 5;
    }
  }

  lemma {:induction false} AlphabeticalOrder(names: seq<string>, i: nat, j: nat)
    requires Alphabetical(names) && i < |names| && j < |names|
    ensures StrLe(names[i], names[j]) <==> i <= j
  {
    if i <= j {
      AlphabeticalUp(names, i, j);
    } else {
      AlphabeticalUp(names, j, i);
      if StrLe(names[i], names[j]) {
        StrLeTotal(names[i], names[j]);
        assert false;
      }
    }
  }

  lemma {:induction false} AlphabeticalUp(names: seq<string>, i: nat, j: nat)
    requires Alphabetical(names) && i <= j < |names|
    ensures StrLe(names[i], names[j]) && (i < j ==> names[i] != names[j])
    decreases j - i
  {
    StrLeTotal(names[i], names[i]);
    if i < j {
      AlphabeticalUp(names, i, j - 1);
      assert SortsBefore(names[j - 1], names[j]);
      StrLeTransitive(names[i], names[j - 1], names[j]);
      if names[i] == names[j] {
        StrLeTotal(names[j - 1], names[j]);
        assert false;
      }
    }
  }

  lemma StrLeIsTotalPreorder()
    ensures TotalPreorder(StrLe)
  {
    forall a: string, b: string ensures StrLe(a, b) || StrLe(b, a) {
      StrLeTotal(a, b);
    }
    forall a: string, b: string, c: string | StrLe(a, b) && StrLe(b, c) ensures StrLe(a, c) {
      StrLeTransitive(a, b, c);
    }
  }

  /** Puts x in front of the first element that is not below it. */
  function Insert<T>(x: T, s: seq<T>, le: (T, T) -> bool): (r: seq<T>)
    ensures multiset(r) == multiset{x} + multiset(s)
  {
    if s == [] || le(x, s[0]) then [x] + s
    else
      assert s == [s[0]] + s[1..];
      [s[0]] + Insert(x, s[1..], le)
  }

  /** Stable sort: equal elements keep the order they came in. */
  function StableSort<T>(s: seq<T>, le: (T, T) -> bool): (r: seq<T>)
    ensures |r| == |s|
    ensures multiset(r) == multiset(s)
  {
    if s == [] then []
    else
      assert s == [s[0]] + s[1..];
      var r := Insert(s[0], StableSort(s[1..], le), le);
      assert |multiset(r)| == |r| && |multiset(s)| == |s|;
      r
  }

  /** The order a stable sort by `le` establishes on a list that arrives sorted by `arrival`. */
  ghost predicate LexLe<T>(le: (T, T) -> bool, arrival: (T, T) -> bool, x: T, y: T) {
    le(x, y) && (le(y, x) ==> arrival(x, y))
  }

  ghost predicate SortedStably<T>(s: seq<T>, le: (T, T) -> bool, arrival: (T, T) -> bool) {
    forall i, j :: 0 <= i < j < |s| ==> LexLe(le, arrival, s[i], s[j])
  }

  lemma {:induction false} InsertStable<T(!new)>(x: T, s: seq<T>, le: (T, T) -> bool, arrival: (T, T) -> bool)
    requires TotalPreorder(le)
    requires SortedStably(s, le, arrival)
    requires forall y :: y in s ==> arrival(x, y)
    ensures SortedStably(Insert(x, s, le), le, arrival)
  {
    if s == [] || le(x, s[0]) {
      var r := [x] + s;
      forall i, j | 0 <= i < j < |r| ensures LexLe(le, arrival, r[i], r[j]) {
        if i == 0 {
          assert r[j] == s[j - 1] && s[j - 1] in s;
          assert j == 1 || LexLe(le, arrival, s[0], s[j - 1]);
        } else {
          assert LexLe(le, arrival, s[i - 1], s[j - 1]);
        }
      }
    } else {
      var tail := s[1..];
      forall i, j | 0 <= i < j < |tail| ensures LexLe(le, arrival, tail[i], tail[j]) {
        assert LexLe(le, arrival, s[i + 1], s[j + 1]);
      }
      InsertStable(x, tail, le, arrival);
      var t := Insert(x, tail, le);
      var r := [s[0]] + t;
      forall i, j | 0 <= i < j < |r| ensures LexLe(le, arrival, r[i], r[j]) {
        if i == 0 {
          var y := t[j - 1];
          assert y in multiset(t);
          if y != x {
            assert y in multiset(tail);
            var k :| 0 <= k < |tail| && tail[k] == y;
            assert LexLe(le, arrival, s[0], s[k + 1]);
          }
        } else {
          assert LexLe(le, arrival, t[i - 1], t[j - 1]);
        }
      }
    }
  }

  /** Sorting sorts, and elements that tie stay in arrival order. */
  lemma {:induction false} StableSortIsStable<T(!new)>(s: seq<T>, le: (T, T) -> bool, arrival: (T, T) -> bool)
    requires TotalPreorder(le)
    requires SortedBy(s, arrival)
    ensures SortedStably(StableSort(s, le), le, arrival)
  {
    if s != [] {
      var tail := s[1..];
      forall i, j | 0 <= i < j < |tail| ensures arrival(tail[i], tail[j]) {
        assert arrival(s[i + 1], s[j + 1]);
      }
      StableSortIsStable(tail, le, arrival);
      var t := StableSort(tail, le);
      forall y | y in t ensures arrival(s[0], y) {
        assert y in multiset(t) && y in multiset(tail);
        var k :| 0 <= k < |tail| && tail[k] == y;
        assert arrival(s[0], s[k + 1]);
      }
      InsertStable(s[0], t, le, arrival);
    }
  }

  lemma StableSortSorts<T(!new)>(s: seq<T>, le: (T, T) -> bool)
    requires TotalPreorder(le)
    ensures SortedBy(StableSort(s, le), le)
  {
    var any := (x: T, y: T) => true;
    StableSortIsStable(s, le, any);
    var r := StableSort(s, le);
    forall i, j | 0 <= i < j < |r| ensures le(r[i], r[j]) {
      assert LexLe(le, any, r[i], r[j]);
    }
  }

  /** The elements of p tie with each other. */
  ghost predicate Ties<T(!new)>(p: T -> bool, le: (T, T) -> bool) {
    forall x, y :: p(x) && p(y) ==> le(x, y)
  }

  lemma FilterFront<T(!new)>(x: T, s: seq<T>, p: T -> bool)
    ensures Seqs.Filter([x] + s, p) == (if p(x) then [x] else []) + Seqs.Filter(s, p)
  {
    Seqs.FilterAppend([x], s, p);
    Seqs.FilterOneMore([x], [], x, p);
  }

  lemma OneIsEmpty<T>(a: seq<T>, b: seq<T>, c: seq<T>)
    requires a == [] || b == []
    ensures a + (b + c) == b + (a + c)
  {
  }

  lemma {:induction false} InsertKeepsTies<T(!new)>(x: T, s: seq<T>, le: (T, T) -> bool, p: T -> bool)
    requires Ties(p, le)
    ensures Seqs.Filter(Insert(x, s, le), p) == (if p(x) then [x] else []) + Seqs.Filter(s, p)
  {
    FilterFront(x, s, p);
    if s != [] && !le(x, s[0]) {
      var y, tail := s[0], s[1..];
      assert s == [y] + tail;
      InsertKeepsTies(x, tail, le, p);
      FilterFront(y, Insert(x, tail, le), p);
      FilterFront(y, tail, p);
      OneIsEmpty(if p(x) then [x] else [], if p(y) then [y] else [], Seqs.Filter(tail, p));
    }
  }

  /** Elements that tie come out of the sort as they went in. */
  lemma {:induction false} StableSortKeepsTies<T(!new)>(s: seq<T>, le: (T, T) -> bool, p: T -> bool)
    requires Ties(p, le)
    ensures Seqs.Filter(StableSort(s, le), p) == Seqs.Filter(s, p)
  {
    if s != [] {
      assert s == [s[0]] + s[1..];
      StableSortKeepsTies(s[1..], le, p);
      InsertKeepsTies(s[0], StableSort(s[1..], le), le, p);
      FilterFront(s[0], s[1..], p);
    }
  }

  ghost predicate LinearOrder<T(!new)>(le: (T, T) -> bool) {
    TotalPreorder(le) && forall x, y :: le(x, y) && le(y, x) ==> x == y
  }

  /** `listing` has each element of s once, ascending. */
  ghost predicate IsListing<T(!new)>(listing: seq<T>, s: set<T>, le: (T, T) -> bool) {
    && (forall x :: x in listing <==> x in s)
    && |listing| == |s|
    && forall i, j :: 0 <= i < j < |listing| ==> le(listing[i], listing[j]) && listing[i] != listing[j]
  }

  lemma PrependLeast<T(!new)>(m: T, rest: seq<T>, s: set<T>, le: (T, T) -> bool)
    requires m in s && forall x :: x in s ==> le(m, x)
    requires IsListing(rest, s - {m}, le)
    ensures IsListing([m] + rest, s, le)
  {
    var listing := [m] + rest;
    assert |s - {m}| == |s| - 1;
    forall i, j | 0 <= i < j < |listing| ensures le(listing[i], listing[j]) && listing[i] != listing[j] {
      assert listing[j] == rest[j - 1] && rest[j - 1] in rest;
      if i > 0 {
        assert listing[i] == rest[i - 1];
      }
    }
  }

  lemma LesserIsLeast<T(!new)>(s: set<T>, y: T, m: T, le: (T, T) -> bool)
    requires y in s && m in s && TotalPreorder(le)
    requires forall x :: x in s && x != y ==> le(m, x)
    ensures exists l :: l in s && forall x :: x in s ==> le(l, x)
  {
    if le(y, m) {
      forall x | x in s ensures le(y, x) {
        assert x == y || le(m, x);
        assert le(y, y);
      }
    } else {
      assert le(m, y);
    }
  }

  lemma {:induction false} LeastExists<T(!new)>(s: set<T>, le: (T, T) -> bool)
    requires s != {} && TotalPreorder(le)
    ensures exists m :: m in s && forall x :: x in s ==> le(m, x)
  {
    var y :| y in s;
    assert le(y, y);
    if s == {y} {
      assert forall x :: x in s ==> x == y;
    } else {
      var rest := s - {y};
      LeastExists(rest, le);
      var m :| m in rest && forall x :: x in rest ==> le(m, x);
      LesserIsLeast(s, y, m, le);
    }
  }

  function Least<T(!new)>(s: set<T>, le: (T, T) -> bool): (m: T)
    requires s != {} && LinearOrder(le)
    ensures m in s && forall x :: x in s ==> le(m, x)
  {
    LeastExists(s, le);
    var m :| m in s && forall x :: x in s ==> le(m, x);
    m
  }

  /** The elements of a finite set in ascending order: Python's `sorted` of a set or dict. */
  function Listing<T(!new)>(s: set<T>, le: (T, T) -> bool): (r: seq<T>)
    requires LinearOrder(le)
    ensures IsListing(r, s, le)
  {
    if s == {} then []
    else
      var m := Least(s, le);
      var rest := Listing(s - {m}, le);
      PrependLeast(m, rest, s, le);
      [m] + rest
  }

  lemma StrLeIsLinearOrder()
    ensures LinearOrder(StrLe)
  {
    StrLeIsTotalPreorder();
    forall x: string, y: string | StrLe(x, y) && StrLe(y, x) ensures x == y {
      StrLeTotal(x, y);
    }
  }

  ghost predicate AscendingListing(listing: seq<string>, s: set<string>) {
    IsListing(listing, s, StrLe)
  }

  /** The elements of a finite set of strings, ascending. */
  function Ascending(s: set<string>): (r: seq<string>)
    ensures AscendingListing(r, s)
    ensures forall i, j :: 0 <= i < j < |r| ==> StrLe(r[i], r[j]) && r[i] != r[j]
  {
    StrLeIsLinearOrder();
    Listing(s, StrLe)
  }

  predicate IntLe(a: int, b: int) {
    a <= b
  }

  /** The elements of a finite set of integers, ascending. */
  function AscendingInts(s: set<int>): (r: seq<int>)
    ensures IsListing(r, s, IntLe)
    ensures forall i, j :: 0 <= i < j < |r| ==> r[i] < r[j]
  {
    assert LinearOrder(IntLe);
    var r := Listing(s, IntLe);
    assert forall i, j :: 0 <= i < j < |r| ==> IntLe(r[i], r[j]) && r[i] != r[j];
    r
  }
}
