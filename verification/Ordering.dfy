/** Sorting names by an order in which different names may tie, as those that a
    locale considers equal do. */
module Ordering {
  import opened Util

  ghost predicate TotalPreorder(le: (string, string) -> bool) {
    && (forall a, b :: le(a, b) || le(b, a))
    && (forall a, b, c :: le(a, b) && le(b, c) ==> le(a, c))
  }

  predicate Tie(le: (string, string) -> bool, a: string, b: string) {
    le(a, b) && le(b, a)
  }

  /** No two different names tie. */
  predicate Untied(le: (string, string) -> bool, names: set<string>) {
    forall a, b :: a in names && b in names && a != b ==> !Tie(le, a, b)
  }

  predicate NoDuplicates<T(==)>(s: seq<T>) {
    forall i, j :: 0 <= i < j < |s| ==> s[i] != s[j]
  }

  ghost predicate Sorted(le: (string, string) -> bool, s: seq<string>) {
    forall i, j :: 0 <= i < j < |s| ==> le(s[i], s[j])
  }

  /** The list holds each of the names once. */
  ghost predicate ListsOut(s: seq<string>, names: set<string>) {
    NoDuplicates(s) && forall x :: x in s <==> x in names
  }

  ghost predicate Before<T>(s: seq<T>, a: T, b: T) {
    exists i, j :: 0 <= i < j < |s| && s[i] == a && s[j] == b
  }

  lemma BeforeIsOneWay<T>(s: seq<T>, a: T, b: T)
    requires NoDuplicates(s) && Before(s, a, b)
    ensures !Before(s, b, a)
  {
  }

  lemma BeforeInside<T>(s: seq<T>, t: seq<T>, u: seq<T>, a: T, b: T)
    requires Before(t, a, b)
    ensures Before(s + t + u, a, b)
  {
    var i, j :| 0 <= i < j < |t| && t[i] == a && t[j] == b;
    assert (s + t + u)[|s| + i] == a && (s + t + u)[|s| + j] == b;
  }

  lemma BeforeAcross<T>(s: seq<T>, t: seq<T>, a: T, b: T)
    requires a in s && b in t
    ensures Before(s + t, a, b)
  {
    var i :| 0 <= i < |s| && s[i] == a;
    var j :| 0 <= j < |t| && t[j] == b;
    assert (s + t)[i] == a && (s + t)[|s| + j] == b;
  }

  lemma DistinctConcat<T>(s: seq<T>, t: seq<T>)
    requires NoDuplicates(s) && NoDuplicates(t) && forall x :: x in s ==> x !in t
    ensures NoDuplicates(s + t)
  {
    forall i, j | 0 <= i < |s| && 0 <= j < |t| ensures s[i] != t[j] {
      assert s[i] in s;
    }
  }

  // ----- what sorting gives -----

  lemma SortedAppend(le: (string, string) -> bool, s: seq<string>, a: string)
    requires Sorted(le, s) && forall x :: x in s ==> le(x, a)
    ensures Sorted(le, s + [a])
  {
  }

  lemma {:induction false} InsertSorted(le: (string, string) -> bool, s: seq<string>, a: string)
    requires TotalPreorder(le) && Sorted(le, s)
    ensures Sorted(le, Insert(le, s, a))
  {
    if s != [] {
      var init, last := s[..|s| - 1], s[|s| - 1];
      assert s == init + [last];
      if le(last, a) {
        forall x | x in s ensures le(x, a) {
          var i :| 0 <= i < |s| && s[i] == x;
        }
        SortedAppend(le, s, a);
      } else {
        InsertSorted(le, init, a);
        forall x | x in Insert(le, init, a) ensures le(x, last) {
          if x in init { var i :| 0 <= i < |init| && init[i] == x; assert s[i] == x; }
        }
        SortedAppend(le, Insert(le, init, a), last);
      }
    }
  }

  lemma {:induction false} SortSorts(le: (string, string) -> bool, s: seq<string>)
    requires TotalPreorder(le)
    ensures Sorted(le, Sort(le, s))
  {
    if s != [] {
      SortSorts(le, s[..|s| - 1]);
      InsertSorted(le, Sort(le, s[..|s| - 1]), s[|s| - 1]);
    }
  }

  lemma {:induction false} InsertKeepsDistinct(le: (string, string) -> bool, s: seq<string>, a: string)
    requires NoDuplicates(s) && a !in s
    ensures NoDuplicates(Insert(le, s, a))
  {
    if s != [] && !le(s[|s| - 1], a) {
      var init, last := s[..|s| - 1], s[|s| - 1];
      InsertKeepsDistinct(le, init, a);
      assert last in s && last !in init;
    }
  }

  lemma {:induction false} SortKeepsDistinct(le: (string, string) -> bool, s: seq<string>)
    requires NoDuplicates(s)
    ensures NoDuplicates(Sort(le, s))
  {
    if s != [] {
      SortKeepsDistinct(le, s[..|s| - 1]);
      InsertKeepsDistinct(le, Sort(le, s[..|s| - 1]), s[|s| - 1]);
    }
  }

  /** Without ties there is one sorted list of a set of names. */
  lemma {:induction false} SortedIsUnique(le: (string, string) -> bool, s: seq<string>, t: seq<string>,
                                          names: set<string>)
    requires TotalPreorder(le) && Untied(le, names)
    requires ListsOut(s, names) && ListsOut(t, names) && Sorted(le, s) && Sorted(le, t)
    ensures s == t
  {
    BothEmpty(s, t);
    if s != [] {
      assert s[0] in t && t[0] in s;
      assert s[0] == t[0] || Tie(le, s[0], t[0]);
      RestListsOut(s, names);
      RestListsOut(t, names);
      SortedIsUnique(le, s[1..], t[1..], names - {s[0]});
    }
  }

  lemma BothEmpty(s: seq<string>, t: seq<string>)
    requires forall x :: x in s <==> x in t
    ensures s == [] <==> t == []
  {
    if s != [] { assert s[0] in s; }
    if t != [] { assert t[0] in t; }
  }

  lemma RestListsOut(s: seq<string>, names: set<string>)
    requires s != [] && ListsOut(s, names)
    ensures ListsOut(s[1..], names - {s[0]})
  {
    forall x ensures x in s[1..] <==> x in names - {s[0]} {
      if x in s[1..] { var i :| 0 <= i < |s[1..]| && s[1..][i] == x; assert s[i + 1] == x; }
    }
  }

  // ----- ties keep the order they had -----

  lemma {:induction false} InsertGoesBehind(le: (string, string) -> bool, s: seq<string>, x: string, a: string)
    requires x in s && le(x, a)
    ensures Before(Insert(le, s, a), x, a)
  {
    var init, last := s[..|s| - 1], s[|s| - 1];
    assert s == init + [last];
    if le(last, a) {
      BeforeAcross(s, [a], x, a);
    } else {
      InsertGoesBehind(le, init, x, a);
      BeforeInside([], Insert(le, init, a), [last], x, a);
      assert [] + Insert(le, init, a) + [last] == Insert(le, s, a);
    }
  }

  lemma {:induction false} InsertKeepsBefore(le: (string, string) -> bool, s: seq<string>, x: string, y: string,
                                             a: string)
    requires Before(s, x, y)
    ensures Before(Insert(le, s, a), x, y)
  {
    var init, last := s[..|s| - 1], s[|s| - 1];
    assert s == init + [last];
    if le(last, a) {
      BeforeInside([], s, [a], x, y);
      assert [] + s + [a] == Insert(le, s, a);
    } else {
      var i, j :| 0 <= i < j < |s| && s[i] == x && s[j] == y;
      assert init[i] == x;
      if j < |init| {
        assert init[j] == y;
        InsertKeepsBefore(le, init, x, y, a);
        BeforeInside([], Insert(le, init, a), [last], x, y);
        assert [] + Insert(le, init, a) + [last] == Insert(le, s, a);
      } else {
        BeforeAcross(Insert(le, init, a), [last], x, y);
      }
    }
  }

  /** Of two names in order, or tied, the first stays in front. */
  lemma {:induction false} SortKeepsBefore(le: (string, string) -> bool, s: seq<string>, i: nat, j: nat)
    requires i < j < |s| && le(s[i], s[j])
    ensures Before(Sort(le, s), s[i], s[j])
  {
    var init := s[..|s| - 1];
    if j == |s| - 1 {
      assert init[i] == s[i];
      InsertGoesBehind(le, Sort(le, init), s[i], s[j]);
    } else {
      SortKeepsBefore(le, init, i, j);
      InsertKeepsBefore(le, Sort(le, init), s[i], s[j], s[|s| - 1]);
    }
  }

  lemma {:induction false} Enumerate(names: set<string>) returns (s: seq<string>)
    ensures ListsOut(s, names)
  {
    if names == {} {
      s := [];
    } else {
      var x :| x in names;
      var rest := Enumerate(names - {x});
      s := [x] + rest;
    }
  }

  /** A list that starts with the given two names. */
  lemma EnumerateFrom(names: set<string>, a: string, b: string) returns (s: seq<string>, t: seq<string>)
    requires a in names && b in names && a != b
    ensures ListsOut(s, names) && |s| >= 2 && s[0] == a && s[1] == b
    ensures ListsOut(t, names) && |t| >= 2 && t[0] == b && t[1] == a
  {
    var rest := Enumerate(names - {a, b});
    s, t := [a, b] + rest, [b, a] + rest;
    assert forall x :: x in s <==> x == a || x == b || x in rest;
    assert forall x :: x in t <==> x == a || x == b || x in rest;
  }

  /** The sorted list does not depend on the order of the unsorted one exactly
      when no two names tie. */
  lemma SortIgnoresOrderIff(le: (string, string) -> bool, names: set<string>)
    requires TotalPreorder(le)
    ensures (forall s, t | ListsOut(s, names) && ListsOut(t, names) :: Sort(le, s) == Sort(le, t)) <==>
            Untied(le, names)
  {
    if Untied(le, names) {
      forall s, t | ListsOut(s, names) && ListsOut(t, names) ensures Sort(le, s) == Sort(le, t) {
        SortsAlike(le, s, t, names);
      }
    } else {
      var a, b :| a in names && b in names && a != b && Tie(le, a, b);
      var s, t := EnumerateFrom(names, a, b);
      TiedSortsDiffer(le, s, t, a, b);
    }
  }

  lemma SortsAlike(le: (string, string) -> bool, s: seq<string>, t: seq<string>, names: set<string>)
    requires TotalPreorder(le) && Untied(le, names) && ListsOut(s, names) && ListsOut(t, names)
    ensures Sort(le, s) == Sort(le, t)
  {
    SortSorts(le, s);
    SortSorts(le, t);
    SortKeepsDistinct(le, s);
    SortKeepsDistinct(le, t);
    SortedIsUnique(le, Sort(le, s), Sort(le, t), names);
  }

  lemma TiedSortsDiffer(le: (string, string) -> bool, s: seq<string>, t: seq<string>, a: string, b: string)
    requires Tie(le, a, b) && NoDuplicates(s)
    requires |s| >= 2 && s[0] == a && s[1] == b && |t| >= 2 && t[0] == b && t[1] == a
    ensures Sort(le, s) != Sort(le, t)
  {
    SortKeepsBefore(le, s, 0, 1);
    SortKeepsBefore(le, t, 0, 1);
    SortKeepsDistinct(le, s);
    BeforeIsOneWay(Sort(le, s), a, b);
  }

  // ----- filtering -----

  lemma {:induction false} FilterKeepsDistinct(p: string -> bool, s: seq<string>)
    requires NoDuplicates(s)
    ensures NoDuplicates(Filter(p, s))
  {
    if s != [] {
      FilterKeepsDistinct(p, s[1..]);
      assert s[0] !in s[1..];
    }
  }

  lemma {:induction false} FilterKeepsSorted(le: (string, string) -> bool, p: string -> bool, s: seq<string>)
    requires Sorted(le, s)
    ensures Sorted(le, Filter(p, s))
  {
    if s != [] {
      FilterKeepsSorted(le, p, s[1..]);
      forall x | x in Filter(p, s[1..]) ensures le(s[0], x) {
        var i :| 0 <= i < |s[1..]| && s[1..][i] == x;
        assert s[i + 1] == x;
      }
    }
  }

  lemma {:induction false} FilterKeepsBefore(p: string -> bool, s: seq<string>, i: nat, j: nat)
    requires i < j < |s| && p(s[i]) && p(s[j])
    ensures Before(Filter(p, s), s[i], s[j])
  {
    if i == 0 {
      assert s[j] == s[1..][j - 1];
      BeforeAcross([s[0]], Filter(p, s[1..]), s[0], s[j]);
    } else {
      FilterKeepsBefore(p, s[1..], i - 1, j - 1);
      var head := if p(s[0]) then [s[0]] else [];
      BeforeInside(head, Filter(p, s[1..]), [], s[i], s[j]);
      assert head + Filter(p, s[1..]) + [] == Filter(p, s);
    }
  }
}
