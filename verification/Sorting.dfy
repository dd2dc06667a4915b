/**
 Sorting by a comparison, as the callers of the library sort may rely on it: a permutation in
 order, with nothing promised about the order of equal elements.
 */
module Sorting {
  import opened Basics

  ghost predicate Distinct<T(!new)>(s: seq<T>) { forall i, j :: 0 <= i < j < |s| ==> s[i] != s[j] }

  ghost predicate TotalPreorder<T(!new)>(le: (T, T) -> bool) {
    && (forall a, b :: le(a, b) || le(b, a))
    && (forall a, b, c :: le(a, b) && le(b, c) ==> le(a, c))
  }

  ghost predicate InOrder<T(!new)>(s: seq<T>, le: (T, T) -> bool) {
    forall i, j :: 0 <= i < j < |s| ==> le(s[i], s[j])
  }

  /** The same elements, each as often. */
  ghost predicate Permutes<T(!new)>(r: seq<T>, s: seq<T>) { multiset(r) == multiset(s) }

  function Insert<T>(x: T, s: seq<T>, le: (T, T) -> bool): (r: seq<T>)
    ensures multiset(r) == multiset(s) + multiset{x}
  {
    if s == [] || le(x, s[0]) then [x] + s
    else
      assert s == [s[0]] + s[1..];
      [s[0]] + Insert(x, s[1..], le)
  }

  lemma {:induction false} InsertInOrder<T(!new)>(x: T, s: seq<T>, le: (T, T) -> bool)
    requires TotalPreorder(le) && InOrder(s, le)
    ensures InOrder(Insert(x, s, le), le)
  {
    if s != [] && !le(x, s[0]) {
      var rest := Insert(x, s[1..], le);
      InsertInOrder(x, s[1..], le);
      forall j | 0 <= j < |rest| ensures le(s[0], rest[j]) {
        assert rest[j] in multiset(rest);
        assert rest[j] == x || rest[j] in s[1..];
      }
    } else if s != [] {
      forall j | 0 <= j < |s| ensures le(x, s[j]) {
        if j > 0 { assert le(s[0], s[j]); }
      }
    }
  }

  /** A sorted arrangement exists. */
  lemma {:induction false} SortExists<T(!new)>(s: seq<T>, le: (T, T) -> bool) returns (r: seq<T>)
    requires TotalPreorder(le)
    ensures Permutes(r, s) && InOrder(r, le)
  {
    if s == [] { return []; }
    var rest := SortExists(s[1..], le);
    InsertInOrder(s[0], rest, le);
    assert s == [s[0]] + s[1..];
    r := Insert(s[0], rest, le);
  }

  method Sort<T(!new)>(s: seq<T>, le: (T, T) -> bool) returns (r: seq<T>)
    requires TotalPreorder(le)
    ensures Permutes(r, s) && InOrder(r, le)
  {
    r := [];
    for n := 0 to |s|
      invariant Permutes(r, s[..n]) && InOrder(r, le)
    {
      assert s[..n + 1] == s[..n] + [s[n]];
      InsertInOrder(s[n], r, le);
      r := Insert(s[n], r, le);
    }
    assert s[..|s|] == s;
  }

  lemma PermutedMembers<T(!new)>(r: seq<T>, s: seq<T>)
    requires Permutes(r, s)
    ensures |r| == |s| && forall x :: x in r <==> x in s
  {
    assert |r| == |multiset(r)| && |s| == |multiset(s)|;
    forall x ensures x in r <==> x in s {
      assert x in r <==> x in multiset(r);
      assert x in s <==> x in multiset(s);
    }
  }

  lemma {:induction false} DistinctOnce<T(!new)>(s: seq<T>)
    ensures Distinct(s) <==> forall x :: multiset(s)[x] <= 1
  {
    if s != [] {
      DistinctOnce(s[1..]);
      assert s == [s[0]] + s[1..];
      assert multiset(s) == multiset{s[0]} + multiset(s[1..]);
      if Distinct(s) {
        assert s[0] !in s[1..];
        assert s[0] !in multiset(s[1..]);
      } else {
        var i, j :| 0 <= i < j < |s| && s[i] == s[j];
        if i == 0 {
          assert s[j] in s[1..];
          assert s[0] in multiset(s[1..]);
          assert multiset(s)[s[0]] >= 2;
        } else {
          assert s[1..][i - 1] == s[1..][j - 1];
          var x :| multiset(s[1..])[x] > 1;
          assert multiset(s)[x] > 1;
        }
      }
    }
  }

  lemma PermutedDistinct<T(!new)>(r: seq<T>, s: seq<T>)
    requires Permutes(r, s) && Distinct(s)
    ensures Distinct(r)
  {
    DistinctOnce(s);
    DistinctOnce(r);
  }

  // ---------- The stable sort ----------

  predicate Same<T>(x: T, c: T, le: (T, T) -> bool) { le(c, x) && le(x, c) }

  /** x if it compares equal to c. */
  function Match<T>(x: T, c: T, le: (T, T) -> bool): seq<T> { if Same(x, c, le) then [x] else [] }

  /** The elements of s that compare equal to c, in order. */
  function Equals<T>(s: seq<T>, c: T, le: (T, T) -> bool): seq<T> {
    if s == [] then [] else Match(s[0], c, le) + Equals(s[1..], c, le)
  }

  lemma EqualsCons<T>(x: T, s: seq<T>, c: T, le: (T, T) -> bool)
    ensures Equals([x] + s, c, le) == Match(x, c, le) + Equals(s, c, le)
  {
    assert ([x] + s)[1..] == s;
  }

  function InsertAfter<T>(x: T, s: seq<T>, le: (T, T) -> bool): (r: seq<T>)
    ensures multiset(r) == multiset(s) + multiset{x}
  {
    if s == [] || !le(s[0], x) then [x] + s
    else
      assert s == [s[0]] + s[1..];
      [s[0]] + InsertAfter(x, s[1..], le)
  }

  lemma {:induction false} InsertAfterInOrder<T(!new)>(x: T, s: seq<T>, le: (T, T) -> bool)
    requires TotalPreorder(le) && InOrder(s, le)
    ensures InOrder(InsertAfter(x, s, le), le)
  {
    if s != [] && le(s[0], x) {
      var rest := InsertAfter(x, s[1..], le);
      InsertAfterInOrder(x, s[1..], le);
      forall j | 0 <= j < |rest| ensures le(s[0], rest[j]) {
        assert rest[j] in multiset(rest);
        assert rest[j] == x || rest[j] in s[1..];
      }
    } else if s != [] {
      forall j | 0 <= j < |s| ensures le(x, s[j]) {
        if j > 0 { assert le(s[0], s[j]); }
      }
    }
  }

  lemma {:induction false} NoEquals<T(!new)>(s: seq<T>, c: T, le: (T, T) -> bool)
    requires forall i :: 0 <= i < |s| ==> !le(s[i], c)
    ensures Equals(s, c, le) == []
  {
    if s != [] { NoEquals(s[1..], c, le); }
  }

  lemma ThreeSteps<T(!new)>(a: T, b: T, c: T, d: T, le: (T, T) -> bool)
    requires TotalPreorder(le) && (le(a, b) || a == b) && le(c, d) && !le(a, d)
    ensures !le(b, c)
  {
    assert le(b, c) && le(c, d) ==> le(b, d);
    assert le(a, b) && le(b, d) ==> le(a, d);
  }

  lemma NoneAfter<T(!new)>(x: T, s: seq<T>, c: T, le: (T, T) -> bool)
    requires TotalPreorder(le) && InOrder(s, le) && s != [] && !le(s[0], x) && Same(x, c, le)
    ensures Equals(s, c, le) == []
  {
    forall i | 0 <= i < |s| ensures !le(s[i], c) { ThreeSteps(s[0], s[i], c, x, le); }
    NoEquals(s, c, le);
  }

  lemma {:induction false} InsertAfterStable<T(!new)>(x: T, s: seq<T>, c: T, le: (T, T) -> bool)
    requires TotalPreorder(le) && InOrder(s, le)
    ensures Equals(InsertAfter(x, s, le), c, le) == Equals(s, c, le) + Match(x, c, le)
  {
    if s != [] && le(s[0], x) {
      var rest := InsertAfter(x, s[1..], le);
      InsertAfterStable(x, s[1..], c, le);
      EqualsCons(s[0], rest, c, le);
      Associate(Match(s[0], c, le), Equals(s[1..], c, le), Match(x, c, le));
    } else {
      EqualsCons(x, s, c, le);
      if s != [] && Same(x, c, le) { NoneAfter(x, s, c, le); }
    }
  }

  lemma {:induction false} EqualsSnoc<T(!new)>(s: seq<T>, x: T, c: T, le: (T, T) -> bool)
    ensures Equals(s + [x], c, le) == Equals(s, c, le) + Match(x, c, le)
  {
    if s == [] {
      assert s + [x] == [x] + s;
      EqualsCons(x, s, c, le);
    } else {
      EqualsSnoc(s[1..], x, c, le);
      assert s + [x] == [s[0]] + (s[1..] + [x]);
      EqualsCons(s[0], s[1..] + [x], c, le);
      Associate(Match(s[0], c, le), Equals(s[1..], c, le), Match(x, c, le));
    }
  }

  /** The library's stable sort: in order, and equal elements keep theirs. */
  ghost predicate Stable<T(!new)>(r: seq<T>, s: seq<T>, le: (T, T) -> bool) {
    forall c :: Equals(r, c, le) == Equals(s, c, le)
  }

  method StableSort<T(!new)>(s: seq<T>, le: (T, T) -> bool) returns (r: seq<T>)
    requires TotalPreorder(le)
    ensures Permutes(r, s) && InOrder(r, le) && Stable(r, s, le)
  {
    r := [];
    for n := 0 to |s|
      invariant Permutes(r, s[..n]) && InOrder(r, le) && Stable(r, s[..n], le)
    {
      assert s[..n + 1] == s[..n] + [s[n]];
      InsertAfterInOrder(s[n], r, le);
      forall c ensures Equals(InsertAfter(s[n], r, le), c, le) == Equals(s[..n + 1], c, le) {
        InsertAfterStable(s[n], r, c, le);
        EqualsSnoc(s[..n], s[n], c, le);
      }
      r := InsertAfter(s[n], r, le);
    }
    assert s[..|s|] == s;
  }
}
