/** Filtering and sorting sequences, and what that keeps. */
module Sequences {

  /** The elements that satisfy `keep`, in order. */
  function Retain<T(!new)>(s: seq<T>, keep: T -> bool): (r: seq<T>)
    ensures |r| <= |s|
    ensures forall x :: x in r <==> x in s && keep(x)
  {
    if s == [] then []
    else if keep(s[0]) then [s[0]] + Retain(s[1..], keep)
    else Retain(s[1..], keep)
  }

  function Count<T(!new)>(s: seq<T>, counted: T -> bool): nat {
    |Retain(s, counted)|
  }

  /** `part` is what is left of `whole` when some elements are dropped. */
  ghost predicate Subsequence<T(!new)>(part: seq<T>, whole: seq<T>) {
    || part == []
    || (whole != [] && part[0] == whole[0] && Subsequence(part[1..], whole[1..]))
    || (whole != [] && Subsequence(part, whole[1..]))
  }

  /** `after` is `before` without the elements that satisfy `gone`: as many fewer
      as there were of those, none of them left, and every other element as often
      as it was there and in the order it was in. */
  ghost predicate Loses<T(!new)>(before: seq<T>, after: seq<T>, gone: T -> bool) {
    && Subsequence(after, before)
    && |after| + Count(before, gone) == |before|
    && (forall x :: x in after ==> !gone(x))
    && (forall x :: !gone(x) ==> multiset(after)[x] == multiset(before)[x])
  }

  lemma {:induction false} RetainLoses<T(!new)>(s: seq<T>, keep: T -> bool, gone: T -> bool)
    requires forall x :: gone(x) == !keep(x)
    ensures Loses(s, Retain(s, keep), gone)
  {
    if s != [] {
      RetainLoses(s[1..], keep, gone);
      assert s == [s[0]] + s[1..];
      assert keep(s[0]) ==> Retain(s, keep) == [s[0]] + Retain(s[1..], keep);
    }
  }

  lemma {:induction false} CountPositive<T(!new)>(s: seq<T>, counted: T -> bool)
    ensures Count(s, counted) > 0 <==> exists x :: x in s && counted(x)
  {
    if s != [] {
      CountPositive(s[1..], counted);
    }
  }

  lemma {:induction false} RetainBoth<T(!new)>(a: seq<T>, b: seq<T>, keep: T -> bool)
    ensures Retain(a + b, keep) == Retain(a, keep) + Retain(b, keep)
    decreases |a|
  {
    if a == [] {
      assert a + b == b;
    } else {
      assert (a + b)[1..] == a[1..] + b;
      RetainBoth(a[1..], b, keep);
    }
  }

  lemma {:induction false} RetainedAsOften<T(!new)>(s: seq<T>, keep: T -> bool, x: T)
    ensures multiset(Retain(s, keep))[x] == if keep(x) then multiset(s)[x] else 0
  {
    if s != [] {
      RetainedAsOften(s[1..], keep, x);
      assert s == [s[0]] + s[1..];
      assert keep(s[0]) ==> Retain(s, keep) == [s[0]] + Retain(s[1..], keep);
    }
  }

  /** Counting does not depend on the order. */
  lemma CountAnyOrder<T(!new)>(a: seq<T>, b: seq<T>, counted: T -> bool)
    requires multiset(a) == multiset(b)
    ensures Count(a, counted) == Count(b, counted)
  {
    forall x
      ensures multiset(Retain(a, counted))[x] == multiset(Retain(b, counted))[x]
    {
      RetainedAsOften(a, counted, x);
      RetainedAsOften(b, counted, x);
    }
    assert multiset(Retain(a, counted)) == multiset(Retain(b, counted));
    assert |multiset(Retain(a, counted))| == |Retain(a, counted)|;
    assert |multiset(Retain(b, counted))| == |Retain(b, counted)|;
  }

  lemma {:induction false} DistinctHasOne<T(!new)>(s: seq<T>, x: T)
    requires forall i, j :: 0 <= i < j < |s| ==> s[i] != s[j]
    ensures multiset(s)[x] <= 1
  {
    if s != [] {
      DistinctHasOne(s[1..], x);
      assert s == [s[0]] + s[1..];
      if x == s[0] {
        assert x !in s[1..];
        assert x !in multiset(s[1..]);
      }
    }
  }

  lemma TwiceIsTwo<T(!new)>(s: seq<T>, i: nat, j: nat)
    requires i < j < |s| && s[i] == s[j]
    ensures multiset(s)[s[i]] >= 2
  {
    var a, b := s[..j], s[j..];
    assert s == a + b;
    assert a[i] == s[i] && b[0] == s[j];
    assert s[i] in multiset(a) && s[i] in multiset(b);
  }

  /** Elements that differ pairwise do so in any order. */
  lemma DistinctAnyOrder<T(!new)>(a: seq<T>, b: seq<T>)
    requires multiset(a) == multiset(b)
    requires forall i, j :: 0 <= i < j < |a| ==> a[i] != a[j]
    ensures forall i, j :: 0 <= i < j < |b| ==> b[i] != b[j]
  {
    forall i, j | 0 <= i < j < |b|
      ensures b[i] != b[j]
    {
      DistinctHasOne(a, b[i]);
      if b[i] == b[j] {
        TwiceIsTwo(b, i, j);
      }
    }
  }

  // --- sorting --------------------------------------------------------------

  /** An order that ranks: ties are allowed, and being no lower is transitive. */
  ghost predicate Ranks<T(!new)>(lower: (T, T) -> bool) {
    && (forall a, b :: lower(a, b) ==> !lower(b, a))
    && (forall a, b, c :: !lower(b, a) && !lower(c, b) ==> !lower(c, a))
  }

  /** Places an element after everything that is not higher. */
  function Insert<T>(s: seq<T>, x: T, lower: (T, T) -> bool): seq<T> {
    if s == [] then [x]
    else if lower(x, s[0]) then [x] + s
    else [s[0]] + Insert(s[1..], x, lower)
  }

  /** A stable sort. */
  function Sort<T>(s: seq<T>, lower: (T, T) -> bool): seq<T> {
    if s == [] then [] else Insert(Sort(s[..|s| - 1], lower), s[|s| - 1], lower)
  }

  predicate IsSorted<T>(s: seq<T>, lower: (T, T) -> bool) {
    forall i, j :: 0 <= i < j < |s| ==> !lower(s[j], s[i])
  }

  lemma {:induction false} InsertHolds<T>(s: seq<T>, x: T, lower: (T, T) -> bool)
    ensures multiset(Insert(s, x, lower)) == multiset(s) + multiset{x}
  {
    if s != [] {
      assert s == [s[0]] + s[1..];
      InsertHolds(s[1..], x, lower);
    }
  }

  lemma InsertMember<T>(s: seq<T>, x: T, lower: (T, T) -> bool, y: T)
    ensures y in Insert(s, x, lower) <==> y in s || y == x
  {
    InsertHolds(s, x, lower);
    assert y in Insert(s, x, lower) <==> y in multiset(Insert(s, x, lower));
    assert y in s <==> y in multiset(s);
  }

  lemma FirstIsLeast<T(!new)>(s: seq<T>, x: T, lower: (T, T) -> bool)
    requires Ranks(lower) && s != [] && IsSorted(s, lower) && lower(x, s[0])
    ensures IsSorted([x] + s, lower)
  {
    forall j | 0 <= j < |s|
      ensures !lower(s[j], x)
    {
      assert j > 0 ==> !lower(s[j], s[0]);
    }
  }

  lemma {:induction false} InsertKeeps<T(!new)>(s: seq<T>, x: T, lower: (T, T) -> bool)
    requires Ranks(lower) && IsSorted(s, lower)
    ensures IsSorted(Insert(s, x, lower), lower)
    decreases |s|
  {
    if s != [] {
      if lower(x, s[0]) {
        FirstIsLeast(s, x, lower);
      } else {
        var rest := Insert(s[1..], x, lower);
        InsertKeeps(s[1..], x, lower);
        forall j | 0 <= j < |rest|
          ensures !lower(rest[j], s[0])
        {
          InsertMember(s[1..], x, lower, rest[j]);
        }
      }
    }
  }

  /** Sorting orders the elements and keeps each as often as it was. */
  lemma {:induction false} SortKeeps<T(!new)>(s: seq<T>, lower: (T, T) -> bool)
    requires Ranks(lower)
    ensures IsSorted(Sort(s, lower), lower)
    ensures multiset(Sort(s, lower)) == multiset(s)
  {
    if s != [] {
      SortKeeps(s[..|s| - 1], lower);
      InsertKeeps(Sort(s[..|s| - 1], lower), s[|s| - 1], lower);
      InsertHolds(Sort(s[..|s| - 1], lower), s[|s| - 1], lower);
      assert s == s[..|s| - 1] + [s[|s| - 1]];
    }
  }

  lemma SortMember<T(!new)>(s: seq<T>, lower: (T, T) -> bool, x: T)
    requires Ranks(lower)
    ensures x in Sort(s, lower) <==> x in s
  {
    SortKeeps(s, lower);
    assert x in Sort(s, lower) <==> x in multiset(Sort(s, lower));
    assert x in s <==> x in multiset(s);
  }

  lemma {:induction false} InsertHighest<T(!new)>(s: seq<T>, x: T, lower: (T, T) -> bool)
    requires forall y :: y in s ==> !lower(x, y)
    ensures Insert(s, x, lower) == s + [x]
    decreases |s|
  {
    if s != [] {
      InsertHighest(s[1..], x, lower);
      assert [s[0]] + (s[1..] + [x]) == s + [x];
    }
  }

  lemma {:induction false} InsertBelow<T(!new)>(s: seq<T>, top: T, x: T, lower: (T, T) -> bool)
    requires lower(x, top)
    ensures Insert(s + [top], x, lower) == Insert(s, x, lower) + [top]
    decreases |s|
  {
    if s == [] {
      assert [] + [top] == [top] && [x] + [top] == [x, top];
    } else {
      assert (s + [top])[0] == s[0] && (s + [top])[1..] == s[1..] + [top];
      InsertBelow(s[1..], top, x, lower);
      assert [s[0]] + (Insert(s[1..], x, lower) + [top]) == [s[0]] + Insert(s[1..], x, lower) + [top];
      assert [x] + (s + [top]) == [x] + s + [top];
    }
  }

  /** An element that no earlier one is above, and that is above all later ones, ends
      up last, and the others keep their order. */
  lemma {:induction false} SortHighest<T(!new)>(a: seq<T>, top: T, b: seq<T>, lower: (T, T) -> bool)
    requires Ranks(lower)
    requires (forall y :: y in a ==> !lower(top, y)) && (forall y :: y in b ==> lower(y, top))
    ensures Sort(a + [top] + b, lower) == Sort(a + b, lower) + [top]
    decreases |b|
  {
    var all := a + [top] + b;
    if b == [] {
      assert all[..|all| - 1] == a && a + b == a;
      forall y | y in Sort(a, lower)
        ensures !lower(top, y)
      {
        SortMember(a, lower, y);
      }
      InsertHighest(Sort(a, lower), top, lower);
    } else {
      var n := |b| - 1;
      assert all[..|all| - 1] == a + [top] + b[..n] && (a + b)[..|a + b| - 1] == a + b[..n];
      SortHighest(a, top, b[..n], lower);
      InsertBelow(Sort(a + b[..n], lower), top, b[n], lower);
    }
  }

  /** An insertion leaves the last element where it was only if that is higher. */
  lemma {:induction false} InsertLast<T(!new)>(s: seq<T>, x: T, lower: (T, T) -> bool)
    requires Ranks(lower) && s != [] && IsSorted(s, lower)
    ensures var r := Insert(s, x, lower);
            r != [] && r[|r| - 1] == if lower(x, s[|s| - 1]) then s[|s| - 1] else x
    decreases |s|
  {
    var last := s[|s| - 1];
    if lower(x, s[0]) {
      assert |s| > 1 ==> !lower(last, s[0]);
    } else if |s| > 1 {
      InsertLast(s[1..], x, lower);
    }
  }

  lemma SortsToSome<T(!new)>(s: seq<T>, lower: (T, T) -> bool)
    requires Ranks(lower) && s != []
    ensures var r := Sort(s, lower);
            && r != [] && IsSorted(r, lower) && r[|r| - 1] in s
            && (forall y :: y in s ==> !lower(r[|r| - 1], y))
  {
    SortKeeps(s, lower);
    var r := Sort(s, lower);
    assert |multiset(r)| == |multiset(s)|;
    var n := |r| - 1;
    SortMember(s, lower, r[n]);
    forall y | y in s
      ensures !lower(r[n], y)
    {
      SortMember(s, lower, y);
      var i :| 0 <= i <= n && r[i] == y;
    }
  }

  /** When the element ends up last: exactly when no earlier one is above it, and it is
      above all later ones. */
  lemma {:induction false} SortLast<T(!new)>(a: seq<T>, top: T, b: seq<T>, lower: (T, T) -> bool)
    requires Ranks(lower) && top !in a && top !in b
    ensures var r := Sort(a + [top] + b, lower);
            r != [] && (r[|r| - 1] == top <==>
                        (forall y :: y in a ==> !lower(top, y)) && (forall y :: y in b ==> lower(y, top)))
    decreases |b|
  {
    var all := a + [top] + b;
    if b == [] {
      assert all[..|all| - 1] == a;
      SortLastOf(a, top, lower);
    } else {
      var n := |b| - 1;
      assert all[..|all| - 1] == a + [top] + b[..n];
      assert b == b[..n] + [b[n]];
      SortLast(a, top, b[..n], lower);
      SortLastMore(a + [top] + b[..n], top, b[n], lower);
    }
  }

  lemma SortLastMore<T(!new)>(s: seq<T>, top: T, x: T, lower: (T, T) -> bool)
    requires Ranks(lower) && s != [] && x != top
    ensures var r, more := Sort(s, lower), Insert(Sort(s, lower), x, lower);
            r != [] && more != [] && (more[|more| - 1] == top <==> r[|r| - 1] == top && lower(x, top))
  {
    SortsNonempty(s, lower);
    InsertLastIs(Sort(s, lower), top, x, lower);
  }

  lemma SortsNonempty<T(!new)>(s: seq<T>, lower: (T, T) -> bool)
    requires Ranks(lower) && s != []
    ensures Sort(s, lower) != [] && IsSorted(Sort(s, lower), lower)
  {
    SortsToSome(s, lower);
  }

  lemma InsertLastIs<T(!new)>(r: seq<T>, top: T, x: T, lower: (T, T) -> bool)
    requires Ranks(lower) && r != [] && IsSorted(r, lower) && x != top
    ensures var more := Insert(r, x, lower);
            more != [] && (more[|more| - 1] == top <==> r[|r| - 1] == top && lower(x, top))
  {
    InsertLast(r, x, lower);
  }

  lemma SortLastOf<T(!new)>(a: seq<T>, top: T, lower: (T, T) -> bool)
    requires Ranks(lower) && top !in a
    ensures var r := Insert(Sort(a, lower), top, lower);
            r != [] && (r[|r| - 1] == top <==> forall y :: y in a ==> !lower(top, y))
  {
    if a != [] {
      var r := Sort(a, lower);
      SortsToSome(a, lower);
      InsertLast(r, top, lower);
      forall y | y in a && !lower(top, r[|r| - 1])
        ensures !lower(top, y)
      {
        assert !lower(r[|r| - 1], y);
      }
    }
  }
}
