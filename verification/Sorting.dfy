/** Python's sorted(): a stable sort, written as an insertion sort from the left. */
module Sorting {

  ghost predicate TotalPreorder<T(!new)>(le: (T, T) -> bool) {
    && (forall x, y :: le(x, y) || le(y, x))
    && (forall x, y, z :: le(x, y) && le(y, z) ==> le(x, z))
  }

  ghost predicate SortedBy<T>(le: (T, T) -> bool, s: seq<T>) {
    forall i, j | 0 <= i < j < |s| :: le(s[i], s[j])
  }

  /** Puts `x` behind every element of `s` that is not above it. */
  function Insert<T>(le: (T, T) -> bool, x: T, s: seq<T>): (r: seq<T>)
    ensures |r| == |s| + 1
    ensures multiset(r) == multiset(s) + multiset{x}
  {
    if s == [] then [x]
    else
      assert s == s[..|s| - 1] + [s[|s| - 1]];
      if le(s[|s| - 1], x) then s + [x]
      else Insert(le, x, s[..|s| - 1]) + [s[|s| - 1]]
  }

  function SortBy<T>(le: (T, T) -> bool, s: seq<T>): (r: seq<T>)
    ensures |r| == |s|
    ensures multiset(r) == multiset(s)
  {
    if s == [] then []
    else
      assert s == s[..|s| - 1] + [s[|s| - 1]];
      Insert(le, s[|s| - 1], SortBy(le, s[..|s| - 1]))
  }

  lemma AppendedIsSorted<T>(le: (T, T) -> bool, s: seq<T>, last: T)
    requires SortedBy(le, s) && forall y | y in s :: le(y, last)
    ensures SortedBy(le, s + [last])
  {
    assert forall i | 0 <= i < |s| :: s[i] in s;
  }

  lemma LastIsGreatest<T(!new)>(le: (T, T) -> bool, s: seq<T>)
    requires TotalPreorder(le) && SortedBy(le, s) && s != []
    ensures SortedBy(le, s[..|s| - 1]) && forall y | y in s :: le(y, s[|s| - 1])
  {
    forall y | y in s ensures le(y, s[|s| - 1]) {
      var i :| 0 <= i < |s| && s[i] == y;
    }
  }

  lemma {:induction false} InsertIsSorted<T(!new)>(le: (T, T) -> bool, x: T, s: seq<T>)
    requires TotalPreorder(le) && SortedBy(le, s)
    ensures SortedBy(le, Insert(le, x, s))
  {
    if s != [] {
      LastIsGreatest(le, s);
      var front, last := s[..|s| - 1], s[|s| - 1];
      hide SortedBy;
      if le(last, x) {
        assert forall y | y in s :: le(y, x);
        AppendedIsSorted(le, s, x);
      } else {
        InsertIsSorted(le, x, front);
        var r := Insert(le, x, front);
        forall y | y in r ensures le(y, last) {
          assert y in multiset(r);
          assert y == x || y in front;
          assert y in front ==> y in s;
        }
        AppendedIsSorted(le, r, last);
      }
    }
  }

  lemma {:induction false} SortIsSorted<T(!new)>(le: (T, T) -> bool, s: seq<T>)
    requires TotalPreorder(le)
    ensures SortedBy(le, SortBy(le, s))
  {
    if s != [] {
      SortIsSorted(le, s[..|s| - 1]);
      InsertIsSorted(le, s[|s| - 1], SortBy(le, s[..|s| - 1]));
    }
  }

  lemma {:induction false} SortKeepsElements<T>(le: (T, T) -> bool, s: seq<T>)
    ensures forall x :: x in SortBy(le, s) <==> x in s
  {
    forall x ensures x in SortBy(le, s) <==> x in s {
      assert x in SortBy(le, s) <==> x in multiset(SortBy(le, s));
      assert x in s <==> x in multiset(s);
    }
  }

  /** Sorting what is sorted already changes nothing. */
  lemma {:induction false} SortOfSorted<T>(le: (T, T) -> bool, s: seq<T>)
    requires SortedBy(le, s)
    ensures SortBy(le, s) == s
  {
    if s != [] {
      var front, last := s[..|s| - 1], s[|s| - 1];
      assert front != [] ==> le(front[|front| - 1], last);
      SortOfSorted(le, front);
      assert Insert(le, last, front) == front + [last];
      assert s == front + [last];
    }
  }

  ghost predicate Distinct<T>(s: seq<T>) {
    forall i, j | 0 <= i < j < |s| :: s[i] != s[j]
  }

  lemma {:induction false} DistinctCountsOnce<T>(s: seq<T>)
    ensures Distinct(s) <==> forall x | x in s :: multiset(s)[x] == 1
  {
    if s != [] {
      var front, last := s[..|s| - 1], s[|s| - 1];
      assert s == front + [last];
      DistinctCountsOnce(front);
      assert forall x :: multiset(s)[x] == multiset(front)[x] + if x == last then 1 else 0;
      assert Distinct(s) <==> Distinct(front) && last !in front by {
        assert forall i | 0 <= i < |front| :: s[i] in front;
      }
      assert forall x :: x in front <==> multiset(front)[x] >= 1;
    }
  }

  /** One pass with a set of what was seen. */
  method CheckDistinct<T(==)>(s: seq<T>) returns (distinct: bool)
    ensures distinct <==> Distinct(s)
  {
    var seen: set<T> := {};
    for i := 0 to |s|
      invariant Distinct(s[..i])
      invariant forall x :: x in seen <==> exists j :: 0 <= j < i && s[j] == x
    {
      if s[i] in seen { return false; }
      seen := seen + {s[i]};
    }
    assert s[..|s|] == s;
    return true;
  }

  lemma SortKeepsDistinct<T>(le: (T, T) -> bool, s: seq<T>)
    requires Distinct(s)
    ensures Distinct(SortBy(le, s))
  {
    SortKeepsElements(le, s);
    DistinctCountsOnce(s);
    DistinctCountsOnce(SortBy(le, s));
  }

  lemma HeadIsElement<T>(s: seq<T>)
    ensures s == [] || s[0] in s
  {
  }

  lemma HeadIsLeast<T>(lt: (T, T) -> bool, s: seq<T>)
    requires SortedBy(lt, s) && s != []
    ensures forall x | x in s :: x == s[0] || lt(s[0], x)
  {
  }

  /** Two sequences in strict order with the same elements are the same sequence. */
  lemma {:induction false} StrictOrderIsUnique<T(!new)>(lt: (T, T) -> bool, a: seq<T>, b: seq<T>)
    requires forall x :: !lt(x, x)
    requires forall x, y, z :: lt(x, y) && lt(y, z) ==> lt(x, z)
    requires SortedBy(lt, a) && SortedBy(lt, b)
    requires forall x :: x in a <==> x in b
    ensures a == b
  {
    if a == [] {
      HeadIsElement(b);
    } else {
      assert a[0] in b;
      HeadIsLeast(lt, a);
      HeadIsLeast(lt, b);
      assert b[0] in a;
      assert a[0] == b[0];
      TailElements(lt, a);
      TailElements(lt, b);
      StrictOrderIsUnique(lt, a[1..], b[1..]);
      assert a == [a[0]] + a[1..] && b == [b[0]] + b[1..];
    }
  }

  lemma TailElements<T(!new)>(lt: (T, T) -> bool, s: seq<T>)
    requires forall x :: !lt(x, x)
    requires SortedBy(lt, s) && s != []
    ensures forall x :: x in s[1..] <==> x in s && x != s[0]
  {
    assert s == [s[0]] + s[1..];
    forall k | 1 <= k < |s| ensures s[k] != s[0] {
      assert lt(s[0], s[k]);
    }
  }
}
