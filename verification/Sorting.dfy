/** Stable sorting by a total preorder, and what makes its result unique. */
module Sorting {

  ghost predicate Total<T(!new)>(le: (T, T) -> bool) {
    && (forall a, b :: le(a, b) || le(b, a))
    && (forall a, b, c :: le(a, b) && le(b, c) ==> le(a, c))
  }

  ghost predicate Antisymmetric<T(!new)>(le: (T, T) -> bool) {
    forall a, b :: le(a, b) && le(b, a) ==> a == b
  }

  /** Within `s`, only equal elements tie. */
  ghost predicate NoTies<T>(s: seq<T>, le: (T, T) -> bool) {
    forall a, b :: a in s && b in s && le(a, b) && le(b, a) ==> a == b
  }

  ghost predicate Sorted<T>(s: seq<T>, le: (T, T) -> bool) {
    forall i, j :: 0 <= i < j < |s| ==> le(s[i], s[j])
  }

  /** Puts `x` behind every element that may stand before it. */
  function Insert<T>(s: seq<T>, x: T, le: (T, T) -> bool): seq<T> {
    if s == [] || le(s[|s| - 1], x) then s + [x]
    else Insert(s[..|s| - 1], x, le) + [s[|s| - 1]]
  }

  function Sort<T>(s: seq<T>, le: (T, T) -> bool): seq<T> {
    if s == [] then [] else Insert(Sort(s[..|s| - 1], le), s[|s| - 1], le)
  }

  lemma AppendSorted<T(!new)>(s: seq<T>, x: T, le: (T, T) -> bool)
    requires Sorted(s, le) && forall y :: y in s ==> le(y, x)
    ensures Sorted(s + [x], le)
  {}

  lemma BelowLast<T(!new)>(s: seq<T>, x: T, le: (T, T) -> bool)
    requires Total(le) && Sorted(s, le) && s != [] && le(s[|s| - 1], x)
    ensures forall y :: y in s ==> le(y, x)
  {
    forall i | 0 <= i < |s| ensures le(s[i], x) {
      assert i < |s| - 1 ==> le(s[i], s[|s| - 1]);
    }
  }

  lemma {:induction false} InsertFacts<T(!new)>(s: seq<T>, x: T, le: (T, T) -> bool)
    requires Total(le) && Sorted(s, le)
    ensures multiset(Insert(s, x, le)) == multiset(s) + multiset{x}
    ensures Sorted(Insert(s, x, le), le)
  {
    if s != [] && !le(s[|s| - 1], x) {
      var front, last := s[..|s| - 1], s[|s| - 1];
      assert s == front + [last];
      InsertFacts(front, x, le);
      var t := Insert(front, x, le);
      forall y | y in t ensures le(y, last) {
        assert y in multiset(t);
        if y != x {
          assert y in multiset(front);
        }
      }
      AppendSorted(t, last, le);
    } else if s != [] {
      BelowLast(s, x, le);
      AppendSorted(s, x, le);
    }
  }

  lemma {:induction false} SortFacts<T(!new)>(s: seq<T>, le: (T, T) -> bool)
    requires Total(le)
    ensures multiset(Sort(s, le)) == multiset(s) && Sorted(Sort(s, le), le)
    ensures |Sort(s, le)| == |s|
    ensures forall x :: x in Sort(s, le) <==> x in s
  {
    if s != [] {
      SortFacts(s[..|s| - 1], le);
      InsertFacts(Sort(s[..|s| - 1], le), s[|s| - 1], le);
      assert s == s[..|s| - 1] + [s[|s| - 1]];
    }
    assert |multiset(Sort(s, le))| == |multiset(s)|;
    forall x ensures x in Sort(s, le) <==> x in s {
      assert x in multiset(s) <==> x in multiset(Sort(s, le));
    }
  }

  lemma LastIsGreatest<T(!new)>(s: seq<T>, y: T, le: (T, T) -> bool)
    requires Sorted(s, le) && y in multiset(s)
    ensures s != [] && (y == s[|s| - 1] || le(y, s[|s| - 1]))
  {
    var i :| 0 <= i < |s| && s[i] == y;
    if i < |s| - 1 {
      assert le(s[i], s[|s| - 1]);
    }
  }

  lemma DropLast<T>(s: seq<T>)
    requires s != []
    ensures multiset(s[..|s| - 1]) == multiset(s) - multiset{s[|s| - 1]}
  {
    assert s == s[..|s| - 1] + [s[|s| - 1]];
  }

  lemma LastsAgree<T(!new)>(s: seq<T>, t: seq<T>, le: (T, T) -> bool)
    requires NoTies(s, le) && Sorted(s, le) && Sorted(t, le) && multiset(s) == multiset(t) && s != []
    ensures t != [] && s[|s| - 1] == t[|t| - 1]
  {
    assert s[|s| - 1] in multiset(t);
    LastIsGreatest(t, s[|s| - 1], le);
    assert t[|t| - 1] in multiset(s);
    LastIsGreatest(s, t[|t| - 1], le);
  }

  lemma PrefixKeeps<T(!new)>(s: seq<T>, n: nat, le: (T, T) -> bool)
    requires n <= |s|
    ensures NoTies(s, le) ==> NoTies(s[..n], le)
    ensures Sorted(s, le) ==> Sorted(s[..n], le)
  {
    assert forall a :: a in s[..n] ==> a in s;
  }

  lemma FrontsAgree<T(!new)>(s: seq<T>, t: seq<T>, le: (T, T) -> bool)
    requires NoTies(s, le) && Sorted(s, le) && Sorted(t, le) && multiset(s) == multiset(t) && s != []
    ensures t != [] && s[|s| - 1] == t[|t| - 1]
    ensures multiset(s[..|s| - 1]) == multiset(t[..|t| - 1])
    ensures NoTies(s[..|s| - 1], le) && Sorted(s[..|s| - 1], le) && Sorted(t[..|t| - 1], le)
  {
    LastsAgree(s, t, le);
    DropLast(s);
    DropLast(t);
    PrefixKeeps(s, |s| - 1, le);
    PrefixKeeps(t, |t| - 1, le);
  }

  /** Two sorted arrangements of the same elements agree when ties are equal. */
  lemma {:induction false} SortedIsUnique<T(!new)>(s: seq<T>, t: seq<T>, le: (T, T) -> bool)
    requires NoTies(s, le) && Sorted(s, le) && Sorted(t, le) && multiset(s) == multiset(t)
    ensures s == t
  {
    if s == [] {
      assert |multiset(t)| == |multiset(s)|;
    } else {
      FrontsAgree(s, t, le);
      SortedIsUnique(s[..|s| - 1], t[..|t| - 1], le);
      SameFrontAndLast(s, t);
    }
  }

  lemma SameFrontAndLast<T>(s: seq<T>, t: seq<T>)
    requires s != [] && t != [] && s[..|s| - 1] == t[..|t| - 1] && s[|s| - 1] == t[|t| - 1]
    ensures s == t
  {
    assert s == s[..|s| - 1] + [s[|s| - 1]] && t == t[..|t| - 1] + [t[|t| - 1]];
  }

  /** Sorting forgets the order of its input when ties are equal. */
  lemma SortIgnoresOrder<T(!new)>(s: seq<T>, t: seq<T>, le: (T, T) -> bool)
    requires Total(le) && NoTies(s, le) && multiset(s) == multiset(t)
    ensures Sort(s, le) == Sort(t, le)
  {
    SortFacts(s, le);
    SortFacts(t, le);
    SortedIsUnique(Sort(s, le), Sort(t, le), le);
  }

  /** A sequence that is sorted already stays as it is. */
  lemma {:induction false} SortKeepsSorted<T(!new)>(s: seq<T>, le: (T, T) -> bool)
    requires Sorted(s, le)
    ensures Sort(s, le) == s
  {
    if s != [] {
      var front, last := s[..|s| - 1], s[|s| - 1];
      SortKeepsSorted(front, le);
      assert front != [] ==> front[|front| - 1] == s[|s| - 2];
      assert s == front + [last];
    }
  }

  function Map<T, U>(s: seq<T>, f: T -> U): seq<U> {
    seq(|s|, i requires 0 <= i < |s| => f(s[i]))
  }

  lemma {:induction false} MapRemoves<T(!new), U>(s: seq<T>, f: T -> U, k: nat)
    requires k < |s|
    ensures multiset(s[..k] + s[k + 1..]) == multiset(s) - multiset{s[k]}
    ensures multiset(Map(s, f)) == multiset(Map(s[..k] + s[k + 1..], f)) + multiset{f(s[k])}
  {
    assert s == s[..k] + [s[k]] + s[k + 1..];
    assert Map(s, f) == Map(s[..k], f) + [f(s[k])] + Map(s[k + 1..], f);
    assert Map(s[..k] + s[k + 1..], f) == Map(s[..k], f) + Map(s[k + 1..], f);
  }

  /** Mapping commutes with rearranging. */
  lemma {:induction false} MapIgnoresOrder<T(!new), U>(s: seq<T>, t: seq<T>, f: T -> U)
    requires multiset(s) == multiset(t)
    ensures multiset(Map(s, f)) == multiset(Map(t, f))
    decreases |s|
  {
    assert |multiset(s)| == |multiset(t)|;
    if s != [] {
      assert s[0] in multiset(t);
      var k: nat :| k < |t| && t[k] == s[0];
      MapRemoves(s, f, 0);
      MapRemoves(t, f, k);
      MapIgnoresOrder(s[..0] + s[1..], t[..k] + t[k + 1..], f);
    }
  }

  // ------------------------------------------------------------ order on strings

  predicate LexLe(a: string, b: string) {
    a == [] || (b != [] && (a[0] < b[0] || (a[0] == b[0] && LexLe(a[1..], b[1..]))))
  }

  lemma {:induction false} LexTotal(a: string, b: string)
    ensures LexLe(a, b) || LexLe(b, a)
    ensures LexLe(a, b) && LexLe(b, a) ==> a == b
  {
    if a != [] && b != [] {
      LexTotal(a[1..], b[1..]);
      if a[0] == b[0] && a[1..] == b[1..] {
        assert a == [a[0]] + a[1..] && b == [b[0]] + b[1..];
      }
    }
  }

  lemma {:induction false} LexTransitive(a: string, b: string, c: string)
    requires LexLe(a, b) && LexLe(b, c)
    ensures LexLe(a, c)
  {
    if a != [] && a[0] == b[0] == c[0] {
      LexTransitive(a[1..], b[1..], c[1..]);
    }
  }

  lemma LexOrders()
    ensures Total(LexLe) && Antisymmetric(LexLe)
  {
    forall a, b ensures (LexLe(a, b) || LexLe(b, a)) && (LexLe(a, b) && LexLe(b, a) ==> a == b) {
      LexTotal(a, b);
    }
    forall a, b, c | LexLe(a, b) && LexLe(b, c) ensures LexLe(a, c) {
      LexTransitive(a, b, c);
    }
  }
}
