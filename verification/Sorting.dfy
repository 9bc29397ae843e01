/** sort.Slice as the operator uses it. Go's sort is unstable, so all a caller may
    rely on is that the result is ordered and a permutation; what is proved here is
    when that already determines the result. */
module Sorting {

  ghost predicate TotalPreorder<T(!new)>(le: (T, T) -> bool) {
    && (forall x, y :: le(x, y) || le(y, x))
    && (forall x, y, z :: le(x, y) && le(y, z) ==> le(x, z))
  }

  predicate Sorted<T>(s: seq<T>, le: (T, T) -> bool) {
    forall i, j :: 0 <= i < j < |s| ==> le(s[i], s[j])
  }

  /** No two different positions are tied: sorting has exactly one outcome. */
  ghost predicate NoTies<T>(s: seq<T>, le: (T, T) -> bool) {
    forall i, j :: 0 <= i < |s| && 0 <= j < |s| && i != j ==> !(le(s[i], s[j]) && le(s[j], s[i]))
  }

  function Insert<T>(x: T, s: seq<T>, le: (T, T) -> bool): seq<T> {
    if s == [] || le(x, s[0]) then [x] + s else [s[0]] + Insert(x, s[1..], le)
  }

  function SortBy<T>(s: seq<T>, le: (T, T) -> bool): seq<T> {
    if s == [] then [] else Insert(s[0], SortBy(s[1..], le), le)
  }

  lemma {:induction false} InsertAdds<T>(x: T, s: seq<T>, le: (T, T) -> bool)
    ensures multiset(Insert(x, s, le)) == multiset(s) + multiset{x}
  {
    if s != [] && !le(x, s[0]) {
      InsertAdds(x, s[1..], le);
      assert s == [s[0]] + s[1..];
    }
  }

  lemma {:induction false} InsertSorted<T(!new)>(x: T, s: seq<T>, le: (T, T) -> bool)
    requires TotalPreorder(le) && Sorted(s, le)
    ensures Sorted(Insert(x, s, le), le)
    ensures multiset(Insert(x, s, le)) == multiset(s) + multiset{x}
  {
    InsertAdds(x, s, le);
    if s != [] && !le(x, s[0]) {
      InsertSorted(x, s[1..], le);
      var t := Insert(x, s[1..], le);
      forall y | y in t ensures le(s[0], y) {
        assert y in multiset(t);
        if y != x { assert y in s[1..]; }
      }
      forall i, j | 0 <= i < j < |[s[0]] + t| ensures le(([s[0]] + t)[i], ([s[0]] + t)[j]) {
        if i == 0 { assert t[j - 1] in t; }
      }
    }
  }

  lemma {:induction false} SortBySorts<T(!new)>(s: seq<T>, le: (T, T) -> bool)
    requires TotalPreorder(le)
    ensures Sorted(SortBy(s, le), le)
    ensures multiset(SortBy(s, le)) == multiset(s)
  {
    if s != [] {
      SortBySorts(s[1..], le);
      InsertSorted(s[0], SortBy(s[1..], le), le);
      assert s == [s[0]] + s[1..];
    }
  }

  lemma HasMember<T>(s: seq<T>)
    requires s != []
    ensures exists x :: x in s
  {
    assert s[0] in s;
  }

  /** Two ordered sequences with the same members, one of them free of ties and
      neither with a repeated member, are the same sequence. */
  lemma {:induction false} SortedUnique<T(!new)>(a: seq<T>, b: seq<T>, le: (T, T) -> bool)
    requires TotalPreorder(le)
    requires Sorted(a, le) && Sorted(b, le)
    requires NoTies(a, le) && NoTies(b, le)
    requires forall x :: x in a <==> x in b
    ensures a == b
  {
    if a == [] {
      if b != [] { HasMember(b); }
    } else {
      assert a[0] in b;
      assert b[0] in a;
      var i :| 0 <= i < |b| && b[i] == a[0];
      var j :| 0 <= j < |a| && a[j] == b[0];
      assert i == 0;
      forall x ensures x in a[1..] <==> x in b[1..] {
        if x in a[1..] {
          var m :| 1 <= m < |a| && a[m] == x;
          assert x in b;
          var n :| 0 <= n < |b| && b[n] == x;
          assert n != 0;
          assert b[1..][n - 1] == x;
        }
        if x in b[1..] {
          var m :| 1 <= m < |b| && b[m] == x;
          assert x in a;
          var n :| 0 <= n < |a| && a[n] == x;
          assert n != 0;
          assert a[1..][n - 1] == x;
        }
      }
      SortedUnique(a[1..], b[1..], le);
      assert a == [a[0]] + a[1..] && b == [b[0]] + b[1..];
    }
  }

  lemma PermutationMembers<T>(a: seq<T>, b: seq<T>)
    requires multiset(a) == multiset(b)
    ensures |a| == |b|
    ensures forall x :: x in a <==> x in b
  {
    assert |multiset(a)| == |a| && |multiset(b)| == |b|;
    forall x ensures x in a <==> x in b {
      assert x in a <==> x in multiset(a);
      assert x in b <==> x in multiset(b);
    }
  }

  /** Sorting a sequence without ties has one outcome, whatever sort is used. */
  lemma OnlySorting<T(!new)>(s: seq<T>, t: seq<T>, le: (T, T) -> bool)
    requires TotalPreorder(le) && NoTies(s, le)
    requires Sorted(t, le) && multiset(t) == multiset(s)
    ensures t == SortBy(s, le)
    ensures NoTies(t, le)
  {
    SortBySorts(s, le);
    PermutationMembers(s, t);
    PermutationMembers(s, SortBy(s, le));
    NoTiesPermutes(s, t, le);
    NoTiesPermutes(s, SortBy(s, le), le);
    SortedUnique(t, SortBy(s, le), le);
  }

  lemma NoTiesPermutes<T(!new)>(s: seq<T>, t: seq<T>, le: (T, T) -> bool)
    requires TotalPreorder(le) && NoTies(s, le)
    requires multiset(t) == multiset(s)
    ensures NoTies(t, le)
  {
    forall i, j | 0 <= i < |t| && 0 <= j < |t| && i != j ensures !(le(t[i], t[j]) && le(t[j], t[i])) {
      assert t[i] in multiset(s) && t[j] in multiset(s);
      if t[i] == t[j] {
        Twice(t, i, j);
        OnceOnly(s, t[i], le);
      } else {
        var k :| 0 <= k < |s| && s[k] == t[i];
        var l :| 0 <= l < |s| && s[l] == t[j];
      }
    }
  }

  lemma Twice<T>(t: seq<T>, i: nat, j: nat)
    requires i < |t| && j < |t| && i != j && t[i] == t[j]
    ensures multiset(t)[t[i]] >= 2
  {
    var a, b := if i < j then i else j, if i < j then j else i;
    assert t == t[..a] + [t[a]] + t[a + 1..b] + [t[b]] + t[b + 1..];
  }

  lemma {:induction false} OnceOnly<T(!new)>(s: seq<T>, x: T, le: (T, T) -> bool)
    requires TotalPreorder(le) && NoTies(s, le)
    ensures multiset(s)[x] <= 1
  {
    if s != [] {
      assert s == [s[0]] + s[1..];
      OnceOnly(s[1..], x, le);
      assert le(x, x);
      assert forall k :: 0 <= k < |s[1..]| ==> s[1..][k] == s[k + 1];
    }
  }

  /** sort.Slice: an insertion sort stands in for Go's, and only what Go promises
      is promised: order and permutation, nothing about ties. */
  method SortSlice<T(!new)>(s: seq<T>, le: (T, T) -> bool) returns (r: seq<T>)
    requires TotalPreorder(le)
    ensures Sorted(r, le)
    ensures multiset(r) == multiset(s)
  {
    r := [];
    for n := 0 to |s|
      invariant Sorted(r, le)
      invariant multiset(r) == multiset(s[..n])
    {
      InsertSorted(s[n], r, le);
      assert s[..n + 1] == s[..n] + [s[n]];
      r := Insert(s[n], r, le);
    }
    assert s[..|s|] == s;
  }
}
