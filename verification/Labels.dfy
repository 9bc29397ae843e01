/** Maps of labels and annotations, and the one-line record of a key set. */
module Labels {
  import opened Text
  import opened Sorting

  type Map = map<string, string>

  function Look(m: Map, k: string): Option<string> { if k in m then Some(m[k]) else None }

  // ------------------------------------------------------------- plain map work

  /** MapEntriesMissing. */
  predicate EntriesMissing(desired: Map, current: Map) {
    exists k :: k in desired && Get(current, k) != desired[k]
  }

  /** MergeLabels: two loops over maps, in any order. */
  method MergeLabels(base: Map, overlay: Map) returns (merged: Map)
    ensures merged == base + overlay
  {
    merged := map[];
    var todo := base.Keys;
    while todo != {}
      invariant todo <= base.Keys
      invariant merged.Keys == base.Keys - todo
      invariant forall k :: k in merged ==> merged[k] == base[k]
      decreases todo
    {
      var k :| k in todo;
      merged := merged[k := base[k]];
      todo := todo - {k};
    }
    todo := overlay.Keys;
    while todo != {}
      invariant todo <= overlay.Keys
      invariant merged.Keys == base.Keys + (overlay.Keys - todo)
      invariant forall k :: k in merged ==> merged[k] == if k in overlay && k !in todo then overlay[k] else base[k]
      decreases todo
    {
      var k :| k in todo;
      merged := merged[k := overlay[k]];
      todo := todo - {k};
    }
  }

  /** withoutKeys. */
  method WithoutKeys(m: Map, keys: seq<string>) returns (out: Map)
    ensures out == m - (set k | k in keys)
  {
    out := MergeLabels(m, map[]);
    for i := 0 to |keys|
      invariant out == m - (set k | k in keys[..i])
    {
      assert keys[..i + 1] == keys[..i] + [keys[i]];
      out := out - {keys[i]};
    }
    assert keys[..|keys|] == keys;
  }

  // ------------------------------------------------------- a key set as one line

  lemma LeqOrder()
    ensures TotalPreorder(Leq)
  {
    forall x, y ensures Leq(x, y) || Leq(y, x) { LeqTotal(x, y); }
    forall x, y, z | Leq(x, y) && Leq(y, z) ensures Leq(x, z) { LeqTransitive(x, y, z); }
  }

  ghost function Listing(s: set<string>): (r: seq<string>)
    ensures forall k :: k in r <==> k in s
    ensures forall i, j :: 0 <= i < j < |r| ==> r[i] != r[j]
  {
    if s == {} then [] else
      var k :| k in s;
      [k] + Listing(s - {k})
  }

  /** The members of a set in ascending order. */
  ghost function SortedKeys(s: set<string>): seq<string> { SortBy(Listing(s), Leq) }

  lemma DistinctNoTies(r: seq<string>)
    requires forall i, j :: 0 <= i < j < |r| ==> r[i] != r[j]
    ensures NoTies(r, Leq)
  {
    forall i, j | 0 <= i < |r| && 0 <= j < |r| && i != j ensures !(Leq(r[i], r[j]) && Leq(r[j], r[i])) {
      if Leq(r[i], r[j]) && Leq(r[j], r[i]) { LeqAntisymmetric(r[i], r[j]); }
    }
  }

  lemma SortedKeysAre(s: set<string>)
    ensures Sorted(SortedKeys(s), Leq) && NoTies(SortedKeys(s), Leq)
    ensures forall k :: k in SortedKeys(s) <==> k in s
    ensures SortedKeys(s) == [] <==> s == {}
  {
    LeqOrder();
    SortBySorts(Listing(s), Leq);
    PermutationMembers(SortedKeys(s), Listing(s));
    DistinctNoTies(Listing(s));
    NoTiesPermutes(Listing(s), SortedKeys(s), Leq);
    if s == {} { assert Listing(s) == []; }
    if s != {} {
      var k :| k in s;
      assert k in SortedKeys(s);
    }
  }

  /** There is one ascending list of a set's members. */
  lemma OnlySortedKeys(s: set<string>, r: seq<string>)
    requires Sorted(r, Leq) && NoTies(r, Leq)
    requires forall k :: k in r <==> k in s
    ensures r == SortedKeys(s)
  {
    LeqOrder();
    SortedKeysAre(s);
    SortedUnique(r, SortedKeys(s), Leq);
  }

  /** JoinKeys. */
  ghost function JoinedKeys(m: Map): string { Join(SortedKeys(m.Keys), ',') }

  method JoinKeys(m: Map) returns (r: string)
    ensures r == JoinedKeys(m)
  {
    var keys: seq<string> := [];
    var todo := m.Keys;
    while todo != {}
      invariant todo <= m.Keys
      invariant forall k :: k in keys <==> k in m.Keys && k !in todo
      invariant forall i, j :: 0 <= i < j < |keys| ==> keys[i] != keys[j]
      decreases todo
    {
      var k :| k in todo;
      keys := keys + [k];
      todo := todo - {k};
    }
    LeqOrder();
    var sorted := SortSlice(keys, Leq);
    PermutationMembers(sorted, keys);
    DistinctNoTies(keys);
    NoTiesPermutes(keys, sorted, Leq);
    OnlySortedKeys(m.Keys, sorted);
    r := Join(sorted, ',');
  }

  /** A label or annotation key: not empty, no comma. */
  ghost predicate ValidKeys(s: set<string>) { forall k :: k in s ==> k != "" && ',' !in k }

  function NotIn(xs: seq<string>, ys: seq<string>): seq<string> {
    if xs == [] then []
    else
      var init, last := xs[..|xs| - 1], xs[|xs| - 1];
      if last in ys then NotIn(init, ys) else NotIn(init, ys) + [last]
  }

  /** RemovedKeys. */
  function Removed(previous: string, current: string): seq<string> {
    if previous == "" then [] else NotIn(Split(previous, ','), Split(current, ','))
  }

  method RemovedKeys(previous: string, current: string) returns (removed: seq<string>)
    ensures removed == Removed(previous, current)
  {
    if previous == "" {
      return [];
    }
    var kept: set<string> := {};
    var now := Split(current, ',');
    for i := 0 to |now|
      invariant kept == set k | k in now[..i]
    {
      assert now[..i + 1] == now[..i] + [now[i]];
      kept := kept + {now[i]};
    }
    assert now[..|now|] == now;
    removed := [];
    var before := Split(previous, ',');
    for i := 0 to |before|
      invariant removed == NotIn(before[..i], now)
    {
      assert before[..i + 1][..i] == before[..i];
      if before[i] !in kept {
        removed := removed + [before[i]];
      }
    }
    assert before[..|before|] == before;
  }

  lemma {:induction false} NotInMembers(xs: seq<string>, ys: seq<string>)
    ensures forall k :: k in NotIn(xs, ys) <==> k in xs && k !in ys
  {
    if xs != [] {
      var init, last := xs[..|xs| - 1], xs[|xs| - 1];
      assert xs == init + [last];
      NotInMembers(init, ys);
    }
  }

  lemma {:induction false} NotInSorted(xs: seq<string>, ys: seq<string>)
    requires Sorted(xs, Leq) && NoTies(xs, Leq)
    ensures Sorted(NotIn(xs, ys), Leq) && NoTies(NotIn(xs, ys), Leq)
  {
    if xs != [] {
      var init, last := xs[..|xs| - 1], xs[|xs| - 1];
      NotInSorted(init, ys);
      NotInMembers(init, ys);
      var r := NotIn(init, ys);
      forall i | 0 <= i < |r| ensures Leq(r[i], last) && !Leq(last, r[i]) {
        assert r[i] in init;
        var k :| 0 <= k < |init| && init[k] == r[i];
        assert xs[k] == r[i] && xs[|xs| - 1] == last;
      }
    }
  }

  /** The keys read back from the line of a key set. */
  lemma ReadBack(s: set<string>)
    requires ValidKeys(s)
    ensures s != {} ==> Split(Join(SortedKeys(s), ','), ',') == SortedKeys(s)
    ensures s == {} <==> Join(SortedKeys(s), ',') == ""
  {
    SortedKeysAre(s);
    if s != {} {
      SplitJoin(SortedKeys(s), ',');
      assert SortedKeys(s)[0] in s;
    }
  }

  /** The line identifies the key set. */
  lemma JoinedKeysInjective(a: Map, b: Map)
    requires ValidKeys(a.Keys) && ValidKeys(b.Keys)
    requires JoinedKeys(a) == JoinedKeys(b)
    ensures a.Keys == b.Keys
  {
    ReadBack(a.Keys);
    ReadBack(b.Keys);
    SortedKeysAre(a.Keys);
    SortedKeysAre(b.Keys);
    assert forall k :: k in a.Keys <==> k in b.Keys;
  }

  /** The removed keys of two lines are the difference of their key sets, in order. */
  lemma RemovedIsDifference(a: Map, b: Map)
    requires ValidKeys(a.Keys) && ValidKeys(b.Keys)
    ensures Removed(JoinedKeys(a), JoinedKeys(b)) == SortedKeys(a.Keys - b.Keys)
  {
    ReadBack(a.Keys);
    ReadBack(b.Keys);
    SortedKeysAre(a.Keys);
    SortedKeysAre(b.Keys);
    var now := Split(JoinedKeys(b), ',');
    if a.Keys == {} {
      OnlySortedKeys(a.Keys - b.Keys, []);
    } else {
      NotInMembers(SortedKeys(a.Keys), now);
      NotInSorted(SortedKeys(a.Keys), now);
      if b.Keys == {} {
        SplitNoSep("", ',');
        assert now == [""];
      }
      forall k ensures k in NotIn(SortedKeys(a.Keys), now) <==> k in a.Keys - b.Keys {}
      OnlySortedKeys(a.Keys - b.Keys, NotIn(SortedKeys(a.Keys), now));
    }
  }
}
