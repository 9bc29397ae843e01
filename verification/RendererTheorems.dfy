/** What the renderer promises across passes: verdicts by age, independence of the
    order of arrival, files that say what was accepted, and a fixpoint. */
module RendererTheorems {
  import opened Text
  import opened Sorting
  import opened Base64
  import opened PasswordHash
  import opened Topics
  import opened Credentials
  import opened Files
  import opened Renderer

  /** The operator's own principals: no two of one name, and nothing a line of the
      files cannot hold. */
  ghost predicate PrincipalsOk(reserved: seq<Principal>) {
    DistinctPrincipals(reserved) && forall q :: q in reserved ==> PlainPrincipal(q)
  }

  lemma ExporterOk(password: string)
    ensures PrincipalsOk([ExporterPrincipal(password)]) && PrincipalsOk([])
  {
  }

  // ------------------------------------------------------- who holds a username

  /** The least checked input of its username, by creation time and then by name. */
  ghost predicate IsOldest(e: Env, inputs: seq<Input>, x: Input) {
    && x in inputs && Check(e, x).None?
    && forall y :: y in inputs && Check(e, y).None? && y.username == x.username ==> InputLeq(x, y)
  }

  lemma ByAgeSorted(e: Env, inputs: seq<Input>)
    ensures Sorted(ByAge(e, inputs), InputLeq)
    ensures forall x :: x in ByAge(e, inputs) <==> x in inputs && Check(e, x).None?
    ensures multiset(ByAge(e, inputs)) == multiset(Candidates(e, inputs))
  {
    InputOrder();
    SortBySorts(Candidates(e, inputs), InputLeq);
    OrderForced(e, inputs, ByAge(e, inputs));
  }

  lemma SameNameSameInput(inputs: seq<Input>, x: Input, y: Input)
    requires DistinctNames(inputs) && x in inputs && y in inputs && x.name == y.name
    ensures x == y
  {
  }

  lemma OldestIsUnique(e: Env, inputs: seq<Input>, x: Input, y: Input)
    requires DistinctNames(inputs)
    requires IsOldest(e, inputs, x) && IsOldest(e, inputs, y) && x.username == y.username
    ensures x == y
  {
    LeqAntisymmetric(x.name, y.name);
    SameNameSameInput(inputs, x, y);
  }

  /** The input that goes through the collision check first is the oldest. */
  lemma HolderIsOldest(e: Env, inputs: seq<Input>, username: string)
    requires Holder(ByAge(e, inputs), username).Some?
    ensures IsOldest(e, inputs, Holder(ByAge(e, inputs), username).value)
    ensures Holder(ByAge(e, inputs), username).value.username == username
  {
    var c := ByAge(e, inputs);
    ByAgeSorted(e, inputs);
    InputOrder();
    HolderIsFirst(c, username);
    var h := Holder(c, username).value;
    var i :| 0 <= i < |c| && c[i] == h && forall j :: 0 <= j < i ==> c[j].username != username;
    forall y | y in inputs && Check(e, y).None? && y.username == username ensures InputLeq(h, y) {
      assert y in c;
      var k :| 0 <= k < |c| && c[k] == y;
      if k == i { assert InputLeq(h, h); }
    }
  }

  lemma HolderExists(e: Env, inputs: seq<Input>, x: Input)
    requires x in inputs && Check(e, x).None?
    ensures Holder(ByAge(e, inputs), x.username).Some?
  {
    ByAgeSorted(e, inputs);
    HolderIsFirst(ByAge(e, inputs), x.username);
  }

  /** The winners are exactly the oldest inputs. */
  lemma WinnersAreOldest(e: Env, inputs: seq<Input>, x: Input)
    requires DistinctNames(inputs)
    ensures x in Winners(ByAge(e, inputs)) <==> IsOldest(e, inputs, x)
  {
    var c := ByAge(e, inputs);
    WinnersHold(c);
    if IsOldest(e, inputs, x) {
      HolderExists(e, inputs, x);
      HolderIsOldest(e, inputs, x.username);
      OldestIsUnique(e, inputs, x, Holder(c, x.username).value);
    }
    if x in Winners(c) { HolderIsOldest(e, inputs, x.username); }
  }

  // ------------------------------------------------------------------- verdicts

  lemma {:induction false} CheckKeys(e: Env, inputs: seq<Input>)
    ensures forall n :: n in CheckVerdicts(e, inputs) ==> exists x :: x in inputs && x.name == n
  {
    if inputs != [] {
      var init, last := inputs[..|inputs| - 1], inputs[|inputs| - 1];
      CheckKeys(e, init);
      assert last in inputs;
      forall n | n in CheckVerdicts(e, inputs) ensures exists x :: x in inputs && x.name == n {
        if n == last.name {
          assert last.name == n;
        } else {
          assert n in CheckVerdicts(e, init);
          var x :| x in init && x.name == n;
          assert x in inputs;
        }
      }
    }
  }

  /** The check's verdict of one input. */
  ghost predicate Checked(e: Env, inputs: seq<Input>, x: Input) {
    && (x.name in CheckVerdicts(e, inputs) <==> Check(e, x).Some?)
    && (Check(e, x).Some? ==> CheckVerdicts(e, inputs)[x.name] == Refused(Check(e, x).value))
  }

  lemma {:induction false} CheckVerdictsMean(e: Env, inputs: seq<Input>)
    requires DistinctNames(inputs)
    ensures forall x :: x in inputs ==> Checked(e, inputs, x)
    ensures forall n :: n in CheckVerdicts(e, inputs) ==> exists x :: x in inputs && x.name == n
  {
    CheckKeys(e, inputs);
    if inputs != [] {
      var init, last := inputs[..|inputs| - 1], inputs[|inputs| - 1];
      CheckVerdictsMean(e, init);
      forall x | x in init ensures x.name != last.name {
        var i :| 0 <= i < |init| && init[i] == x;
        assert inputs[i].name != inputs[|inputs| - 1].name;
      }
      assert last.name !in CheckVerdicts(e, init);
      forall x | x in inputs ensures Checked(e, inputs, x) {
        if x in init {
          assert Checked(e, init, x) && x.name != last.name;
        } else {
          assert x == last;
        }
      }
    }
  }

  lemma {:induction false} ConflictKeys(c: seq<Input>)
    ensures forall n :: n in ConflictVerdicts(c) ==> exists x :: x in c && x.name == n
  {
    if c != [] {
      var init, last := c[..|c| - 1], c[|c| - 1];
      ConflictKeys(init);
      assert last in c;
      forall n | n in ConflictVerdicts(c) ensures exists x :: x in c && x.name == n {
        if n == last.name {
          assert last.name == n;
        } else {
          assert n in ConflictVerdicts(init);
          var x :| x in init && x.name == n;
          assert x in c;
        }
      }
    }
  }

  /** The conflict verdict of one candidate. */
  ghost predicate ConflictSettled(c: seq<Input>, x: Input) {
    && Holder(c, x.username).Some?
    && (x.name in ConflictVerdicts(c) <==> Holder(c, x.username).value != x)
    && (x.name in ConflictVerdicts(c) ==>
         ConflictVerdicts(c)[x.name] == Refused(UsernameConflict(Holder(c, x.username).value.name)))
  }

  lemma {:induction false} ConflictVerdictsMean(c: seq<Input>)
    requires DistinctNames(c)
    ensures forall x :: x in c ==> ConflictSettled(c, x)
    ensures forall n :: n in ConflictVerdicts(c) ==> exists x :: x in c && x.name == n
  {
    ConflictKeys(c);
    if c != [] {
      var init, last := c[..|c| - 1], c[|c| - 1];
      ConflictVerdictsMean(init);
      forall x | x in init ensures x.name != last.name {
        var i :| 0 <= i < |init| && init[i] == x;
        assert c[i].name != c[|c| - 1].name;
      }
      assert last.name !in ConflictVerdicts(init);
      HolderIsFirst(init, last.username);
      forall x | x in c ensures ConflictSettled(c, x) {
        if x in init {
          assert ConflictSettled(init, x) && x.name != last.name;
        } else {
          assert x == last;
        }
      }
    }
  }

  lemma {:induction false} AdmittedVerdictsMean(winners: seq<Input>)
    ensures forall n :: n in AdmittedVerdicts(winners) <==> exists x :: x in winners && x.name == n
    ensures forall n :: n in AdmittedVerdicts(winners) ==> AdmittedVerdicts(winners)[n] == Admitted
  {
    if winners != [] {
      var init, last := winners[..|winners| - 1], winners[|winners| - 1];
      AdmittedVerdictsMean(init);
      assert winners == init + [last];
      assert last in winners;
      forall n | exists x :: x in winners && x.name == n ensures n in AdmittedVerdicts(winners) {
        var x :| x in winners && x.name == n;
        if x != last { assert x in init; }
      }
      forall n | n in AdmittedVerdicts(winners) ensures exists x :: x in winners && x.name == n {
        if n == last.name {
          assert last in winners && last.name == n;
        } else {
          assert n in AdmittedVerdicts(init);
          var x :| x in init && x.name == n;
          assert x in winners;
        }
      }
    }
  }

  lemma ByAgeDistinct(e: Env, inputs: seq<Input>)
    requires DistinctNames(inputs)
    ensures DistinctNames(ByAge(e, inputs))
  {
    InputOrder();
    CandidatesDistinct(e, inputs);
    var c, b := Candidates(e, inputs), ByAge(e, inputs);
    ByAgeSorted(e, inputs);
    NamesPermute(c, b);
  }

  predicate NameLeq(a: Input, b: Input) { Leq(a.name, b.name) }

  lemma NamesPermute(a: seq<Input>, b: seq<Input>)
    requires DistinctNames(a) && multiset(a) == multiset(b)
    ensures DistinctNames(b)
  {
    assert TotalPreorder(NameLeq) by {
      forall x, y ensures NameLeq(x, y) || NameLeq(y, x) { LeqTotal(x.name, y.name); }
      forall x, y, z | NameLeq(x, y) && NameLeq(y, z) ensures NameLeq(x, z) { LeqTransitive(x.name, y.name, z.name); }
    }
    forall i, j | 0 <= i < |a| && 0 <= j < |a| && i != j ensures !(NameLeq(a[i], a[j]) && NameLeq(a[j], a[i])) {
      assert a[i].name != a[j].name;
      if NameLeq(a[i], a[j]) && NameLeq(a[j], a[i]) { LeqAntisymmetric(a[i].name, a[j].name); }
    }
    NoTiesPermutes(a, b, NameLeq);
    forall i, j | 0 <= i < j < |b| ensures b[i].name != b[j].name {
      LeqTotal(b[i].name, b[i].name);
    }
  }

  /** The verdict of one input, by what decides it. */
  lemma VerdictOne(e: Env, inputs: seq<Input>, x: Input)
    requires DistinctNames(inputs) && x in inputs
    ensures var v := Verdicts(e, inputs, ByAge(e, inputs));
            && x.name in v
            && (v[x.name] == Admitted <==> IsOldest(e, inputs, x))
            && (Check(e, x).Some? ==> v[x.name] == Refused(Check(e, x).value))
            && (Check(e, x).None? && !IsOldest(e, inputs, x) ==>
                 exists h :: IsOldest(e, inputs, h) && h != x && h.username == x.username &&
                             v[x.name] == Refused(UsernameConflict(h.name)))
  {
    var c := ByAge(e, inputs);
    ByAgeSorted(e, inputs);
    ByAgeDistinct(e, inputs);
    CheckVerdictsMean(e, inputs);
    ConflictVerdictsMean(c);
    AdmittedVerdictsMean(Winners(c));
    WinnersAreOldest(e, inputs, x);
    assert Checked(e, inputs, x);
    if x.name in AdmittedVerdicts(Winners(c)) {
      var y :| y in Winners(c) && y.name == x.name;
      WinnersAreOldest(e, inputs, y);
      SameNameSameInput(inputs, x, y);
    }
    if x in c { assert ConflictSettled(c, x); }
    if x.name in ConflictVerdicts(c) {
      var y :| y in c && y.name == x.name;
      SameNameSameInput(inputs, x, y);
      HolderIsOldest(e, inputs, x.username);
    }
    if Check(e, x).None? && !IsOldest(e, inputs, x) {
      WinnersHold(c);
    }
  }

  /** The verdict tells the truth: that the input is the oldest of its username,
      which older input holds the name, or the reason the input fails on its own. */
  ghost predicate Truthful(e: Env, inputs: seq<Input>, x: Input, verdict: Verdict) {
    match verdict
    case Admitted => IsOldest(e, inputs, x)
    case Refused(UsernameConflict(holder)) =>
      Check(e, x).None? && exists h :: IsOldest(e, inputs, h) && h.name == holder && h != x && h.username == x.username
    case Refused(reason) => Check(e, x) == Some(reason)
  }

  lemma NeverConflict(e: Env, x: Input)
    ensures Check(e, x).Some? ==> !Check(e, x).value.UsernameConflict?
  {
  }

  /** Every input gets exactly one verdict, no other name gets one, and each verdict
      is truthful. */
  lemma VerdictsSayWhy(e: Env, inputs: seq<Input>)
    requires DistinctNames(inputs)
    ensures var v := Verdicts(e, inputs, ByAge(e, inputs));
            && (forall n :: n in v <==> exists x :: x in inputs && x.name == n)
            && forall x :: x in inputs ==> x.name in v && Truthful(e, inputs, x, v[x.name])
  {
    var v := Verdicts(e, inputs, ByAge(e, inputs));
    forall x | x in inputs ensures x.name in v && Truthful(e, inputs, x, v[x.name]) {
      VerdictOne(e, inputs, x);
      NeverConflict(e, x);
    }
    forall n | n in v ensures exists x :: x in inputs && x.name == n {
      OnlyInputsJudged(e, inputs, n);
    }
  }

  lemma OnlyInputsJudged(e: Env, inputs: seq<Input>, n: string)
    requires DistinctNames(inputs)
    requires n in Verdicts(e, inputs, ByAge(e, inputs))
    ensures exists x :: x in inputs && x.name == n
  {
    var c := ByAge(e, inputs);
    ByAgeSorted(e, inputs);
    ByAgeDistinct(e, inputs);
    CheckVerdictsMean(e, inputs);
    ConflictVerdictsMean(c);
    AdmittedVerdictsMean(Winners(c));
    WinnersHold(c);
    if n in AdmittedVerdicts(Winners(c)) {
      var x :| x in Winners(c) && x.name == n;
      HolderIsFirst(c, x.username);
    }
  }

  lemma {:induction false} DistinctSize(xs: seq<Input>)
    requires forall i, j :: 0 <= i < j < |xs| ==> xs[i] != xs[j]
    ensures |set x | x in xs| == |xs|
  {
    if xs != [] {
      var init, last := xs[..|xs| - 1], xs[|xs| - 1];
      DistinctSize(init);
      assert xs == init + [last];
      assert (set x | x in xs) == (set x | x in init) + {last};
    }
  }

  /** Accepted counts the inputs whose verdict is True. */
  lemma AcceptedCounts(e: Env, inputs: seq<Input>, reserved: seq<Principal>, previous: Data, random: Bytes)
    requires DistinctNames(inputs)
    requires Rendered(e, inputs, reserved, previous, random).Ok?
    ensures var r := Rendered(e, inputs, reserved, previous, random).value;
            && (forall x :: x in inputs ==> x.name in r.verdicts)
            && r.accepted == |set x | x in inputs && r.verdicts[x.name] == Admitted|
  {
    var c := ByAge(e, inputs);
    var r := Rendered(e, inputs, reserved, previous, random).value;
    WinnersHold(c);
    DistinctSize(Winners(c));
    forall x | x in inputs ensures x.name in r.verdicts { VerdictOne(e, inputs, x); }
    forall x ensures x in Winners(c) <==> x in inputs && r.verdicts[x.name] == Admitted {
      WinnersAreOldest(e, inputs, x);
      if x in inputs { VerdictOne(e, inputs, x); }
    }
    assert (set x | x in inputs && r.verdicts[x.name] == Admitted) == (set x | x in Winners(c));
  }

  /** A newcomer takes a name from its holder exactly when it passes the checks, has
      the same username, and is older. */
  lemma NewcomerTakesOnlyWhenOlder(e: Env, inputs: seq<Input>, x: Input, h: Input)
    requires DistinctNames(inputs + [x])
    requires h in inputs
    requires h.name in Verdicts(e, inputs, ByAge(e, inputs))
    requires Verdicts(e, inputs, ByAge(e, inputs))[h.name] == Admitted
    ensures h.name in Verdicts(e, inputs + [x], ByAge(e, inputs + [x]))
    ensures Verdicts(e, inputs + [x], ByAge(e, inputs + [x]))[h.name] == Admitted <==>
              !(Check(e, x).None? && x.username == h.username && InputLeq(x, h))
  {
    var all := inputs + [x];
    forall i, j | 0 <= i < j < |inputs| ensures inputs[i].name != inputs[j].name {
      assert all[i].name != all[j].name;
    }
    forall i | 0 <= i < |inputs| ensures inputs[i].name != x.name {
      assert all[i].name != all[|inputs|].name;
    }
    assert h in all && x in all && h.name != x.name;
    VerdictOne(e, inputs, h);
    VerdictOne(e, all, h);
    InputOrder();
    if IsOldest(e, all, h) && Check(e, x).None? && x.username == h.username && InputLeq(x, h) {
      LeqAntisymmetric(x.name, h.name);
    }
  }

  // ---------------------------------------------------------- order independence

  lemma CheckVerdictsPermute(e: Env, a: seq<Input>, b: seq<Input>)
    requires DistinctNames(a) && DistinctNames(b)
    requires forall x :: x in a <==> x in b
    ensures CheckVerdicts(e, a) == CheckVerdicts(e, b)
  {
    CheckVerdictsMean(e, a);
    CheckVerdictsMean(e, b);
    var va, vb := CheckVerdicts(e, a), CheckVerdicts(e, b);
    forall n ensures n in va <==> n in vb {
      if n in va { var x :| x in a && x.name == n; assert x in b; }
      if n in vb { var x :| x in b && x.name == n; assert x in a; }
    }
    forall n | n in va ensures va[n] == vb[n] {
      var x :| x in a && x.name == n;
      assert Checked(e, a, x) && Checked(e, b, x);
    }
  }

  /** Whatever order the users arrive in, one pass renders one result: the same
      bytes, verdicts and count, and the same use of the random source. */
  lemma RenderOrderIndependent(e: Env, a: seq<Input>, b: seq<Input>, reserved: seq<Principal>,
                               previous: Data, random: Bytes)
    requires DistinctNames(a)
    requires multiset(a) == multiset(b)
    ensures Rendered(e, a, reserved, previous, random) == Rendered(e, b, reserved, previous, random)
  {
    PermutationMembers(a, b);
    NamesPermute(a, b);
    CheckVerdictsPermute(e, a, b);
    InputOrder();
    ByAgeSorted(e, a);
    ByAgeSorted(e, b);
    ByAgeNoTies(e, a);
    ByAgeNoTies(e, b);
    SortedUnique(ByAge(e, a), ByAge(e, b), InputLeq);
  }

  lemma ByAgeNoTies(e: Env, inputs: seq<Input>)
    requires DistinctNames(inputs)
    ensures NoTies(ByAge(e, inputs), InputLeq)
  {
    ByAgeDistinct(e, inputs);
    var c := ByAge(e, inputs);
    forall i, j | 0 <= i < |c| && 0 <= j < |c| && i != j ensures !(InputLeq(c[i], c[j]) && InputLeq(c[j], c[i])) {
      assert c[i].name != c[j].name;
      if InputLeq(c[i], c[j]) && InputLeq(c[j], c[i]) { LeqAntisymmetric(c[i].name, c[j].name); }
    }
  }

  /** A relation between inputs that neither the checks nor the order by age can see. */
  ghost predicate Unseen(e: Env, rel: (Input, Input) -> bool) {
    forall x, y :: rel(x, y) ==>
      x.name == y.name && x.created == y.created && x.username == y.username && Check(e, x) == Check(e, y)
  }

  ghost predicate Paired(rel: (Input, Input) -> bool, a: seq<Input>, b: seq<Input>) {
    |a| == |b| && forall i :: 0 <= i < |a| ==> rel(a[i], b[i])
  }

  lemma {:induction false} PairedCandidates(e: Env, rel: (Input, Input) -> bool, a: seq<Input>, b: seq<Input>)
    requires Unseen(e, rel) && Paired(rel, a, b)
    ensures Paired(rel, Candidates(e, a), Candidates(e, b))
    ensures CheckVerdicts(e, a) == CheckVerdicts(e, b)
  {
    if a != [] {
      assert rel(a[|a| - 1], b[|b| - 1]);
      PairedCandidates(e, rel, a[..|a| - 1], b[..|b| - 1]);
    }
  }

  lemma {:induction false} PairedInsert(e: Env, rel: (Input, Input) -> bool, x: Input, y: Input, a: seq<Input>, b: seq<Input>)
    requires Unseen(e, rel) && rel(x, y) && Paired(rel, a, b)
    ensures Paired(rel, Insert(x, a, InputLeq), Insert(y, b, InputLeq))
  {
    if a != [] {
      assert rel(a[0], b[0]);
      if !InputLeq(x, a[0]) { PairedInsert(e, rel, x, y, a[1..], b[1..]); }
    }
  }

  lemma {:induction false} PairedSort(e: Env, rel: (Input, Input) -> bool, a: seq<Input>, b: seq<Input>)
    requires Unseen(e, rel) && Paired(rel, a, b)
    ensures Paired(rel, SortBy(a, InputLeq), SortBy(b, InputLeq))
  {
    if a != [] {
      PairedSort(e, rel, a[1..], b[1..]);
      PairedInsert(e, rel, a[0], b[0], SortBy(a[1..], InputLeq), SortBy(b[1..], InputLeq));
    }
  }

  lemma {:induction false} PairedHolder(e: Env, rel: (Input, Input) -> bool, a: seq<Input>, b: seq<Input>, username: string)
    requires Unseen(e, rel) && Paired(rel, a, b)
    ensures Holder(a, username).Some? == Holder(b, username).Some?
    ensures Holder(a, username).Some? ==> rel(Holder(a, username).value, Holder(b, username).value)
  {
    if a != [] {
      assert rel(a[|a| - 1], b[|b| - 1]);
      PairedHolder(e, rel, a[..|a| - 1], b[..|b| - 1], username);
    }
  }

  lemma {:induction false} PairedWinners(e: Env, rel: (Input, Input) -> bool, a: seq<Input>, b: seq<Input>)
    requires Unseen(e, rel) && Paired(rel, a, b)
    ensures Paired(rel, Winners(a), Winners(b))
    ensures ConflictVerdicts(a) == ConflictVerdicts(b)
  {
    if a != [] {
      assert rel(a[|a| - 1], b[|b| - 1]);
      PairedWinners(e, rel, a[..|a| - 1], b[..|b| - 1]);
      PairedHolder(e, rel, a[..|a| - 1], b[..|b| - 1], a[|a| - 1].username);
    }
  }

  lemma {:induction false} PairedAdmitted(e: Env, rel: (Input, Input) -> bool, a: seq<Input>, b: seq<Input>)
    requires Unseen(e, rel) && Paired(rel, a, b)
    ensures AdmittedVerdicts(a) == AdmittedVerdicts(b)
  {
    if a != [] {
      assert rel(a[|a| - 1], b[|b| - 1]);
      PairedAdmitted(e, rel, a[..|a| - 1], b[..|b| - 1]);
    }
  }

  /** Inputs paired by such a relation get the same verdicts, and winners paired by it. */
  lemma PairedInputs(e: Env, rel: (Input, Input) -> bool, a: seq<Input>, b: seq<Input>)
    requires Unseen(e, rel) && Paired(rel, a, b)
    ensures Paired(rel, Winners(ByAge(e, a)), Winners(ByAge(e, b)))
    ensures Verdicts(e, a, ByAge(e, a)) == Verdicts(e, b, ByAge(e, b))
  {
    PairedCandidates(e, rel, a, b);
    PairedSort(e, rel, Candidates(e, a), Candidates(e, b));
    PairedWinners(e, rel, ByAge(e, a), ByAge(e, b));
    PairedAdmitted(e, rel, Winners(ByAge(e, a)), Winners(ByAge(e, b)));
  }

  /** Two inputs that differ at most in the order and repetition of ACL entries. */
  ghost predicate Alike(x: Input, y: Input) {
    && x.name == y.name && x.created == y.created && x.username == y.username && x.password == y.password
    && forall a :: a in x.acls <==> a in y.acls
  }

  ghost predicate AllAlike(a: seq<Input>, b: seq<Input>) {
    |a| == |b| && forall i :: 0 <= i < |a| ==> Alike(a[i], b[i])
  }

  lemma AlikeCheck(e: Env, x: Input, y: Input)
    requires Alike(x, y)
    ensures Check(e, x) == Check(e, y)
    ensures LoginOf(x) == LoginOf(y)
  {
    CanonicalUnique(x.acls, y.acls);
    assert (exists a :: a in x.acls && !AclAllowed(e, a)) <==> (exists a :: a in y.acls && !AclAllowed(e, a));
  }

  /** Reordering or repeating the entries of any user's ACL list changes nothing of the
      data, the reasons of the verdicts and the count. */
  lemma AclOrderIrrelevant(e: Env, a: seq<Input>, b: seq<Input>, reserved: seq<Principal>,
                           previous: Data, random: Bytes)
    requires AllAlike(a, b)
    ensures Rendered(e, a, reserved, previous, random) == Rendered(e, b, reserved, previous, random)
  {
    forall x, y | Alike(x, y) ensures Check(e, x) == Check(e, y) { AlikeCheck(e, x, y); }
    PairedInputs(e, Alike, a, b);
    var wa, wb := Winners(ByAge(e, a)), Winners(ByAge(e, b));
    forall i | 0 <= i < |wa| ensures LoginOf(wa[i]) == LoginOf(wb[i]) { AlikeCheck(e, wa[i], wb[i]); }
    assert LoginsOf(wa) == LoginsOf(wb);
  }

  // ------------------------------------------------------------ what is written

  /** Sorting users of distinct names keeps them, and puts them in their one order. */
  lemma SortedUsers(hashed: seq<Accepted>, users: seq<Accepted>)
    requires DistinctUsernames(hashed) && users == SortBy(hashed, UserLeq)
    ensures |users| == |hashed| && forall u :: u in users <==> u in hashed
    ensures DistinctUsernames(users) && Sorted(users, UserLeq) && NoTies(users, UserLeq)
  {
    UserOrder();
    SortBySorts(hashed, UserLeq);
    PermutationMembers(users, hashed);
    UsersNoTies(hashed);
    NoTiesPermutes(hashed, users, UserLeq);
    NoTiesDistinct(users);
  }

  lemma HashedPrintable(e: Env, inputs: seq<Input>, reserved: seq<Principal>, hashed: seq<Accepted>)
    requires PrincipalsOk(reserved)
    requires |hashed| == |AllLogins(ByAge(e, inputs), reserved)|
    requires forall i :: 0 <= i < |hashed| ==> Hashed(e, AllLogins(ByAge(e, inputs), reserved)[i], hashed[i])
    ensures forall u :: u in hashed ==> Printable(u)
  {
    forall u | u in hashed ensures Printable(u) {
      var i :| 0 <= i < |hashed| && hashed[i] == u;
      LoginPlain(e, inputs, reserved, i);
      assert Hashed(e, AllLogins(ByAge(e, inputs), reserved)[i], hashed[i]);
    }
  }

  /** The logins, hashes and printed users behind a successful pass. */
  lemma Shape(e: Env, inputs: seq<Input>, reserved: seq<Principal>, previous: Data, random: Bytes)
    returns (logins: seq<Login>, hashed: seq<Accepted>, users: seq<Accepted>)
    requires e.Valid() && PrincipalsOk(reserved)
    requires Rendered(e, inputs, reserved, previous, random).Ok?
    ensures logins == AllLogins(ByAge(e, inputs), reserved)
    ensures HashAll(e, logins, KnownHashes(previous), random).Ok?
    ensures HashAll(e, logins, KnownHashes(previous), random).value == hashed
    ensures Rendered(e, inputs, reserved, previous, random).value.data == RenderedFiles(users)
    ensures |hashed| == |logins| && forall i :: 0 <= i < |logins| ==> Hashed(e, logins[i], hashed[i])
    ensures forall u :: u in users <==> u in hashed
    ensures |users| == |hashed|
    ensures DistinctUsernames(users)
    ensures Sorted(users, UserLeq) && NoTies(users, UserLeq)
    ensures forall u :: u in users ==> Printable(u)
  {
    var order := ByAge(e, inputs);
    var known := KnownHashes(previous);
    logins := AllLogins(order, reserved);
    hashed := HashAll(e, logins, known, random).value;
    users := SortBy(hashed, UserLeq);
    KnownOnOneLine(previous);
    HashAllShape(e, logins, known, random);
    ByAgeSorted(e, inputs);
    HashedOnce(e, order, reserved, known, random);
    SortedUsers(hashed, users);
    HashedPrintable(e, inputs, reserved, hashed);
  }

  lemma NoTiesDistinct(users: seq<Accepted>)
    requires NoTies(users, UserLeq)
    ensures DistinctUsernames(users)
  {
    forall i, j | 0 <= i < j < |users| ensures users[i].username != users[j].username {
      LeqTotal(users[i].username, users[i].username);
    }
  }

  lemma LoginPlain(e: Env, inputs: seq<Input>, reserved: seq<Principal>, i: nat)
    requires PrincipalsOk(reserved)
    requires i < |AllLogins(ByAge(e, inputs), reserved)|
    ensures var l := AllLogins(ByAge(e, inputs), reserved)[i];
            && PlainUsername(l.username)
            && (forall a :: a in l.acls ==> PlainAcl(a))
            && (!l.own ==> forall a :: a in l.acls ==> !HasPrefix(a.topic, "$"))
            && (l.own ==> exists q :: q in reserved && q.username == l.username)
  {
    var c := ByAge(e, inputs);
    var w := Winners(c);
    if i < |w| {
      WinnersHold(c);
      assert w[i] in w;
      HolderIsFirst(c, w[i].username);
      ByAgeSorted(e, inputs);
      CheckedIsPlain(e, w[i]);
      CanonicalKeeps(w[i].acls);
    } else {
      var q := reserved[i - |w|];
      assert q in reserved && PlainPrincipal(q);
      CanonicalKeeps(q.acls);
    }
  }

  /** A user that the files have to name: the oldest of its username, or one of the
      operator's own. */
  ghost predicate Entitled(e: Env, inputs: seq<Input>, reserved: seq<Principal>,
                           username: string, password: string, acls: seq<Acl>) {
    || (exists x :: IsOldest(e, inputs, x) && x.username == username && x.password == password && x.acls == acls)
    || (exists q :: q in reserved && q.username == username && q.password == password && q.acls == acls)
  }

  /** The login was made for someone entitled. */
  ghost predicate MadeFor(e: Env, inputs: seq<Input>, reserved: seq<Principal>, l: Login) {
    exists acls :: Entitled(e, inputs, reserved, l.username, l.password, acls) && l.acls == CanonicalAcls(acls)
  }

  lemma WinnerEntitled(e: Env, inputs: seq<Input>, reserved: seq<Principal>, x: Input)
    requires DistinctNames(inputs) && x in Winners(ByAge(e, inputs))
    ensures MadeFor(e, inputs, reserved, LoginOf(x))
  {
    WinnersAreOldest(e, inputs, x);
    assert Entitled(e, inputs, reserved, x.username, x.password, x.acls);
  }

  lemma PrincipalEntitled(e: Env, inputs: seq<Input>, reserved: seq<Principal>, q: Principal)
    requires q in reserved
    ensures MadeFor(e, inputs, reserved, OwnLogin(q))
  {
  }

  lemma LoginEntitled(e: Env, inputs: seq<Input>, reserved: seq<Principal>, l: Login)
    requires DistinctNames(inputs)
    requires l in AllLogins(ByAge(e, inputs), reserved)
    ensures MadeFor(e, inputs, reserved, l)
  {
    var all := AllLogins(ByAge(e, inputs), reserved);
    var w := Winners(ByAge(e, inputs));
    var i :| 0 <= i < |all| && all[i] == l;
    if i < |w| {
      WinnerEntitled(e, inputs, reserved, w[i]);
    } else {
      PrincipalEntitled(e, inputs, reserved, reserved[i - |w|]);
    }
  }

  lemma EntitledLogin(e: Env, inputs: seq<Input>, reserved: seq<Principal>, username: string, password: string, acls: seq<Acl>)
    requires DistinctNames(inputs)
    requires Entitled(e, inputs, reserved, username, password, acls)
    ensures exists l :: l in AllLogins(ByAge(e, inputs), reserved) &&
              l.username == username && l.password == password && l.acls == CanonicalAcls(acls)
  {
    var all := AllLogins(ByAge(e, inputs), reserved);
    var w := Winners(ByAge(e, inputs));
    if x :| IsOldest(e, inputs, x) && x.username == username && x.password == password && x.acls == acls {
      WinnersAreOldest(e, inputs, x);
      var i :| 0 <= i < |w| && w[i] == x;
      assert all[i] == LoginOf(x);
    } else {
      var q :| q in reserved && q.username == username && q.password == password && q.acls == acls;
      var i :| 0 <= i < |reserved| && reserved[i] == q;
      assert all[|w| + i] == OwnLogin(q);
    }
  }

  /** The passwd and the acl file, read by their line formats, name the same users
      in the same strictly ascending order; each of them is entitled to be there,
      with a hash that verifies its password and exactly its own grants. */
  lemma FilesNameOnlyTheEntitled(e: Env, inputs: seq<Input>, reserved: seq<Principal>, previous: Data, random: Bytes)
    requires e.Valid() && PrincipalsOk(reserved) && DistinctNames(inputs)
    requires Rendered(e, inputs, reserved, previous, random).Ok?
    ensures var data := Rendered(e, inputs, reserved, previous, random).value.data;
            && |ReadPasswd(data)| == |ReadAcl(data)|
            && (forall i, j :: 0 <= i < j < |ReadPasswd(data)| ==>
                  Leq(ReadPasswd(data)[i].fst, ReadPasswd(data)[j].fst) && ReadPasswd(data)[i].fst != ReadPasswd(data)[j].fst)
            && forall i :: 0 <= i < |ReadPasswd(data)| ==>
                 ReadAcl(data)[i].user == ReadPasswd(data)[i].fst &&
                 exists password, acls ::
                   && Entitled(e, inputs, reserved, ReadPasswd(data)[i].fst, password, acls)
                   && e.Verifies(ReadPasswd(data)[i].snd, password)
                   && ReadAcl(data)[i].grants == CanonicalAcls(acls)
  {
    var logins, hashed, users := Shape(e, inputs, reserved, previous, random);
    PasswdRoundTrip(users);
    AclRoundTrip(users);
    forall i | 0 <= i < |users|
      ensures exists password, acls ::
                && Entitled(e, inputs, reserved, users[i].username, password, acls)
                && e.Verifies(users[i].hash, password)
                && users[i].acls == CanonicalAcls(acls)
    {
      assert users[i] in hashed;
      var k :| 0 <= k < |hashed| && hashed[k] == users[i];
      assert Hashed(e, logins[k], hashed[k]);
      assert logins[k] in logins;
      LoginEntitled(e, inputs, reserved, logins[k]);
    }
  }

  /** A printed user is in both files, at the same place. */
  lemma PrintedInBoth(users: seq<Accepted>, u: Accepted)
    requires u in users && DistinctUsernames(users) && forall x :: x in users ==> Printable(x)
    ensures var data := RenderedFiles(users);
            && |ReadPasswd(data)| == |ReadAcl(data)|
            && (exists i :: 0 <= i < |ReadPasswd(data)| && ReadPasswd(data)[i] == EntryOf(u) && ReadAcl(data)[i] == BlockOf(u))
            && Get(KnownHashes(data), u.username) == u.hash
  {
    PasswdRoundTrip(users);
    AclRoundTrip(users);
    HashesRoundTrip(users);
    var i :| 0 <= i < |users| && users[i] == u;
    assert EntriesOf(users)[i] == EntryOf(u) && BlocksOf(users)[i] == BlockOf(u);
  }

  /** Every user entitled to it is in both files. */
  lemma FilesNameAllTheEntitled(e: Env, inputs: seq<Input>, reserved: seq<Principal>, previous: Data, random: Bytes,
                                username: string, password: string, acls: seq<Acl>)
    requires e.Valid() && PrincipalsOk(reserved) && DistinctNames(inputs)
    requires Rendered(e, inputs, reserved, previous, random).Ok?
    requires Entitled(e, inputs, reserved, username, password, acls)
    ensures var data := Rendered(e, inputs, reserved, previous, random).value.data;
            exists i :: 0 <= i < |ReadPasswd(data)| && |ReadPasswd(data)| == |ReadAcl(data)| &&
              ReadPasswd(data)[i].fst == username && e.Verifies(ReadPasswd(data)[i].snd, password) &&
              ReadAcl(data)[i] == Block(username, CanonicalAcls(acls))
    ensures var data := Rendered(e, inputs, reserved, previous, random).value.data;
            e.Verifies(Get(KnownHashes(data), username), password)
  {
    var logins, hashed, users := Shape(e, inputs, reserved, previous, random);
    EntitledLogin(e, inputs, reserved, username, password, acls);
    var l :| l in logins && l.username == username && l.password == password && l.acls == CanonicalAcls(acls);
    var k :| 0 <= k < |logins| && logins[k] == l;
    assert Hashed(e, logins[k], hashed[k]);
    assert hashed[k] in users;
    PrintedInBoth(users, hashed[k]);
  }

  /** A grant on a topic of the broker's own belongs to one of the operator's
      principals. */
  lemma DollarGrantsAreReserved(e: Env, inputs: seq<Input>, reserved: seq<Principal>, previous: Data, random: Bytes)
    requires e.Valid() && PrincipalsOk(reserved)
    requires Rendered(e, inputs, reserved, previous, random).Ok?
    ensures var blocks := ReadAcl(Rendered(e, inputs, reserved, previous, random).value.data);
            forall b, a :: b in blocks && a in b.grants && HasPrefix(a.topic, "$") ==>
              HasPrefix(b.user, RESERVED_PREFIX) && exists q :: q in reserved && q.username == b.user
  {
    var logins, hashed, users := Shape(e, inputs, reserved, previous, random);
    AclRoundTrip(users);
    forall b, a | b in BlocksOf(users) && a in b.grants && HasPrefix(a.topic, "$")
      ensures HasPrefix(b.user, RESERVED_PREFIX) && exists q :: q in reserved && q.username == b.user
    {
      var i :| 0 <= i < |users| && BlocksOf(users)[i] == b;
      assert users[i] in hashed;
      var k :| 0 <= k < |hashed| && hashed[k] == users[i];
      assert Hashed(e, logins[k], hashed[k]);
      LoginPlain(e, inputs, reserved, k);
    }
  }

  /** What the exporter's filter matches: every topic of the broker's own tree, and no
      other. */
  lemma SysTopics(topic: string)
    ensures Matches("$SYS/#", topic) <==> Split(topic, '/')[0] == "$SYS"
  {
    SplitNoSep("#", '/');
    SplitCons("$SYS", "#", '/');
    assert "$SYS/#" == "$SYS" + ['/'] + "#";
    var filter := Split("$SYS/#", '/');
    assert filter == ["$SYS", "#"] && filter[1..] == ["#"] && filter[0] == "$SYS";
    var levels := Split(topic, '/');
    assert LevelsMatch(["#"], levels[1..]);
    assert "$SYS/#"[0] == '$' && |"$SYS"| != |"#"| && |"$SYS"| != |"+"|;
    assert LevelsMatch(filter, levels) <==> levels[0] == "$SYS";
  }

  /** The block of an operator's own user in the acl file is that of a principal. */
  lemma OwnBlock(e: Env, inputs: seq<Input>, reserved: seq<Principal>, previous: Data, random: Bytes, i: nat)
    returns (q: Principal)
    requires e.Valid() && PrincipalsOk(reserved) && DistinctNames(inputs)
    requires Rendered(e, inputs, reserved, previous, random).Ok?
    requires var blocks := ReadAcl(Rendered(e, inputs, reserved, previous, random).value.data);
             i < |blocks| && HasPrefix(blocks[i].user, RESERVED_PREFIX)
    ensures q in reserved && ReadAcl(Rendered(e, inputs, reserved, previous, random).value.data)[i] ==
                             Block(q.username, CanonicalAcls(q.acls))
  {
    var data := Rendered(e, inputs, reserved, previous, random).value.data;
    FilesNameOnlyTheEntitled(e, inputs, reserved, previous, random);
    var username := ReadPasswd(data)[i].fst;
    var password, acls :| Entitled(e, inputs, reserved, username, password, acls) &&
                          ReadAcl(data)[i].grants == CanonicalAcls(acls);
    forall x | IsOldest(e, inputs, x) ensures x.username != username { ReservedIsApart(e, x, username); }
    q :| q in reserved && q.username == username && q.acls == acls;
  }

  /** The one user of the operator's own in a rendered acl file is the exporter, which may
      read the broker's own topics, all of them, and nothing else, and write none. */
  lemma ExporterReadsSys(e: Env, inputs: seq<Input>, exporter: Option<string>, previous: Data, random: Bytes, i: nat)
    requires e.Valid() && DistinctNames(inputs)
    requires var reserved := if exporter.Some? then [ExporterPrincipal(exporter.value)] else [];
             && Rendered(e, inputs, reserved, previous, random).Ok?
             && var blocks := ReadAcl(Rendered(e, inputs, reserved, previous, random).value.data);
                i < |blocks| && HasPrefix(blocks[i].user, "mko-")
    ensures var reserved := if exporter.Some? then [ExporterPrincipal(exporter.value)] else [];
            var block := ReadAcl(Rendered(e, inputs, reserved, previous, random).value.data)[i];
            && exporter.Some? && block.user == "mko-exporter"
            && (forall a :: a in block.grants ==> a.access == "read")
            && forall topic :: (exists a :: a in block.grants && Matches(a.topic, topic)) <==> Split(topic, '/')[0] == "$SYS"
  {
    var reserved := if exporter.Some? then [ExporterPrincipal(exporter.value)] else [];
    ExporterOk(if exporter.Some? then exporter.value else "");
    var q := OwnBlock(e, inputs, reserved, previous, random, i);
    CanonicalKeeps(q.acls);
    var block := ReadAcl(Rendered(e, inputs, reserved, previous, random).value.data)[i];
    assert forall a :: a in block.grants <==> a == Acl("$SYS/#", "read");
    forall topic
      ensures (exists a :: a in block.grants && Matches(a.topic, topic)) <==> Split(topic, '/')[0] == "$SYS"
    {
      SysTopics(topic);
      if Matches("$SYS/#", topic) { assert Acl("$SYS/#", "read") in block.grants; }
    }
  }

  // -------------------------------------------------------------- the fixpoint

  ghost predicate Keeps(e: Env, l: Login, known: map<string, string>) {
    && (l.own ==> HasPrefix(l.username, RESERVED_PREFIX) && l.password != "")
    && forall later :: e.Keep(Get(known, l.username), l.password, later) == Ok(Get(known, l.username), later)
  }

  function KeptUser(l: Login, known: map<string, string>): Accepted {
    Accepted(l.username, Get(known, l.username), l.acls)
  }

  /** When every password verifies against its known hash, hashing changes nothing
      and reads nothing. */
  lemma {:induction false} HashAllKeeps(e: Env, logins: seq<Login>, known: map<string, string>, random: Bytes)
    requires forall l :: l in logins ==> Keeps(e, l, known)
    ensures var r := HashAll(e, logins, known, random);
            && r.Ok? && r.rest == random
            && |r.value| == |logins|
            && forall i :: 0 <= i < |logins| ==> r.value[i] == KeptUser(logins[i], known)
  {
    if logins != [] {
      var init, l := logins[..|logins| - 1], logins[|logins| - 1];
      assert l in logins;
      HashAllKeeps(e, init, known, random);
      assert Keeps(e, l, known);
    }
  }

  ghost predicate SameLogins(e: Env, a: seq<Input>, b: seq<Input>) {
    forall l :: l in LoginsOf(Winners(ByAge(e, a))) <==> l in LoginsOf(Winners(ByAge(e, b)))
  }

  /** The logins decide the bytes. Once a pass has rendered, every pass over users
      that come to the same logins - renamed, recreated, reordered, with shuffled
      ACL lists - renders the same bytes from what the first one wrote, whatever the
      very first pass had found, and does not touch the random source. */
  lemma SameLoginsSameBytes(e: Env, a: seq<Input>, b: seq<Input>, reserved: seq<Principal>,
                            previous: Data, random: Bytes, later: Bytes)
    requires e.Valid() && PrincipalsOk(reserved)
    requires Rendered(e, a, reserved, previous, random).Ok?
    requires SameLogins(e, a, b)
    ensures var first := Rendered(e, a, reserved, previous, random).value;
            var second := Rendered(e, b, reserved, first.data, later);
            second.Ok? && second.value.data == first.data && second.rest == later && second.value.accepted == first.accepted
  {
    var logins, hashed, users := Shape(e, a, reserved, previous, random);
    var first := Rendered(e, a, reserved, previous, random).value;
    var known := KnownHashes(first.data);
    var again := AllLogins(ByAge(e, b), reserved);
    HashesRoundTrip(users);
    SameLoginsAll(e, a, b, reserved);
    forall l | l in again ensures Keeps(e, l, known) && KeptUser(l, known) in users {
      FindKept(e, logins, hashed, users, known, l);
    }
    HashAllKeeps(e, again, known, later);
    KeptMembers(e, logins, again, hashed, users, known, HashAll(e, again, known, later).value);
    KeptSorts(e, b, reserved, known, later, users);
  }

  /** The kept users are the printed ones. */
  lemma KeptMembers(e: Env, logins: seq<Login>, again: seq<Login>, hashed: seq<Accepted>, users: seq<Accepted>,
                    known: map<string, string>, kept: seq<Accepted>)
    requires |hashed| == |logins| && forall i :: 0 <= i < |logins| ==> Hashed(e, logins[i], hashed[i])
    requires forall u :: u in users <==> u in hashed
    requires forall u :: u in users ==> Get(known, u.username) == u.hash
    requires forall l :: l in logins <==> l in again
    requires forall l :: l in again ==> KeptUser(l, known) in users
    requires |kept| == |again| && forall i :: 0 <= i < |again| ==> kept[i] == KeptUser(again[i], known)
    ensures forall u :: u in kept <==> u in users
  {
    forall u ensures u in kept <==> u in users {
      if u in users {
        var k :| 0 <= k < |hashed| && hashed[k] == u;
        assert Hashed(e, logins[k], hashed[k]) && logins[k] in again;
        var m :| 0 <= m < |again| && again[m] == logins[k];
        assert kept[m] == u;
      }
      if u in kept {
        var m :| 0 <= m < |kept| && kept[m] == u;
        assert again[m] in again;
      }
    }
  }

  lemma FindKept(e: Env, logins: seq<Login>, hashed: seq<Accepted>, users: seq<Accepted>,
                 known: map<string, string>, l: Login)
    requires |hashed| == |logins| && forall i :: 0 <= i < |logins| ==> Hashed(e, logins[i], hashed[i])
    requires forall u :: u in hashed ==> u in users
    requires forall u :: u in users ==> Get(known, u.username) == u.hash
    requires l in logins
    ensures Keeps(e, l, known) && KeptUser(l, known) in users
  {
  }

  lemma SameLoginsAll(e: Env, a: seq<Input>, b: seq<Input>, reserved: seq<Principal>)
    requires SameLogins(e, a, b)
    ensures forall l :: l in AllLogins(ByAge(e, a), reserved) <==> l in AllLogins(ByAge(e, b), reserved)
  {
  }

  /** Kept users that are the printed ones sort to the printed list. */
  lemma KeptSorts(e: Env, b: seq<Input>, reserved: seq<Principal>, known: map<string, string>, later: Bytes, users: seq<Accepted>)
    requires PrincipalsOk(reserved)
    requires HashAll(e, AllLogins(ByAge(e, b), reserved), known, later).Ok?
    requires forall u :: u in HashAll(e, AllLogins(ByAge(e, b), reserved), known, later).value <==> u in users
    requires Sorted(users, UserLeq) && NoTies(users, UserLeq)
    ensures SortBy(HashAll(e, AllLogins(ByAge(e, b), reserved), known, later).value, UserLeq) == users
    ensures |Winners(ByAge(e, b))| == |users| - |reserved|
  {
    var kept := HashAll(e, AllLogins(ByAge(e, b), reserved), known, later).value;
    var sorted := SortBy(kept, UserLeq);
    UserOrder();
    SortBySorts(kept, UserLeq);
    ByAgeSorted(e, b);
    SortedUsersForced(e, ByAge(e, b), reserved, known, later, sorted);
    UsersNoTies(kept);
    NoTiesPermutes(kept, sorted, UserLeq);
    PermutationMembers(kept, sorted);
    SortedUnique(sorted, users, UserLeq);
    HashAllNames(e, AllLogins(ByAge(e, b), reserved), known, later);
  }

  /** Rendering again from one's own output is the identity: the same result to the
      byte, even from an exhausted random source. */
  lemma RenderFixpoint(e: Env, inputs: seq<Input>, reserved: seq<Principal>, previous: Data, random: Bytes, later: Bytes)
    requires e.Valid() && PrincipalsOk(reserved)
    requires Rendered(e, inputs, reserved, previous, random).Ok?
    ensures var first := Rendered(e, inputs, reserved, previous, random).value;
            Rendered(e, inputs, reserved, first.data, later) == Ok(first, later)
  {
    SameLoginsSameBytes(e, inputs, inputs, reserved, previous, random, later);
  }

  /** The same for the operator's own hashes and its one principal: over PBKDF2, for any
      previous Secret data, a second pass returns the first one's bytes even when the
      random source has run dry. */
  lemma OperatorFixpoint(utf8: string -> bool, derive: Derive, inputs: seq<Input>, exporter: Option<string>,
                         previous: Data, random: Bytes)
    requires ExactLength(derive)
    requires var reserved := if exporter.Some? then [ExporterPrincipal(exporter.value)] else [];
             Rendered(HashEnv(utf8, derive), inputs, reserved, previous, random).Ok?
    ensures var reserved := if exporter.Some? then [ExporterPrincipal(exporter.value)] else [];
            var first := Rendered(HashEnv(utf8, derive), inputs, reserved, previous, random).value;
            Rendered(HashEnv(utf8, derive), inputs, reserved, first.data, []) == Ok(first, [])
  {
    HashEnvValid(utf8, derive);
    ExporterOk(if exporter.Some? then exporter.value else "");
    RenderFixpoint(HashEnv(utf8, derive), inputs,
                   if exporter.Some? then [ExporterPrincipal(exporter.value)] else [], previous, random, []);
  }
}
