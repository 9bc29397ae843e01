/** auth.Render: checks, collisions by age, kept hashes, sorted output. The
    functions say what a pass renders; the methods are the loops that compute it. */
module Renderer {
  import opened Text
  import opened Sorting
  import opened Base64
  import opened PasswordHash
  import opened Credentials
  import opened Files

  /** What one pass renders for one broker. */
  datatype Result = Result(data: Data, verdicts: map<string, Verdict>, accepted: nat)

  /** A user about to be hashed: an accepted input, or one of the operator's own. */
  datatype Login = Login(username: string, password: string, acls: seq<Acl>, own: bool)

  // -------------------------------------------------------------- the three orders

  predicate InputLeq(a: Input, b: Input) {
    if a.created != b.created then a.created < b.created else Leq(a.name, b.name)
  }

  predicate UserLeq(a: Accepted, b: Accepted) { Leq(a.username, b.username) }

  predicate AclLeq(a: Acl, b: Acl) {
    if a.topic != b.topic then Leq(a.topic, b.topic) else Leq(a.access, b.access)
  }

  lemma InputOrder()
    ensures TotalPreorder(InputLeq)
  {
    forall x, y ensures InputLeq(x, y) || InputLeq(y, x) { LeqTotal(x.name, y.name); }
    forall x, y, z | InputLeq(x, y) && InputLeq(y, z) ensures InputLeq(x, z) {
      if x.created == y.created == z.created { LeqTransitive(x.name, y.name, z.name); }
    }
  }

  lemma UserOrder()
    ensures TotalPreorder(UserLeq)
  {
    forall x, y ensures UserLeq(x, y) || UserLeq(y, x) { LeqTotal(x.username, y.username); }
    forall x, y, z | UserLeq(x, y) && UserLeq(y, z) ensures UserLeq(x, z) {
      LeqTransitive(x.username, y.username, z.username);
    }
  }

  lemma AclOrder()
    ensures TotalPreorder(AclLeq)
    ensures forall x, y :: AclLeq(x, y) && AclLeq(y, x) ==> x == y
  {
    forall x, y ensures AclLeq(x, y) || AclLeq(y, x) {
      LeqTotal(x.topic, y.topic);
      LeqTotal(x.access, y.access);
    }
    forall x, y | AclLeq(x, y) && AclLeq(y, x) ensures x == y {
      if x.topic != y.topic { LeqAntisymmetric(x.topic, y.topic); } else { LeqAntisymmetric(x.access, y.access); }
    }
    forall x, y, z | AclLeq(x, y) && AclLeq(y, z) ensures AclLeq(x, z) {
      if x.topic == y.topic == z.topic {
        LeqTransitive(x.access, y.access, z.access);
      } else if x.topic != y.topic && y.topic != z.topic {
        LeqTransitive(x.topic, y.topic, z.topic);
        if x.topic == z.topic { LeqAntisymmetric(x.topic, y.topic); }
      }
    }
  }

  // --------------------------------------------------------------- canonical ACLs

  function Dedupe(acls: seq<Acl>): seq<Acl> {
    if acls == [] then []
    else
      var init, last := acls[..|acls| - 1], acls[|acls| - 1];
      if last in init then Dedupe(init) else Dedupe(init) + [last]
  }

  function CanonicalAcls(acls: seq<Acl>): seq<Acl> { SortBy(Dedupe(acls), AclLeq) }

  lemma {:induction false} DedupeKeeps(acls: seq<Acl>)
    ensures forall a :: a in Dedupe(acls) <==> a in acls
    ensures forall i, j :: 0 <= i < j < |Dedupe(acls)| ==> Dedupe(acls)[i] != Dedupe(acls)[j]
  {
    if acls != [] {
      var init, last := acls[..|acls| - 1], acls[|acls| - 1];
      DedupeKeeps(init);
      assert acls == init + [last];
    }
  }

  lemma DedupeNoTies(acls: seq<Acl>)
    ensures NoTies(Dedupe(acls), AclLeq)
  {
    AclOrder();
    DedupeKeeps(acls);
    var d := Dedupe(acls);
    forall i, j | 0 <= i < |d| && 0 <= j < |d| && i != j ensures !(AclLeq(d[i], d[j]) && AclLeq(d[j], d[i])) {
      assert d[i] != d[j];
    }
  }

  /** The canonical list has the same entries, each once and in order. */
  lemma CanonicalKeeps(acls: seq<Acl>)
    ensures forall a :: a in CanonicalAcls(acls) <==> a in acls
    ensures Sorted(CanonicalAcls(acls), AclLeq)
    ensures NoTies(CanonicalAcls(acls), AclLeq)
  {
    AclOrder();
    DedupeKeeps(acls);
    DedupeNoTies(acls);
    SortBySorts(Dedupe(acls), AclLeq);
    PermutationMembers(Dedupe(acls), CanonicalAcls(acls));
    NoTiesPermutes(Dedupe(acls), CanonicalAcls(acls), AclLeq);
  }

  /** Reordering or repeating entries does not change the canonical list. */
  lemma CanonicalUnique(a: seq<Acl>, b: seq<Acl>)
    requires forall x :: x in a <==> x in b
    ensures CanonicalAcls(a) == CanonicalAcls(b)
  {
    AclOrder();
    CanonicalKeeps(a);
    CanonicalKeeps(b);
    SortedUnique(CanonicalAcls(a), CanonicalAcls(b), AclLeq);
  }

  /** canonicalACLs. */
  method CanonicalizeAcls(acls: seq<Acl>) returns (r: seq<Acl>)
    ensures r == CanonicalAcls(acls)
  {
    var out: seq<Acl> := [];
    var seen: set<Acl> := {};
    for i := 0 to |acls|
      invariant out == Dedupe(acls[..i])
      invariant seen == set a | a in acls[..i]
    {
      assert acls[..i + 1][..i] == acls[..i];
      if acls[i] !in seen {
        out := out + [acls[i]];
      }
      seen := seen + {acls[i]};
    }
    assert acls[..|acls|] == acls;
    AclOrder();
    DedupeNoTies(acls);
    r := SortSlice(out, AclLeq);
    OnlySorting(out, r, AclLeq);
  }

  // ------------------------------------------------------- checks and collisions

  /** The inputs that pass their own checks, in the order given. */
  function Candidates(e: Env, inputs: seq<Input>): seq<Input> {
    if inputs == [] then []
    else
      var init, last := inputs[..|inputs| - 1], inputs[|inputs| - 1];
      if Check(e, last).Some? then Candidates(e, init) else Candidates(e, init) + [last]
  }

  function CheckVerdicts(e: Env, inputs: seq<Input>): map<string, Verdict> {
    if inputs == [] then map[]
    else
      var init, last := inputs[..|inputs| - 1], inputs[|inputs| - 1];
      match Check(e, last)
      case Some(reason) => CheckVerdicts(e, init)[last.name := Refused(reason)]
      case None => CheckVerdicts(e, init)
  }

  /** The first input of a list that has a username. */
  function Holder(c: seq<Input>, username: string): Option<Input> {
    if c == [] then None
    else
      var init, last := c[..|c| - 1], c[|c| - 1];
      match Holder(init, username)
      case Some(h) => Some(h)
      case None => if last.username == username then Some(last) else None
  }

  function Winners(c: seq<Input>): seq<Input> {
    if c == [] then []
    else
      var init, last := c[..|c| - 1], c[|c| - 1];
      if Holder(init, last.username).Some? then Winners(init) else Winners(init) + [last]
  }

  function ConflictVerdicts(c: seq<Input>): map<string, Verdict> {
    if c == [] then map[]
    else
      var init, last := c[..|c| - 1], c[|c| - 1];
      match Holder(init, last.username)
      case Some(h) => ConflictVerdicts(init)[last.name := Refused(UsernameConflict(h.name))]
      case None => ConflictVerdicts(init)
  }

  function AdmittedVerdicts(winners: seq<Input>): map<string, Verdict> {
    if winners == [] then map[]
    else AdmittedVerdicts(winners[..|winners| - 1])[winners[|winners| - 1].name := Admitted]
  }

  /** resolveCollisions: sorts the candidates by age and lets the first of each
      username through. order is the order the sort chose. */
  method ResolveCollisions(candidates: seq<Input>, verdicts: map<string, Verdict>)
    returns (winners: seq<Input>, all: map<string, Verdict>, ghost order: seq<Input>)
    ensures Sorted(order, InputLeq) && multiset(order) == multiset(candidates)
    ensures winners == Winners(order)
    ensures all == verdicts + ConflictVerdicts(order)
  {
    InputOrder();
    var sorted := SortSlice(candidates, InputLeq);
    order := sorted;
    var holders: map<string, string> := map[];
    winners, all := [], verdicts;
    for i := 0 to |sorted|
      invariant winners == Winners(sorted[..i])
      invariant all == verdicts + ConflictVerdicts(sorted[..i])
      invariant HoldersOf(holders, sorted[..i])
    {
      var x := sorted[i];
      CollisionStep(sorted, i, verdicts, holders);
      if x.username in holders {
        all := all[x.name := Refused(UsernameConflict(holders[x.username]))];
      } else {
        holders := holders[x.username := x.name];
        winners := winners + [x];
      }
    }
    assert sorted[..|sorted|] == sorted;
  }

  /** The map of holders names the first input of every username. */
  ghost predicate HoldersOf(holders: map<string, string>, c: seq<Input>) {
    && (forall u :: u in holders <==> Holder(c, u).Some?)
    && forall u :: u in holders ==> holders[u] == Holder(c, u).value.name
  }

  /** One more candidate: a newcomer wins its username, or conflicts with its holder. */
  lemma CollisionStep(sorted: seq<Input>, i: nat, verdicts: map<string, Verdict>, holders: map<string, string>)
    requires i < |sorted| && HoldersOf(holders, sorted[..i])
    ensures var x, now, next := sorted[i], sorted[..i], sorted[..i + 1];
            if x.username in holders then
              && Winners(next) == Winners(now)
              && verdicts + ConflictVerdicts(next) ==
                 (verdicts + ConflictVerdicts(now))[x.name := Refused(UsernameConflict(holders[x.username]))]
              && HoldersOf(holders, next)
            else
              && Winners(next) == Winners(now) + [x]
              && ConflictVerdicts(next) == ConflictVerdicts(now)
              && HoldersOf(holders[x.username := x.name], next)
  {
    assert sorted[..i + 1][..i] == sorted[..i];
  }

  // -------------------------------------------------------------------- hashing

  function LoginOf(x: Input): Login { Login(x.username, x.password, CanonicalAcls(x.acls), false) }

  function OwnLogin(q: Principal): Login { Login(q.username, q.password, CanonicalAcls(q.acls), true) }

  function LoginsOf(xs: seq<Input>): (r: seq<Login>)
    ensures |r| == |xs|
    ensures forall i :: 0 <= i < |xs| ==> r[i] == LoginOf(xs[i])
  {
    if xs == [] then [] else LoginsOf(xs[..|xs| - 1]) + [LoginOf(xs[|xs| - 1])]
  }

  function OwnLogins(qs: seq<Principal>): (r: seq<Login>)
    ensures |r| == |qs|
    ensures forall i :: 0 <= i < |qs| ==> r[i] == OwnLogin(qs[i])
  {
    if qs == [] then [] else OwnLogins(qs[..|qs| - 1]) + [OwnLogin(qs[|qs| - 1])]
  }

  /** One login hashed; the operator's own need the reserved prefix and a password. */
  function HashLogin(e: Env, l: Login, known: map<string, string>, random: Bytes): Outcome<Accepted> {
    if l.own && (!HasPrefix(l.username, RESERVED_PREFIX) || l.password == "") then Failed(PrincipalRefused, random)
    else match e.Keep(Get(known, l.username), l.password, random)
      case Failed(error, rest) => Failed(error, rest)
      case Ok(hash, rest) => Ok(Accepted(l.username, hash, l.acls), rest)
  }

  /** The hashes of a list of logins, drawn one after the other from one random
      source. */
  function HashAll(e: Env, logins: seq<Login>, known: map<string, string>, random: Bytes)
    : Outcome<seq<Accepted>>
  {
    if logins == [] then Ok([], random)
    else match HashAll(e, logins[..|logins| - 1], known, random)
      case Failed(error, rest) => Failed(error, rest)
      case Ok(done, rest) =>
        match HashLogin(e, logins[|logins| - 1], known, rest)
        case Failed(error, rest') => Failed(error, rest')
        case Ok(user, rest') => Ok(done + [user], rest')
  }

  function Verdicts(e: Env, inputs: seq<Input>, order: seq<Input>): map<string, Verdict> {
    CheckVerdicts(e, inputs) + ConflictVerdicts(order) + AdmittedVerdicts(Winners(order))
  }

  function AllLogins(order: seq<Input>, reserved: seq<Principal>): seq<Login> {
    LoginsOf(Winners(order)) + OwnLogins(reserved)
  }

  /** A pass over a given collision order. */
  function RenderOrdered(e: Env, inputs: seq<Input>, order: seq<Input>, reserved: seq<Principal>,
                         previous: Data, random: Bytes): Outcome<Result>
  {
    match HashAll(e, AllLogins(order, reserved), KnownHashes(previous), random)
    case Failed(error, rest) => Failed(error, rest)
    case Ok(users, rest) =>
      Ok(Result(RenderedFiles(SortBy(users, UserLeq)), Verdicts(e, inputs, order), |Winners(order)|), rest)
  }

  function ByAge(e: Env, inputs: seq<Input>): seq<Input> { SortBy(Candidates(e, inputs), InputLeq) }

  /** What one pass renders: the data, every verdict, the count, and what is left
      of the random source. */
  function Rendered(e: Env, inputs: seq<Input>, reserved: seq<Principal>, previous: Data, random: Bytes)
    : Outcome<Result>
  {
    RenderOrdered(e, inputs, ByAge(e, inputs), reserved, previous, random)
  }

  ghost predicate DistinctNames(inputs: seq<Input>) {
    forall i, j :: 0 <= i < j < |inputs| ==> inputs[i].name != inputs[j].name
  }

  ghost predicate DistinctPrincipals(reserved: seq<Principal>) {
    forall i, j :: 0 <= i < j < |reserved| ==> reserved[i].username != reserved[j].username
  }

  ghost predicate DistinctLogins(logins: seq<Login>) {
    forall i, j :: 0 <= i < j < |logins| ==> logins[i].username != logins[j].username
  }

  // --------------------------------------------------- one name, one line per user

  lemma {:induction false} CandidatesChecked(e: Env, inputs: seq<Input>)
    ensures forall x :: x in Candidates(e, inputs) <==> x in inputs && Check(e, x).None?
  {
    if inputs != [] {
      var init, last := inputs[..|inputs| - 1], inputs[|inputs| - 1];
      CandidatesChecked(e, init);
      assert inputs == init + [last];
    }
  }

  lemma {:induction false} CandidatesDistinct(e: Env, inputs: seq<Input>)
    requires DistinctNames(inputs)
    ensures DistinctNames(Candidates(e, inputs))
  {
    if inputs != [] {
      var init, last := inputs[..|inputs| - 1], inputs[|inputs| - 1];
      CandidatesDistinct(e, init);
      var c := Candidates(e, init);
      forall i | 0 <= i < |c| ensures c[i].name != last.name {
        CandidatesChecked(e, init);
        assert c[i] in c;
        var k :| 0 <= k < |init| && init[k] == c[i];
        assert inputs[k].name != inputs[|inputs| - 1].name;
      }
    }
  }

  lemma {:induction false} HolderIsFirst(c: seq<Input>, username: string)
    ensures Holder(c, username).None? <==> forall x :: x in c ==> x.username != username
    ensures Holder(c, username).Some? ==>
              var h := Holder(c, username).value;
              h in c && h.username == username &&
              exists i :: 0 <= i < |c| && c[i] == h && forall j :: 0 <= j < i ==> c[j].username != username
  {
    if c != [] {
      var init, last := c[..|c| - 1], c[|c| - 1];
      HolderIsFirst(init, username);
      assert c == init + [last];
      match Holder(init, username) {
        case Some(h) =>
          var i :| 0 <= i < |init| && init[i] == h && forall j :: 0 <= j < i ==> init[j].username != username;
          assert c[i] == h;
        case None =>
          assert last.username == username ==>
            c[|c| - 1] == last && forall j :: 0 <= j < |c| - 1 ==> c[j] in init;
      }
    }
  }

  /** The winners are exactly the holders, one per username. */
  lemma {:induction false} WinnersHold(c: seq<Input>)
    ensures forall x :: x in Winners(c) <==> Holder(c, x.username) == Some(x)
    ensures forall i, j :: 0 <= i < j < |Winners(c)| ==> Winners(c)[i].username != Winners(c)[j].username
  {
    if c != [] {
      var init, last := c[..|c| - 1], c[|c| - 1];
      WinnersHold(init);
      var w := Winners(init);
      if Holder(init, last.username).None? {
        forall i | 0 <= i < |w| ensures w[i].username != last.username {
          assert w[i] in w;
        }
      }
      forall x ensures x in Winners(c) <==> Holder(c, x.username) == Some(x) {
        HolderIsFirst(init, x.username);
      }
    }
  }

  lemma LoginsDistinct(e: Env, order: seq<Input>, reserved: seq<Principal>)
    requires forall x :: x in order ==> Check(e, x).None?
    requires DistinctPrincipals(reserved)
    requires forall q :: q in reserved ==> HasPrefix(q.username, RESERVED_PREFIX)
    ensures DistinctLogins(AllLogins(order, reserved))
  {
    WinnersHold(order);
    var w := Winners(order);
    var all := AllLogins(order, reserved);
    forall i, j | 0 <= i < j < |all| ensures all[i].username != all[j].username {
      if i < |w| {
        assert w[i] in w;
        HolderIsFirst(order, w[i].username);
        if j >= |w| { ReservedIsApart(e, w[i], reserved[j - |w|].username); }
      }
    }
  }

  /** What hashing gives for one login. */
  ghost predicate Hashed(e: Env, l: Login, u: Accepted) {
    && u.username == l.username
    && u.acls == l.acls
    && '\n' !in u.hash && u.hash != ""
    && e.Verifies(u.hash, l.password)
    && (forall later :: e.Keep(u.hash, l.password, later) == Ok(u.hash, later))
    && (l.own ==> HasPrefix(l.username, RESERVED_PREFIX) && l.password != "")
  }

  /** Every login gets a one-line hash that verifies its password. */
  lemma {:induction false} HashAllShape(e: Env, logins: seq<Login>, known: map<string, string>, random: Bytes)
    requires e.Valid()
    requires forall u :: u in known ==> '\n' !in known[u]
    requires HashAll(e, logins, known, random).Ok?
    ensures var users := HashAll(e, logins, known, random).value;
            |users| == |logins| && forall i :: 0 <= i < |logins| ==> Hashed(e, logins[i], users[i])
  {
    if logins != [] {
      var init, l := logins[..|logins| - 1], logins[|logins| - 1];
      HashAllShape(e, init, known, random);
      var done := HashAll(e, init, known, random);
      var u := HashAll(e, logins, known, random).value[|init|];
      assert Hashed(e, l, u);
    }
  }

  lemma UsersNoTies(users: seq<Accepted>)
    requires DistinctUsernames(users)
    ensures NoTies(users, UserLeq)
  {
    forall i, j | 0 <= i < |users| && 0 <= j < |users| && i != j
      ensures !(UserLeq(users[i], users[j]) && UserLeq(users[j], users[i]))
    {
      if UserLeq(users[i], users[j]) && UserLeq(users[j], users[i]) {
        LeqAntisymmetric(users[i].username, users[j].username);
      }
    }
  }

  lemma HashedUsersDistinct(e: Env, logins: seq<Login>, known: map<string, string>, random: Bytes)
    requires DistinctLogins(logins)
    requires HashAll(e, logins, known, random).Ok?
    ensures DistinctUsernames(HashAll(e, logins, known, random).value)
  {
    HashAllNames(e, logins, known, random);
  }

  lemma {:induction false} HashAllNames(e: Env, logins: seq<Login>, known: map<string, string>, random: Bytes)
    requires HashAll(e, logins, known, random).Ok?
    ensures var users := HashAll(e, logins, known, random).value;
            |users| == |logins| && forall i :: 0 <= i < |logins| ==> users[i].username == logins[i].username
    ensures forall l :: l in logins && l.own ==> HasPrefix(l.username, RESERVED_PREFIX)
  {
    if logins != [] { HashAllNames(e, logins[..|logins| - 1], known, random); }
  }

  // ------------------------------------------------------------------ the loops

  /** A failure ends the hashing, whatever was still to come. */
  lemma {:induction false} HashAllFails(e: Env, logins: seq<Login>, more: seq<Login>,
                                        known: map<string, string>, random: Bytes)
    requires HashAll(e, logins, known, random).Failed?
    ensures HashAll(e, logins + more, known, random) == HashAll(e, logins, known, random)
    decreases |more|
  {
    if more == [] {
      assert logins + more == logins;
    } else {
      var init := more[..|more| - 1];
      HashAllFails(e, logins, init, known, random);
      var all := logins + more;
      assert all[..|all| - 1] == logins + init;
    }
  }

  /** One more login hashed: the fold goes on, or has failed for good. */
  lemma HashAllStep(e: Env, logins: seq<Login>, n: nat, known: map<string, string>, random: Bytes,
                    done: seq<Accepted>, rest: Bytes)
    requires n < |logins|
    requires HashAll(e, logins[..n], known, random) == Ok(done, rest)
    ensures match HashLogin(e, logins[n], known, rest)
            case Failed(error, rest') => HashAll(e, logins, known, random) == Failed(error, rest')
            case Ok(user, rest') => HashAll(e, logins[..n + 1], known, random) == Ok(done + [user], rest')
  {
    assert logins[..n + 1][..n] == logins[..n];
    if HashAll(e, logins[..n + 1], known, random).Failed? {
      HashAllFails(e, logins[..n + 1], logins[n + 1..], known, random);
      assert logins[..n + 1] + logins[n + 1..] == logins;
    }
  }

  lemma HashMoreStep(e: Env, first: seq<Login>, more: seq<Login>, n: nat, known: map<string, string>,
                     random: Bytes, done: seq<Accepted>, rest: Bytes)
    requires n < |more|
    requires HashAll(e, first + more[..n], known, random) == Ok(done, rest)
    ensures match HashLogin(e, more[n], known, rest)
            case Failed(error, rest') => HashAll(e, first + more, known, random) == Failed(error, rest')
            case Ok(user, rest') => HashAll(e, first + more[..n + 1], known, random) == Ok(done + [user], rest')
  {
    var all := first + more;
    assert all[..|first| + n] == first + more[..n];
    assert all[..|first| + n + 1] == first + more[..n + 1];
    HashAllStep(e, all, |first| + n, known, random, done, rest);
  }

  /** The body of both hashing loops of Render. */
  method HashOne(ghost e: Env, derive: Derive, l: Login, known: map<string, string>, random: Random)
    returns (r: Outcome<Accepted>)
    requires e.Computes(derive)
    modifies random
    ensures r == HashLogin(e, l, known, old(random.stream))
    ensures r.rest == random.stream
  {
    if l.own && (!HasPrefix(l.username, RESERVED_PREFIX) || l.password == "") {
      return Failed(PrincipalRefused, random.stream);
    }
    var hash := KeepOrHashFrom(derive, Get(known, l.username), l.password, random);
    if hash.Failed? {
      return Failed(hash.error, hash.rest);
    }
    r := Ok(Accepted(l.username, hash.value, l.acls), random.stream);
  }

  /** The first loop of Render: each input is refused or becomes a candidate. */
  method CheckInputs(e: Env, inputs: seq<Input>) returns (candidates: seq<Input>, verdicts: map<string, Verdict>)
    ensures candidates == Candidates(e, inputs)
    ensures verdicts == CheckVerdicts(e, inputs)
  {
    verdicts, candidates := map[], [];
    for i := 0 to |inputs|
      invariant verdicts == CheckVerdicts(e, inputs[..i])
      invariant candidates == Candidates(e, inputs[..i])
    {
      assert inputs[..i + 1][..i] == inputs[..i];
      match Check(e, inputs[i]) {
        case Some(reason) => verdicts := verdicts[inputs[i].name := Refused(reason)];
        case None => candidates := candidates + [inputs[i]];
      }
    }
    assert inputs[..|inputs|] == inputs;
  }

  lemma AdmitStep(refusals: map<string, Verdict>, winners: seq<Input>, i: nat)
    requires i < |winners|
    ensures refusals + AdmittedVerdicts(winners[..i + 1]) ==
            (refusals + AdmittedVerdicts(winners[..i]))[winners[i].name := Admitted]
  {
    assert winners[..i + 1][..i] == winners[..i];
  }

  /** The second loop of Render: the winners are hashed and admitted. */
  method HashWinners(ghost e: Env, derive: Derive, winners: seq<Input>, known: map<string, string>,
                     refusals: map<string, Verdict>, random: Random)
    returns (r: Outcome<seq<Accepted>>, verdicts: map<string, Verdict>)
    requires e.Computes(derive)
    modifies random
    ensures r == HashAll(e, LoginsOf(winners), known, old(random.stream))
    ensures r.rest == random.stream
    ensures r.Ok? ==> verdicts == refusals + AdmittedVerdicts(winners)
  {
    ghost var all := LoginsOf(winners);
    ghost var stream := random.stream;
    var users: seq<Accepted> := [];
    verdicts := refusals;
    for i := 0 to |winners|
      invariant HashAll(e, all[..i], known, stream) == Ok(users, random.stream)
      invariant verdicts == refusals + AdmittedVerdicts(winners[..i])
    {
      var x := winners[i];
      AdmitStep(refusals, winners, i);
      HashAllStep(e, all, i, known, stream, users, random.stream);
      var acls := CanonicalizeAcls(x.acls);
      var login := Login(x.username, x.password, acls, false);
      assert login == all[i];
      var user := HashOne(e, derive, login, known, random);
      if user.Failed? {
        return Failed(user.error, user.rest), verdicts;
      }
      users := users + [user.value];
      verdicts := verdicts[x.name := Admitted];
    }
    assert winners[..|winners|] == winners && all[..|all|] == all;
    r := Ok(users, random.stream);
  }

  /** The third loop of Render: the operator's own principals are added. */
  method HashReserved(ghost e: Env, derive: Derive, reserved: seq<Principal>, known: map<string, string>,
                      ghost first: seq<Login>, ghost stream: Bytes,
                      users: seq<Accepted>, random: Random)
    returns (r: Outcome<seq<Accepted>>)
    requires e.Computes(derive)
    requires HashAll(e, first, known, stream) == Ok(users, random.stream)
    modifies random
    ensures r == HashAll(e, first + OwnLogins(reserved), known, stream)
    ensures r.rest == random.stream
  {
    ghost var own := OwnLogins(reserved);
    assert first + own[..0] == first;
    var out := users;
    for i := 0 to |reserved|
      invariant HashAll(e, first + own[..i], known, stream) == Ok(out, random.stream)
    {
      var q := reserved[i];
      HashMoreStep(e, first, own, i, known, stream, out, random.stream);
      var acls := CanonicalizeAcls(q.acls);
      var login := Login(q.username, q.password, acls, true);
      assert login == own[i];
      var user := HashOne(e, derive, login, known, random);
      if user.Failed? {
        return Failed(user.error, user.rest);
      }
      out := out + [user.value];
    }
    assert own[..|own|] == own;
    r := Ok(out, random.stream);
  }

  /** The end of Render: the users sorted by name and printed. */
  method SortAndPrint(users: seq<Accepted>) returns (data: Data)
    ensures DistinctUsernames(users) ==> data == RenderedFiles(SortBy(users, UserLeq))
  {
    UserOrder();
    var sorted := SortSlice(users, UserLeq);
    if DistinctUsernames(users) {
      UsersSortOneWay(users, sorted);
    }
    data := RenderFiles(sorted);
  }

  /** Render. The order in which the collision sort put the candidates is handed
      out; with distinct object names it is the only one possible, and the result is
      then a function of the arguments. */
  method Render(e: Env, derive: Derive, inputs: seq<Input>, reserved: seq<Principal>, previous: Data, random: Random)
    returns (r: Outcome<Result>, ghost order: seq<Input>)
    requires e.Computes(derive)
    modifies random
    ensures Sorted(order, InputLeq) && multiset(order) == multiset(Candidates(e, inputs))
    ensures DistinctPrincipals(reserved) ==>
              r == RenderOrdered(e, inputs, order, reserved, previous, old(random.stream))
    ensures DistinctPrincipals(reserved) && DistinctNames(inputs) ==>
              r == Rendered(e, inputs, reserved, previous, old(random.stream))
    ensures r.rest == random.stream
  {
    var candidates, refusals := CheckInputs(e, inputs);
    var winners;
    winners, refusals, order := ResolveCollisions(candidates, refusals);
    OrderForced(e, inputs, order);
    var known := Hashes(previous);
    ghost var stream := random.stream;
    var hashed, verdicts := HashWinners(e, derive, winners, known, refusals, random);
    if hashed.Failed? {
      HashAllFails(e, LoginsOf(winners), OwnLogins(reserved), known, stream);
      return Failed(hashed.error, hashed.rest), order;
    }
    HashAllNames(e, LoginsOf(winners), known, stream);
    var accepted := |hashed.value|;
    hashed := HashReserved(e, derive, reserved, known, LoginsOf(winners), stream, hashed.value, random);
    if hashed.Failed? {
      return Failed(hashed.error, hashed.rest), order;
    }
    if DistinctPrincipals(reserved) {
      HashedOnce(e, order, reserved, known, stream);
    }
    var data := SortAndPrint(hashed.value);
    r := Ok(Result(data, verdicts, accepted), random.stream);
  }

  lemma OrderForced(e: Env, inputs: seq<Input>, order: seq<Input>)
    requires Sorted(order, InputLeq) && multiset(order) == multiset(Candidates(e, inputs))
    ensures DistinctNames(inputs) ==> order == ByAge(e, inputs)
    ensures forall x :: x in order <==> x in inputs && Check(e, x).None?
  {
    CandidatesChecked(e, inputs);
    PermutationMembers(order, Candidates(e, inputs));
    if DistinctNames(inputs) {
      CandidatesDistinct(e, inputs);
      InputOrder();
      var c := Candidates(e, inputs);
      forall i, j | 0 <= i < |c| && 0 <= j < |c| && i != j ensures !(InputLeq(c[i], c[j]) && InputLeq(c[j], c[i])) {
        assert c[i].name != c[j].name;
        if InputLeq(c[i], c[j]) && InputLeq(c[j], c[i]) { LeqAntisymmetric(c[i].name, c[j].name); }
      }
      OnlySorting(c, order, InputLeq);
    }
  }

  lemma OwnNamed(order: seq<Input>, reserved: seq<Principal>)
    requires forall l :: l in AllLogins(order, reserved) && l.own ==> HasPrefix(l.username, RESERVED_PREFIX)
    ensures forall q :: q in reserved ==> HasPrefix(q.username, RESERVED_PREFIX)
  {
    forall q | q in reserved ensures HasPrefix(q.username, RESERVED_PREFIX) {
      var k :| 0 <= k < |reserved| && reserved[k] == q;
      var own := OwnLogin(q);
      assert OwnLogins(reserved)[k] == own;
      assert own in AllLogins(order, reserved);
    }
  }

  /** A pass that hashes all its logins has hashed no username twice. */
  lemma HashedOnce(e: Env, order: seq<Input>, reserved: seq<Principal>, known: map<string, string>, random: Bytes)
    requires forall x :: x in order ==> Check(e, x).None?
    requires DistinctPrincipals(reserved)
    requires HashAll(e, AllLogins(order, reserved), known, random).Ok?
    ensures DistinctUsernames(HashAll(e, AllLogins(order, reserved), known, random).value)
  {
    var all := AllLogins(order, reserved);
    HashAllNames(e, all, known, random);
    OwnNamed(order, reserved);
    LoginsDistinct(e, order, reserved);
    HashedUsersDistinct(e, all, known, random);
  }

  /** Users of distinct names sort in one way. */
  lemma UsersSortOneWay(users: seq<Accepted>, sorted: seq<Accepted>)
    requires DistinctUsernames(users)
    requires Sorted(sorted, UserLeq) && multiset(sorted) == multiset(users)
    ensures sorted == SortBy(users, UserLeq)
  {
    UserOrder();
    UsersNoTies(users);
    OnlySorting(users, sorted, UserLeq);
  }

  lemma SortedUsersForced(e: Env, order: seq<Input>, reserved: seq<Principal>,
                          known: map<string, string>, random: Bytes, sorted: seq<Accepted>)
    requires forall x :: x in order ==> Check(e, x).None?
    requires DistinctPrincipals(reserved)
    requires HashAll(e, AllLogins(order, reserved), known, random).Ok?
    requires Sorted(sorted, UserLeq)
    requires multiset(sorted) == multiset(HashAll(e, AllLogins(order, reserved), known, random).value)
    ensures sorted == SortBy(HashAll(e, AllLogins(order, reserved), known, random).value, UserLeq)
    ensures DistinctUsernames(HashAll(e, AllLogins(order, reserved), known, random).value)
  {
    HashedOnce(e, order, reserved, known, random);
    UsersSortOneWay(HashAll(e, AllLogins(order, reserved), known, random).value, sorted);
  }
}
