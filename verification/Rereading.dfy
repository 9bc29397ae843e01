/** What a second pass makes of users whose credentials the first one may have changed:
    exactly when it finds nothing to do. */
module Rereading {
  import opened Text
  import opened Sorting
  import opened Base64
  import opened PasswordHash
  import opened Credentials
  import opened Files
  import opened Renderer
  import opened RendererTheorems
  import opened Cluster
  import opened PassModel

  // -------------------------------------------------- inputs with other passwords

  /** The same input with a password that may be another, but is as good for the checks. */
  ghost predicate Twin(e: Env, x: Input, y: Input) {
    && y.name == x.name && y.created == x.created && y.username == x.username && y.acls == x.acls
    && Check(e, y) == Check(e, x)
  }

  /** The known hash of every winner of b is kept for its password. */
  ghost predicate AllKept(e: Env, b: seq<Input>, known: map<string, string>) {
    forall y, later :: y in Winners(ByAge(e, b)) ==>
      e.Keep(Get(known, y.username), y.password, later) == Ok(Get(known, y.username), later)
  }

  lemma KeptLogin(e: Env, known: map<string, string>, x: Input, y: Input)
    requires Twin(e, x, y)
    ensures KeptUser(LoginOf(x), known) == KeptUser(LoginOf(y), known)
  {
  }

  /** Twins whose known hashes are all kept hash to the same users. */
  lemma TwinsHashAlike(e: Env, a: seq<Input>, b: seq<Input>, reserved: seq<Principal>,
                       known: map<string, string>, later: Bytes)
    requires Paired((x, y) => Twin(e, x, y), Winners(ByAge(e, a)), Winners(ByAge(e, b)))
    requires forall l :: l in AllLogins(ByAge(e, a), reserved) ==> Keeps(e, l, known)
    requires AllKept(e, b, known)
    ensures HashAll(e, AllLogins(ByAge(e, b), reserved), known, later) ==
            HashAll(e, AllLogins(ByAge(e, a), reserved), known, later)
  {
    var wa, wb := Winners(ByAge(e, a)), Winners(ByAge(e, b));
    var la, lb := AllLogins(ByAge(e, a), reserved), AllLogins(ByAge(e, b), reserved);
    forall i | 0 <= i < |lb| ensures Keeps(e, lb[i], known) && KeptUser(la[i], known) == KeptUser(lb[i], known) {
      if i < |wa| {
        assert wb[i] in wb && ((x, y) => Twin(e, x, y))(wa[i], wb[i]);
        KeptLogin(e, known, wa[i], wb[i]);
      } else {
        assert la[i] == lb[i] && la[i] in la;
      }
    }
    HashAllKeeps(e, la, known, later);
    HashAllKeeps(e, lb, known, later);
    assert HashAll(e, la, known, later).value == HashAll(e, lb, known, later).value;
  }

  /** Every login of a pass is kept by the hashes that the pass has written. */
  lemma WrittenAreKept(e: Env, inputs: seq<Input>, reserved: seq<Principal>, previous: Data, random: Bytes)
    requires e.Valid() && PrincipalsOk(reserved)
    requires Rendered(e, inputs, reserved, previous, random).Ok?
    ensures var known := KnownHashes(Rendered(e, inputs, reserved, previous, random).value.data);
            forall l :: l in AllLogins(ByAge(e, inputs), reserved) ==> Keeps(e, l, known)
  {
    var logins, hashed, users := Shape(e, inputs, reserved, previous, random);
    var known := KnownHashes(Rendered(e, inputs, reserved, previous, random).value.data);
    HashesRoundTrip(users);
    forall l | l in logins ensures Keeps(e, l, known) { FindKept(e, logins, hashed, users, known, l); }
  }

  /** Twins render to what the pass before rendered, if its hashes verify their passwords. */
  lemma TwinsRenderAlike(e: Env, a: seq<Input>, b: seq<Input>, reserved: seq<Principal>,
                         previous: Data, random: Bytes, later: Bytes)
    requires e.Valid() && PrincipalsOk(reserved)
    requires Rendered(e, a, reserved, previous, random).Ok?
    requires Paired((x, y) => Twin(e, x, y), a, b)
    requires AllKept(e, b, KnownHashes(Rendered(e, a, reserved, previous, random).value.data))
    ensures var first := Rendered(e, a, reserved, previous, random).value;
            Rendered(e, b, reserved, first.data, later) == Ok(first, later)
  {
    var first := Rendered(e, a, reserved, previous, random).value;
    PairedInputs(e, (x, y) => Twin(e, x, y), a, b);
    WrittenAreKept(e, a, reserved, previous, random);
    TwinsHashAlike(e, a, b, reserved, KnownHashes(first.data), later);
    RenderFixpoint(e, a, reserved, previous, random, later);
  }

  // ------------------------------------------------- credentials, user by user

  /** For the next pass the credentials are as good as they were: the same, or of a user
      of the same name and standing, whose stored hash verifies its password of now if it
      is Ready. */
  ghost predicate Holds(e: Env, before: Credential, now: Credential, data: Data, ready: bool) {
    match (before, now)
    case (Found(x), Found(y)) =>
      && y.username == x.username && Check(e, y) == Check(e, x)
      && (ready ==> e.Verifies(Get(KnownHashes(data), y.username), y.password))
    case _ => now == before
  }

  /** A pass in w, and what it stored in w'. */
  ghost predicate Stored(e: Env, o: Options, w: World, w': World, b: Broker, random: Bytes, p: UserPass) {
    && w'.users == w.users && DistinctUsers(w.users)
    && Rendering(e, o, w, b, random).Ok? && Rendering(e, o, w, b, random).value == p
    && AuthData(w', b) == p.data
  }

  ghost predicate AllHold(e: Env, o: Options, w: World, w': World, b: Broker, p: UserPass) {
    forall u :: u in w.users ==>
      Holds(e, CredentialIn(o, w, u), CredentialIn(o, w', u), p.data, ReadyStatus(StatusFor(u, p)))
  }

  lemma SameFound(o: Options, w: World, w': World, u: User)
    requires CredentialIn(o, w, u).Found? && CredentialIn(o, w', u).Found?
    ensures var x, y := CredentialIn(o, w, u).input, CredentialIn(o, w', u).input;
            x.name == u.name == y.name && x.created == y.created && x.acls == y.acls
  {
  }

  /** Credentials that hold give the same usernames and reasons, and inputs that are twins. */
  lemma {:induction false} HoldingInputs(e: Env, o: Options, w: World, w': World, p: UserPass, users: seq<User>)
    requires forall u :: u in users ==>
      Holds(e, CredentialIn(o, w, u), CredentialIn(o, w', u), p.data, ReadyStatus(StatusFor(u, p)))
    ensures Paired((x, y) => Twin(e, x, y), Inputs(o, w, users), Inputs(o, w', users))
    ensures Usernames(o, w', users) == Usernames(o, w, users)
    ensures Unreadables(o, w', users) == Unreadables(o, w, users)
  {
    if users != [] {
      var init, u := users[..|users| - 1], users[|users| - 1];
      assert u in users;
      HoldingInputs(e, o, w, w', p, init);
      if CredentialIn(o, w, u).Found? {
        SameFound(o, w, w', u);
        assert ((x, y) => Twin(e, x, y))(CredentialIn(o, w, u).input, CredentialIn(o, w', u).input);
      }
    }
  }

  /** The input of now that has a user's name is the user's. */
  lemma InputOfUser(o: Options, w: World, u: User, y: Input)
    requires DistinctUsers(w.users) && u in w.users && CredentialIn(o, w, u).Found?
    requires y in Inputs(o, w, w.users) && y.name == u.name
    ensures y == CredentialIn(o, w, u).input
  {
    InputsDistinct(o, w, w.users);
    InputIn(o, w, w.users, u);
    InputNamed(o, w, u);
    SameNameSameInput(Inputs(o, w, w.users), y, CredentialIn(o, w, u).input);
  }

  /** A winner of now is a user that was admitted, whose credentials hold. */
  lemma WinnerVerified(e: Env, o: Options, w: World, w': World, b: Broker, random: Bytes, p: UserPass, x: Input, y: Input)
    requires Stored(e, o, w, w', b, random, p) && AllHold(e, o, w, w', b, p)
    requires IsOldest(e, Inputs(o, w, w.users), x) && y in Inputs(o, w', w.users) && y.name == x.name
    ensures y.username == x.username && e.Verifies(Get(KnownHashes(p.data), y.username), y.password)
  {
    var u := OldestIsJudged(e, o, w, b, random, x);
    assert ReadyStatus(StatusFor(u, p));
    InputNamed(o, w, u);
    InputOfUser(o, w', u, y);
  }

  /** What the renderer wrote in this pass, beside the exporter's password. */
  lemma Written(e: Env, o: Options, w: World, b: Broker, random: Bytes, p: UserPass)
    returns (pw: string, rest: Bytes, first: Result)
    requires Rendering(e, o, w, b, random).Ok? && Rendering(e, o, w, b, random).value == p
    ensures Password(b, AuthData(w, b), random) == Ok(pw, rest)
    ensures Rendered(e, Inputs(o, w, w.users), Reserved(b, pw), AuthData(w, b), rest).Ok?
    ensures first == Rendered(e, Inputs(o, w, w.users), Reserved(b, pw), AuthData(w, b), rest).value
    ensures p.data == PassData(b, first.data, pw) && KnownHashes(p.data) == KnownHashes(first.data)
    ensures p == UserPass(Usernames(o, w, w.users), Judgements(o, w, first.verdicts), first.accepted, p.data)
  {
    pw, rest := Password(b, AuthData(w, b), random).value, Password(b, AuthData(w, b), random).rest;
    first := Rendered(e, Inputs(o, w, w.users), Reserved(b, pw), AuthData(w, b), rest).value;
    KeysApart();
  }

  /** A hash that is kept is not empty. */
  lemma KeptIsSome(e: Env, l: Login, data: Data)
    requires e.Valid() && Keeps(e, l, KnownHashes(data))
    ensures Get(KnownHashes(data), l.username) != ""
  {
    KnownOnOneLine(data);
    assert e.Keep(Get(KnownHashes(data), l.username), l.password, []) == Ok(Get(KnownHashes(data), l.username), []);
  }

  /** The winner of before that is the twin of a winner of now. */
  lemma TwinOfWinner(e: Env, a: seq<Input>, c: seq<Input>, y: Input) returns (x: Input)
    requires DistinctNames(a) && DistinctNames(c) && Paired((x, y) => Twin(e, x, y), a, c)
    requires y in Winners(ByAge(e, c))
    ensures Twin(e, x, y) && x in Winners(ByAge(e, a)) && IsOldest(e, a, x) && y in c
  {
    PairedInputs(e, (x, y) => Twin(e, x, y), a, c);
    var i :| 0 <= i < |Winners(ByAge(e, c))| && Winners(ByAge(e, c))[i] == y;
    x := Winners(ByAge(e, a))[i];
    assert ((x, y) => Twin(e, x, y))(x, y);
    WinnersAreOldest(e, a, x);
    WinnersAreOldest(e, c, y);
  }

  lemma WinnerHashed(e: Env, inputs: seq<Input>, reserved: seq<Principal>, previous: Data, random: Bytes, x: Input)
    requires e.Valid() && PrincipalsOk(reserved) && x in Winners(ByAge(e, inputs))
    requires Rendered(e, inputs, reserved, previous, random).Ok?
    ensures Get(KnownHashes(Rendered(e, inputs, reserved, previous, random).value.data), x.username) != ""
  {
    WrittenAreKept(e, inputs, reserved, previous, random);
    var w := Winners(ByAge(e, inputs));
    var i :| 0 <= i < |w| && w[i] == x;
    var logins := AllLogins(ByAge(e, inputs), reserved);
    assert logins[i] == LoginOf(x) && LoginOf(x) in logins;
    KeptIsSome(e, LoginOf(x), Rendered(e, inputs, reserved, previous, random).value.data);
  }

  /** The hashes of the pass are kept for all winners of now. */
  lemma HoldingIsKept(e: Env, o: Options, w: World, w': World, b: Broker, random: Bytes, p: UserPass)
    requires e.Valid() && e.KeepsVerified()
    requires Stored(e, o, w, w', b, random, p) && AllHold(e, o, w, w', b, p)
    ensures AllKept(e, Inputs(o, w', w.users), KnownHashes(p.data))
  {
    var a, c := Inputs(o, w, w.users), Inputs(o, w', w.users);
    var pw, rest, first := Written(e, o, w, b, random, p);
    ReservedOk(b, pw);
    HoldingInputs(e, o, w, w', p, w.users);
    InputsDistinct(o, w, w.users);
    InputsDistinct(o, w', w.users);
    forall y, later | y in Winners(ByAge(e, c))
      ensures e.Keep(Get(KnownHashes(p.data), y.username), y.password, later) == Ok(Get(KnownHashes(p.data), y.username), later)
    {
      var x := TwinOfWinner(e, a, c, y);
      WinnerVerified(e, o, w, w', b, random, p, x, y);
      WinnerHashed(e, a, Reserved(b, pw), AuthData(w, b), rest, x);
    }
  }

  /** Where all credentials hold, rendering again gives what is there, without randomness. */
  lemma HoldingRendersAgain(e: Env, o: Options, w: World, w': World, b: Broker, random: Bytes, p: UserPass, later: Bytes)
    requires e.Valid() && e.KeepsVerified()
    requires Stored(e, o, w, w', b, random, p) && AllHold(e, o, w, w', b, p)
    ensures Rendering(e, o, w', b, later) == Ok(p, later)
  {
    var a, c := Inputs(o, w, w.users), Inputs(o, w', w.users);
    var pw, rest, first := Written(e, o, w, b, random, p);
    var reserved := Reserved(b, pw);
    ReservedOk(b, pw);
    HoldingInputs(e, o, w, w', p, w.users);
    HoldingIsKept(e, o, w, w', b, random, p);
    TwinsRenderAlike(e, a, c, reserved, AuthData(w, b), rest, later);
    KeysApart();
    OnlyPasswdMatters(e, c, reserved, p.data, first.data, later);
    PasswordIsStable(b, AuthData(w, b), first.data, random, later);
  }

  // ----------------------------------------------------------- and only then

  /** A user with credentials is told the renderer's verdict, and its username. */
  lemma FoundJudged(e: Env, o: Options, w: World, b: Broker, random: Bytes, u: User) returns (v: Verdict)
    requires DistinctUsers(w.users) && u in w.users && CredentialIn(o, w, u).Found?
    requires Rendering(e, o, w, b, random).Ok?
    ensures var x, inputs := CredentialIn(o, w, u).input, Inputs(o, w, w.users);
            && x in inputs && Truthful(e, inputs, x, v)
            && StatusFor(u, Rendering(e, o, w, b, random).value) == UserStatus(u.generation, x.username, Some(Judged(v)))
  {
    var x, inputs := CredentialIn(o, w, u).input, Inputs(o, w, w.users);
    InputNamed(o, w, u);
    InputIn(o, w, w.users, u);
    InputsDistinct(o, w, w.users);
    UsernameNoted(o, w, w.users, u);
    VerdictsSayWhy(e, inputs);
    v := Verdicts(e, inputs, ByAge(e, inputs))[x.name];
    VerdictIsJudgement(e, o, w, b, random, x.name);
  }

  /** The check's result can be read off the verdict. */
  lemma CheckOfVerdict(e: Env, a: seq<Input>, x: Input, c: seq<Input>, y: Input, v: Verdict)
    requires Truthful(e, a, x, v) && Truthful(e, c, y, v)
    ensures Check(e, x) == Check(e, y)
  {
    NeverConflict(e, x);
    NeverConflict(e, y);
  }

  /** An admitted user's stored hash verifies the password it was read with. */
  lemma AdmittedVerifies(e: Env, o: Options, w: World, b: Broker, random: Bytes, p: UserPass, x: Input)
    requires e.Valid() && DistinctUsers(w.users)
    requires Rendering(e, o, w, b, random).Ok? && Rendering(e, o, w, b, random).value == p
    requires IsOldest(e, Inputs(o, w, w.users), x)
    ensures e.Verifies(Get(KnownHashes(p.data), x.username), x.password)
  {
    var pw, rest, first := Written(e, o, w, b, random, p);
    InputsDistinct(o, w, w.users);
    ReservedOk(b, pw);
    assert Entitled(e, Inputs(o, w, w.users), Reserved(b, pw), x.username, x.password, x.acls);
    FilesNameAllTheEntitled(e, Inputs(o, w, w.users), Reserved(b, pw), AuthData(w, b), rest, x.username, x.password, x.acls);
  }

  /** A user told the same by both passes, over the same data, has credentials that hold. */
  lemma ToldTheSame(e: Env, o: Options, w: World, w': World, b: Broker, random: Bytes, p: UserPass,
                    later: Bytes, q: UserPass, u: User)
    requires e.Valid() && Stored(e, o, w, w', b, random, p) && u in w.users
    requires Rendering(e, o, w', b, later).Ok? && Rendering(e, o, w', b, later).value == q && q.data == p.data
    requires StatusFor(u, q) == StatusFor(u, p)
    ensures Holds(e, CredentialIn(o, w, u), CredentialIn(o, w', u), p.data, ReadyStatus(StatusFor(u, p)))
  {
    var before, now := CredentialIn(o, w, u), CredentialIn(o, w', u);
    if before.Found? && now.Found? {
      var v := FoundJudged(e, o, w, b, random, u);
      var v' := FoundJudged(e, o, w', b, later, u);
      CheckOfVerdict(e, Inputs(o, w, w.users), before.input, Inputs(o, w', w.users), now.input, v);
      if v == Admitted { AdmittedVerifies(e, o, w', b, later, q, now.input); }
    } else if before.Found? {
      var v := FoundJudged(e, o, w, b, random, u);
      UnreadableJudged(e, o, w', b, later, u);
    } else {
      UnreadableJudged(e, o, w, b, random, u);
      if now.Found? {
        var v' := FoundJudged(e, o, w', b, later, u);
      } else {
        UnreadableJudged(e, o, w', b, later, u);
      }
    }
  }

  // ------------------------------------------------------------ what a user reads

  /** The keys of the Secret a pass writes. */
  function RenderedKeys(b: Broker): set<string> { {PASSWD_KEY, ACL_KEY} + if b.metrics then {EXPORTER_KEY} else {} }

  predicate NamesRendered(w: World, u: User) { u.secret == AuthSecretName(w.name) }

  /** --secret-security keeps the rendered Secret from being read. */
  predicate Sealed(o: Options, w: World) { o.secretSecurity && !Consents(w.store.auth) }

  /** No user bound to the broker gets credentials out of the Secret its own pass writes:
      whoever names it may not read it, or reads a key that is never in it. */
  predicate NobodyReads(o: Options, w: World, b: Broker) {
    forall u :: u in w.users && NamesRendered(w, u) ==>
      Sealed(o, w) || UsernameKey(u) !in RenderedKeys(b) || PasswordKey(u) !in RenderedKeys(b)
  }

  /** What such a user is told once the Secret is written. */
  function ToldAfter(o: Options, w: World, b: Broker, u: User): Credential {
    if Sealed(o, w) then SecretNotConsumable
    else if UsernameKey(u) !in RenderedKeys(b) then KeyNotFound(UsernameKey(u))
    else KeyNotFound(PasswordKey(u))
  }

  /** And it is what the user is told already. */
  predicate ToldAlready(o: Options, w: World, b: Broker) {
    forall u :: u in w.users && NamesRendered(w, u) ==> CredentialIn(o, w, u) == ToldAfter(o, w, b, u)
  }

  lemma WrittenKeys(e: Env, o: Options, w: World, b: Broker, random: Bytes, p: UserPass)
    requires Rendering(e, o, w, b, random).Ok? && Rendering(e, o, w, b, random).value == p
    ensures p.data.Keys == RenderedKeys(b)
  {
    var pw, rest, first := Written(e, o, w, b, random, p);
  }

  /** What a pass leaves for the readers of its Secret. */
  ghost predicate Readable(w: World, w': World, b: Broker, p: UserPass) {
    && w'.store.auth.Some? && w'.store.auth.value.body.Contents? && w'.store.auth.value.body.data == p.data
    && SourcesKept(w, w')
  }

  lemma CredentialAfter(e: Env, o: Options, w: World, w': World, b: Broker, random: Bytes, p: UserPass, u: User)
    requires Rendering(e, o, w, b, random).Ok? && Rendering(e, o, w, b, random).value == p
    requires Readable(w, w', b, p) && u in w.users
    requires NamesRendered(w, u) ==>
      Sealed(o, w) || UsernameKey(u) !in RenderedKeys(b) || PasswordKey(u) !in RenderedKeys(b)
    ensures CredentialIn(o, w', u) == if NamesRendered(w, u) then ToldAfter(o, w, b, u) else CredentialIn(o, w, u)
  {
    WrittenKeys(e, o, w, b, random, p);
  }

  /** Credentials that are the same hold. */
  lemma SameHolds(e: Env, o: Options, w: World, w': World, b: Broker, random: Bytes, p: UserPass, u: User)
    requires e.Valid() && Stored(e, o, w, w', b, random, p) && u in w.users
    requires CredentialIn(o, w', u) == CredentialIn(o, w, u)
    ensures Holds(e, CredentialIn(o, w, u), CredentialIn(o, w', u), p.data, ReadyStatus(StatusFor(u, p)))
  {
    if CredentialIn(o, w, u).Found? {
      var v := FoundJudged(e, o, w, b, random, u);
      if v == Admitted { AdmittedVerifies(e, o, w, b, random, p, CredentialIn(o, w, u).input); }
    }
  }

  /** If nobody reads what the pass writes, all credentials hold exactly when everybody who
      names the Secret was told before what is said after it is written. */
  lemma HoldingByKeys(e: Env, o: Options, w: World, w': World, b: Broker, random: Bytes, p: UserPass)
    requires e.Valid() && Stored(e, o, w, w', b, random, p)
    requires Readable(w, w', b, p) && NobodyReads(o, w, b)
    ensures AllHold(e, o, w, w', b, p) <==> ToldAlready(o, w, b)
  {
    forall u | u in w.users
      ensures Holds(e, CredentialIn(o, w, u), CredentialIn(o, w', u), p.data, ReadyStatus(StatusFor(u, p))) <==>
                (NamesRendered(w, u) ==> CredentialIn(o, w, u) == ToldAfter(o, w, b, u))
    {
      CredentialAfter(e, o, w, w', b, random, p, u);
      if CredentialIn(o, w', u) == CredentialIn(o, w, u) { SameHolds(e, o, w, w', b, random, p, u); }
    }
  }
}
