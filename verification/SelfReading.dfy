/** A user that gives the Secret its broker's pass writes as its own credentials: why no
    finished pass is then the last one. */
module SelfReading {
  import opened Text
  import opened Sorting
  import opened Base64
  import opened PasswordHash
  import opened Credentials
  import opened Files
  import opened Renderer
  import opened RendererTheorems
  import opened StatefulSets
  import opened Cluster
  import opened PassModel
  import opened Standing
  import opened Pass
  import opened Rereading
  import opened Delivery
  import BrokerConfig

  ghost predicate ReadsItsOwnFile(o: Options, w: World, u: User) {
    && u in w.users && u.secret == AuthSecretName(w.name) && PasswordKey(u) == PASSWD_KEY
    && CredentialIn(o, w, u).Found?
  }

  /** The hash that the data holds for a user verifies the text of the very file it stands
      in. */
  predicate SelfVerified(e: Env, data: Data, username: string) {
    e.Verifies(Get(KnownHashes(data), username), Get(data, PASSWD_KEY))
  }

  lemma ReadsWhatIsStored(o: Options, w: World, b: Broker, u: User, data: Data)
    requires ReadsItsOwnFile(o, w, u) && Settled(w.store.auth, AuthBody(b, data), b.uid)
    ensures AuthData(w, b) == data && CredentialIn(o, w, u).input.password == Get(data, PASSWD_KEY)
  {
    SettledHolds(w.store.auth, b, data);
  }

  /** A world with an admitted user whose password is the very file it is rendered into is
      idle only if the user's own hash in that file verifies the file. */
  lemma IdleOnlyIfSelfVerified(e: Env, o: Options, namespace: string, w: World, b: Broker, u: User)
    requires e.Valid() && DistinctUsers(w.users) && w.broker == Some(b)
    requires ReadsItsOwnFile(o, w, u)
    requires IsOldest(e, Inputs(o, w, w.users), CredentialIn(o, w, u).input)
    requires Idle(e, o, namespace, w)
    ensures SelfVerified(e, AuthData(w, b), CredentialIn(o, w, u).input.username)
  {
    var p :| IdleFor(e, o, namespace, w, b, p);
    assert Rendering(e, o, w, b, []) == Ok(p, []);
    ReadsWhatIsStored(o, w, b, u, p.data);
    AdmittedVerifies(e, o, w, b, [], p, CredentialIn(o, w, u).input);
  }

  // ------------------------------------------------------------- the lone reader

  /** The only user of a broker with metrics takes the exporter's password for its
      username and the passwd file for its password, and nothing refuses that. */
  ghost predicate Lone(o: Options, w: World, b: Broker, u: User) {
    && w.broker == Some(b) && b.metrics && w.users == [u] && !o.secretSecurity
    && u.secret == AuthSecretName(w.name) && u.usernameKey == EXPORTER_KEY && u.passwordKey == PASSWD_KEY
    && u.acls == []
    && w.store.auth.Some? && w.store.auth.value.owner == Some(b.uid) && w.store.auth.value.body.Contents?
    && GivesLogin(w.store.auth.value.body.data)
  }

  /** The exporter's password can be a username, and there is a file to be the password. */
  predicate GivesLogin(data: Data) {
    && EXPORTER_KEY in data && UsernameAllowed(data[EXPORTER_KEY]) && !LooksReserved(data[EXPORTER_KEY])
    && PASSWD_KEY in data && data[PASSWD_KEY] != ""
  }

  lemma KeepsGivingLogin(data: Data, data': Data)
    requires GivesLogin(data)
    requires Get(data', EXPORTER_KEY) == data[EXPORTER_KEY] && Get(data', PASSWD_KEY) != ""
    ensures GivesLogin(data')
  {
    assert data[EXPORTER_KEY] != "";
  }

  lemma LoneInput(e: Env, o: Options, w: World, b: Broker, u: User)
    requires Lone(o, w, b, u)
    ensures ReadsItsOwnFile(o, w, u)
    ensures IsOldest(e, Inputs(o, w, w.users), CredentialIn(o, w, u).input)
  {
    var x := CredentialIn(o, w, u).input;
    CheckAccepts(e, x);
    assert w.users == [u] && [u][..0] == [];
    assert Inputs(o, w, []) == [];
    assert Inputs(o, w, w.users) == [x];
    assert x in [x];
    forall y | y in [x] ensures InputLeq(x, y) { LeqTotal(x.name, x.name); }
  }

  lemma LoneKeepsPassword(o: Options, w: World, b: Broker, random: Bytes, u: User)
    requires Lone(o, w, b, u)
    ensures Password(b, AuthData(w, b), random) == Ok(w.store.auth.value.body.data[EXPORTER_KEY], random)
  {
  }

  /** Rendering such a user keeps the exporter's password and writes a file. */
  lemma LoneRenders(e: Env, o: Options, w: World, b: Broker, p: UserPass, random: Bytes, u: User)
    requires e.Valid() && Lone(o, w, b, u) && Rendering(e, o, w, b, random).Ok?
    requires p == Rendering(e, o, w, b, random).value && DistinctUsers(w.users)
    ensures Get(p.data, EXPORTER_KEY) == w.store.auth.value.body.data[EXPORTER_KEY] && Get(p.data, PASSWD_KEY) != ""
  {
    LoneKeepsPassword(o, w, b, random, u);
    var password, rest, data := PassFiles(e, o, w, b, p, random);
    ExporterEntitled(e, Inputs(o, w, w.users), b, password);
    EntitledStored(e, o, w, b, p, random, EXPORTER_USERNAME, password, ExporterPrincipal(password).acls);
    NoFileNoLine(p.data);
  }

  /** Every pass that finishes leaves such a world such a world, with the same username. */
  lemma FinishedStaysLone(e: Env, o: Options, namespace: string, w: World, w': World, b: Broker, random: Bytes, u: User)
    requires e.Valid() && Lone(o, w, b, u) && w'.broker == Some(b)
    requires Finished(e, o, namespace, w, w', b, random)
    ensures Lone(o, w', b, u) && Username(w') == Username(w)
  {
    var p := Rendering(e, o, w, b, random).value;
    LoneRenders(e, o, w, b, p, random, u);
    KeepsGivingLogin(w.store.auth.value.body.data, p.data);
    SettledHolds(w'.store.auth, b, p.data);
  }

  function Username(w: World): string
    requires w.store.auth.Some? && w.store.auth.value.body.Contents?
  {
    Get(w.store.auth.value.body.data, EXPORTER_KEY)
  }

  lemma LoneIsReady(e: Env, o: Options, namespace: string, w: World, w': World, b: Broker, random: Bytes, u: User)
    requires Lone(o, w, b, u) && DistinctUsers(w.users) && w'.broker == Some(b)
    requires Finished(e, o, namespace, w, w', b, random)
    ensures ReadyStatus(StatusOf(w', u.name))
  {
    LoneInput(e, o, w, b, u);
    var v := OldestIsJudged(e, o, w, b, random, CredentialIn(o, w, u).input);
    assert v in [u];
    assert StatusOf(w', u.name) == StatusFor(u, Rendering(e, o, w, b, random).value);
  }

  lemma LoneHoldsExactly(e: Env, o: Options, w: World, w': World, b: Broker, u: User)
    requires Lone(o, w, b, u) && Lone(o, w', b, u) && Username(w') == Username(w) && w'.name == w.name
    requires ReadyStatus(StatusOf(w', u.name))
    ensures CredentialsHold(e, o, w, w') <==> SelfVerified(e, AuthData(w', b), Username(w'))
  {
    var x, y := CredentialIn(o, w, u).input, CredentialIn(o, w', u).input;
    CheckAccepts(e, x);
    CheckAccepts(e, y);
    assert u in [u];
  }

  /** The exact condition, for the operator's own hashing: after every finished pass there
      is rest if and only if the hash the pass has made for the user verifies the file the
      pass has written it into. */
  lemma LoneIdleExactly(utf8: string -> bool, derive: Derive, o: Options, namespace: string,
                        w: World, w': World, b: Broker, random: Bytes, u: User)
    requires ExactLength(derive)
    requires Lone(o, w, b, u) && w'.broker == Some(b) && !b.deleting
    requires Finished(HashEnv(utf8, derive), o, namespace, w, w', b, random)
    ensures Lone(o, w', b, u)
    ensures Idle(HashEnv(utf8, derive), o, namespace, w') <==>
              SelfVerified(HashEnv(utf8, derive), AuthData(w', b), Username(w'))
  {
    HashEnvValid(utf8, derive);
    LoneIdle(HashEnv(utf8, derive), o, namespace, w, w', b, random, u);
  }

  lemma LoneIdle(e: Env, o: Options, namespace: string, w: World, w': World, b: Broker, random: Bytes, u: User)
    requires e.Valid() && e.KeepsVerified()
    requires Lone(o, w, b, u) && w'.broker == Some(b) && !b.deleting
    requires Finished(e, o, namespace, w, w', b, random)
    ensures Lone(o, w', b, u)
    ensures Idle(e, o, namespace, w') <==> SelfVerified(e, AuthData(w', b), Username(w'))
  {
    assert DistinctUsers(w.users);
    FinishedStaysLone(e, o, namespace, w, w', b, random, u);
    LoneIsReady(e, o, namespace, w, w', b, random, u);
    LoneHoldsExactly(e, o, w, w', b, u);
    FinishedIsIdle(e, o, namespace, w, w', b, random);
  }

  lemma NoFileNoLine(data: Data)
    ensures Get(data, PASSWD_KEY) == "" ==> ReadPasswd(data) == []
  {
    assert Split("", '\n') == [""];
    assert [""][..0] == [];
  }

  // --------------------------------------------------------- it does happen

  /** The first byte of the key in the hash that a passwd file holds for a user. */
  function FirstOfKey(text: string, username: string): Byte {
    match ParseHash(Get(KnownHashes(map[PASSWD_KEY := text]), username))
    case None => 1
    case Some(h) => h.key[0]
  }

  /** A PBKDF2 under which no passwd file is the password of this user's hash in it. */
  function Contrary(username: string): Derive {
    (password, salt, iterations, n: nat) =>
      Some(seq(n, _ => if FirstOfKey(password, username) == 0 then 255 else 0))
  }

  lemma ContraryNeverSelf(utf8: string -> bool, data: Data, username: string)
    ensures !SelfVerified(HashEnv(utf8, Contrary(username)), data, username)
  {
    var text := Get(data, PASSWD_KEY);
    assert KnownHashes(map[PASSWD_KEY := text]) == KnownHashes(data);
    match ParseHash(Get(KnownHashes(data), username)) {
      case None =>
      case Some(h) =>
        var key := Contrary(username)(text, h.salt, h.iterations, |h.key|);
        assert key.value[0] != h.key[0];
    }
  }

  /** As long as there is a salt to read, hashing does not fail and reads one at most. */
  ghost predicate Serves(e: Env) {
    forall previous, password, random :: |random| >= SALT_LENGTH ==>
      var r := e.Keep(previous, password, random); r.Ok? && |r.rest| >= |random| - SALT_LENGTH
  }

  ghost predicate Hashable(l: Login) { l.own ==> HasPrefix(l.username, RESERVED_PREFIX) && l.password != "" }

  lemma LoginsHashable(order: seq<Input>, q: Principal)
    requires HasPrefix(q.username, RESERVED_PREFIX) && q.password != ""
    ensures forall l :: l in AllLogins(order, [q]) ==> Hashable(l)
  {
    var winners, own := LoginsOf(Winners(order)), OwnLogins([q]);
    assert forall l :: l in winners ==> !l.own;
    assert own == [OwnLogin(q)];
  }

  lemma {:induction false} HashesAll(e: Env, logins: seq<Login>, known: map<string, string>, random: Bytes)
    requires Serves(e) && |random| >= SALT_LENGTH * |logins|
    requires forall l :: l in logins ==> Hashable(l)
    ensures var r := HashAll(e, logins, known, random); r.Ok? && |r.rest| >= |random| - SALT_LENGTH * |logins|
  {
    if logins != [] {
      assert logins[|logins| - 1] in logins;
      HashesAll(e, logins[..|logins| - 1], known, random);
    }
  }

  lemma {:induction false} WinnersAtMost(c: seq<Input>)
    ensures |Winners(c)| <= |c|
  {
    if c != [] { WinnersAtMost(c[..|c| - 1]); }
  }

  lemma {:induction false} CandidatesAtMost(e: Env, inputs: seq<Input>)
    ensures |Candidates(e, inputs)| <= |inputs|
  {
    if inputs != [] { CandidatesAtMost(e, inputs[..|inputs| - 1]); }
  }

  lemma RendersWithSalts(e: Env, inputs: seq<Input>, q: Principal, previous: Data, random: Bytes)
    requires Serves(e) && |random| >= SALT_LENGTH * (|inputs| + 1)
    requires HasPrefix(q.username, RESERVED_PREFIX) && q.password != ""
    ensures Rendered(e, inputs, [q], previous, random).Ok?
  {
    var order := ByAge(e, inputs);
    LoginsHashable(order, q);
    ByAgeSorted(e, inputs);
    PermutationMembers(order, Candidates(e, inputs));
    CandidatesAtMost(e, inputs);
    WinnersAtMost(order);
    HashesAll(e, AllLogins(order, [q]), KnownHashes(previous), random);
  }

  lemma LoneRendersWithSalts(e: Env, o: Options, w: World, b: Broker, u: User, random: Bytes)
    requires Serves(e) && Lone(o, w, b, u) && |random| >= 2 * SALT_LENGTH
    ensures Rendering(e, o, w, b, random).Ok?
  {
    var kept := w.store.auth.value.body.data[EXPORTER_KEY];
    LoneKeepsPassword(o, w, b, random, u);
    assert EXPORTER_USERNAME[..4] == RESERVED_PREFIX;
    assert [u][..0] == [] && |Inputs(o, w, [])| == 0;
    assert |Inputs(o, w, w.users)| <= 1;
    RendersWithSalts(e, Inputs(o, w, w.users), ExporterPrincipal(kept), AuthData(w, b), random);
  }

  lemma LoneWorkable(e: Env, o: Options, namespace: string, w: World, b: Broker, u: User, random: Bytes)
    requires Serves(e) && Lone(o, w, b, u) && RefusalIn(o, namespace, w, b) == None && |random| >= 2 * SALT_LENGTH
    requires !b.deleting && b.plan.sts.Some? && NoneForeign(w.store, b.uid)
    ensures Workable(e, o, namespace, w, random)
  {
    LoneRendersWithSalts(e, o, w, b, u, random);
  }

  /** hash.go serves over every PBKDF2 that always returns a key. */
  lemma TotalServes(utf8: string -> bool, derive: Derive)
    requires forall password, salt, iterations, n :: derive(password, salt, iterations, n).Some?
    ensures Serves(HashEnv(utf8, derive))
  {
  }

  /** A broker with metrics and a user bound to it that names the rendered Secret, with
      --secret-security off, as it is by default. */
  lemma SomeSelfReader() returns (o: Options, w: World, b: Broker, u: User)
    ensures Lone(o, w, b, u) && RefusalIn(o, "ns", w, b) == None
    ensures !b.deleting && b.plan.sts.Some? && NoneForeign(w.store, b.uid)
  {
    u := User("u", 0, 1, "b", "b-auth", EXPORTER_KEY, PASSWD_KEY, []);
    b := Broker("uid", 1, false, "", true, "", 1,
                Plan(map[], [], "", "", map[], Some(Spec("b", "v", 1, map[], map[], "", "", ""))));
    var data: Data := map[EXPORTER_KEY := "abc", PASSWD_KEY := "x"];
    o := Options(false, []);
    w := World("b", Some(b), BrokerStatus(Unset, 0, 0, 0, None, None), [u], map[], map[],
               Store(Some(Object(Some("uid"), Contents(map[], data))), None, None, None, None), 0);
    assert AuthSecretName("b") == "b-auth";
    KeysApart();
    assert GivesLogin(data) by { assert "abc"[0] == 'a'; }
    assert Split("", '\n') == [""] && !BrokerConfig.Speaks("");
  }

  /** Over a PBKDF2 that always returns keys of the length asked for, it does happen: from
      such a world a pass without faults finishes, and neither its end nor that of any later
      finished pass is ever idle. */
  lemma SelfReadingHappens(utf8: string -> bool, random: Bytes)
    returns (derive: Derive, o: Options, w: World, b: Broker, u: User)
    requires |random| >= 2 * SALT_LENGTH
    ensures ExactLength(derive)
    ensures forall password, salt, iterations, n :: derive(password, salt, iterations, n).Some?
    ensures Lone(o, w, b, u) && Workable(HashEnv(utf8, derive), o, "ns", w, random)
    ensures forall w': World :: Lone(o, w', b, u) && Username(w') == Username(w) ==>
              !Idle(HashEnv(utf8, derive), o, "ns", w')
  {
    o, w, b, u := SomeSelfReader();
    derive := Contrary(Username(w));
    HashEnvValid(utf8, derive);
    TotalServes(utf8, derive);
    LoneWorkable(HashEnv(utf8, derive), o, "ns", w, b, u, random);
    forall w': World | Lone(o, w', b, u) && Username(w') == Username(w)
      ensures !Idle(HashEnv(utf8, derive), o, "ns", w')
    {
      NeverAtRest(utf8, o, "ns", w', b, u);
    }
  }

  lemma NeverAtRest(utf8: string -> bool, o: Options, namespace: string, w: World, b: Broker, u: User)
    requires Lone(o, w, b, u)
    ensures !Idle(HashEnv(utf8, Contrary(Username(w))), o, namespace, w)
  {
    var e := HashEnv(utf8, Contrary(Username(w)));
    HashEnvValid(utf8, Contrary(Username(w)));
    ContraryNeverSelf(utf8, AuthData(w, b), Username(w));
    LoneNotSelfVerified(e, o, namespace, w, b, u);
  }

  lemma LoneNotSelfVerified(e: Env, o: Options, namespace: string, w: World, b: Broker, u: User)
    requires e.Valid() && Lone(o, w, b, u) && !SelfVerified(e, AuthData(w, b), Username(w))
    ensures !Idle(e, o, namespace, w)
  {
    LoneInput(e, o, w, b, u);
    if Idle(e, o, namespace, w) { IdleOnlyIfSelfVerified(e, o, namespace, w, b, u); }
  }
}
