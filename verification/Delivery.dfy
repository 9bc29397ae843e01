/** From the users of a finished pass to the broker: what a running broker has loaded
    once the kubelet has published the rendered Secret and the reloader has seen it. */
module Delivery {
  import opened Text
  import opened Base64
  import opened PasswordHash
  import opened Credentials
  import opened Files
  import opened Renderer
  import opened RendererTheorems
  import opened Cluster
  import opened PassModel
  import opened Standing
  import opened Pass
  import Mounts
  import Rounds
  import ReloaderTheorems

  /** Line i of passwd and block i of acl are those of this user: a hash that verifies
      its password, and exactly its own grants. */
  ghost predicate LineIs(e: Env, data: Data, i: int, username: string, password: string, acls: seq<Acl>) {
    && 0 <= i < |ReadPasswd(data)| == |ReadAcl(data)|
    && ReadPasswd(data)[i].fst == username
    && e.Verifies(ReadPasswd(data)[i].snd, password)
    && ReadAcl(data)[i] == Block(username, CanonicalAcls(acls))
  }

  ghost predicate HasLine(e: Env, data: Data, username: string, password: string, acls: seq<Acl>) {
    exists i :: LineIs(e, data, i, username, password, acls)
  }

  ghost predicate ReadyUser(o: Options, w: World, u: User) {
    u in w.users && ReadyStatus(StatusOf(w, u.name)) && CredentialIn(o, w, u).Found?
  }

  /** Line i belongs to a user reported Ready, with what its Secret holds now. */
  ghost predicate OfReady(e: Env, o: Options, w: World, data: Data, i: int) {
    exists u :: ReadyUser(o, w, u) &&
      var x := CredentialIn(o, w, u).input; LineIs(e, data, i, x.username, x.password, x.acls)
  }

  /** Line i is the exporter's. */
  ghost predicate OfExporter(e: Env, b: Broker, data: Data, password: string, i: int) {
    b.metrics && LineIs(e, data, i, EXPORTER_USERNAME, password, ExporterPrincipal(password).acls)
  }

  ghost predicate ReadyHaveLines(e: Env, o: Options, w: World, data: Data) {
    forall u :: u in w.users && ReadyStatus(StatusOf(w, u.name)) ==>
      CredentialIn(o, w, u).Found? &&
      var x := CredentialIn(o, w, u).input; HasLine(e, data, x.username, x.password, x.acls)
  }

  ghost predicate ExporterHasLine(e: Env, b: Broker, data: Data, password: string) {
    b.metrics ==> HasLine(e, data, EXPORTER_USERNAME, password, ExporterPrincipal(password).acls)
  }

  ghost predicate NobodyElse(e: Env, o: Options, w: World, b: Broker, data: Data, password: string) {
    && |ReadPasswd(data)| == |ReadAcl(data)|
    && forall i :: 0 <= i < |ReadPasswd(data)| ==> OfReady(e, o, w, data, i) || OfExporter(e, b, data, password, i)
  }

  /** The files say exactly what the statuses of the users say. */
  ghost predicate Says(e: Env, o: Options, w: World, b: Broker, data: Data, password: string) {
    ReadyHaveLines(e, o, w, data) && ExporterHasLine(e, b, data, password) && NobodyElse(e, o, w, b, data, password)
  }

  lemma EntitledHasLine(e: Env, inputs: seq<Input>, reserved: seq<Principal>, previous: Data, random: Bytes,
                        username: string, password: string, acls: seq<Acl>)
    requires e.Valid() && PrincipalsOk(reserved) && DistinctNames(inputs)
    requires Rendered(e, inputs, reserved, previous, random).Ok?
    requires Entitled(e, inputs, reserved, username, password, acls)
    ensures HasLine(e, Rendered(e, inputs, reserved, previous, random).value.data, username, password, acls)
  {
    FilesNameAllTheEntitled(e, inputs, reserved, previous, random, username, password, acls);
    var data := Rendered(e, inputs, reserved, previous, random).value.data;
    var i :| 0 <= i < |ReadPasswd(data)| && |ReadPasswd(data)| == |ReadAcl(data)| &&
             ReadPasswd(data)[i].fst == username && e.Verifies(ReadPasswd(data)[i].snd, password) &&
             ReadAcl(data)[i] == Block(username, CanonicalAcls(acls));
    assert LineIs(e, data, i, username, password, acls);
  }

  ghost predicate PassOf(e: Env, o: Options, w: World, b: Broker, random: Bytes, p: UserPass) {
    Rendering(e, o, w, b, random).Ok? && Rendering(e, o, w, b, random).value == p
  }

  /** What the renderer made of the pass, and what the pass made of that. */
  lemma PassFiles(e: Env, o: Options, w: World, b: Broker, p: UserPass, random: Bytes)
    returns (password: string, rest: Bytes, data: Data)
    requires PassOf(e, o, w, b, random, p)
    ensures Password(b, AuthData(w, b), random) == Ok(password, rest)
    ensures Rendered(e, Inputs(o, w, w.users), Reserved(b, password), AuthData(w, b), rest).Ok?
    ensures data == Rendered(e, Inputs(o, w, w.users), Reserved(b, password), AuthData(w, b), rest).value.data
    ensures ReadPasswd(p.data) == ReadPasswd(data) && ReadAcl(p.data) == ReadAcl(data)
    ensures b.metrics ==> password == Get(p.data, EXPORTER_KEY)
  {
    var pw := Password(b, AuthData(w, b), random);
    password, rest := pw.value, pw.rest;
    data := Rendered(e, Inputs(o, w, w.users), Reserved(b, password), AuthData(w, b), rest).value.data;
    KeysApart();
    assert p.data == PassData(b, data, password);
  }

  /** Whoever is entitled to a line has it in what the pass stored. */
  lemma EntitledStored(e: Env, o: Options, w: World, b: Broker, p: UserPass, random: Bytes,
                       username: string, password: string, acls: seq<Acl>)
    requires e.Valid() && DistinctUsers(w.users) && PassOf(e, o, w, b, random, p)
    requires Entitled(e, Inputs(o, w, w.users), Reserved(b, Password(b, AuthData(w, b), random).value),
                      username, password, acls)
    ensures HasLine(e, p.data, username, password, acls)
  {
    var pw, rest, data := PassFiles(e, o, w, b, p, random);
    InputsDistinct(o, w, w.users);
    ReservedOk(b, pw);
    EntitledHasLine(e, Inputs(o, w, w.users), Reserved(b, pw), AuthData(w, b), rest, username, password, acls);
    SameFiles(e, data, p.data, username, password, acls);
  }

  /** Whoever has a line in what the pass stored is entitled to it. */
  lemma StoredIsEntitled(e: Env, o: Options, w: World, b: Broker, p: UserPass, random: Bytes, i: int)
    returns (password: string, acls: seq<Acl>)
    requires e.Valid() && DistinctUsers(w.users) && PassOf(e, o, w, b, random, p)
    requires 0 <= i < |ReadPasswd(p.data)|
    ensures |ReadPasswd(p.data)| == |ReadAcl(p.data)|
    ensures Entitled(e, Inputs(o, w, w.users), Reserved(b, Password(b, AuthData(w, b), random).value),
                     ReadPasswd(p.data)[i].fst, password, acls)
    ensures LineIs(e, p.data, i, ReadPasswd(p.data)[i].fst, password, acls)
  {
    var pw, rest, data := PassFiles(e, o, w, b, p, random);
    InputsDistinct(o, w, w.users);
    ReservedOk(b, pw);
    FilesNameOnlyTheEntitled(e, Inputs(o, w, w.users), Reserved(b, pw), AuthData(w, b), rest);
    password, acls :| Entitled(e, Inputs(o, w, w.users), Reserved(b, pw), ReadPasswd(data)[i].fst, password, acls) &&
                      e.Verifies(ReadPasswd(data)[i].snd, password) && ReadAcl(data)[i].grants == CanonicalAcls(acls);
  }

  lemma SameLength(e: Env, o: Options, w: World, b: Broker, p: UserPass, random: Bytes)
    requires e.Valid() && DistinctUsers(w.users) && PassOf(e, o, w, b, random, p)
    ensures |ReadPasswd(p.data)| == |ReadAcl(p.data)|
  {
    var pw, rest, data := PassFiles(e, o, w, b, p, random);
    InputsDistinct(o, w, w.users);
    ReservedOk(b, pw);
    FilesNameOnlyTheEntitled(e, Inputs(o, w, w.users), Reserved(b, pw), AuthData(w, b), rest);
  }

  lemma ExporterEntitled(e: Env, inputs: seq<Input>, b: Broker, password: string)
    requires b.metrics
    ensures Entitled(e, inputs, Reserved(b, password), EXPORTER_USERNAME, password, ExporterPrincipal(password).acls)
  {
  }

  lemma ReadyStored(e: Env, o: Options, w: World, b: Broker, p: UserPass, random: Bytes)
    requires e.Valid() && DistinctUsers(w.users) && PassOf(e, o, w, b, random, p)
    requires UsersReported(w, p)
    ensures ReadyHaveLines(e, o, w, p.data)
  {
    forall u | u in w.users && ReadyStatus(StatusOf(w, u.name))
      ensures CredentialIn(o, w, u).Found?
      ensures var x := CredentialIn(o, w, u).input; HasLine(e, p.data, x.username, x.password, x.acls)
    {
      ReadyHasLine(e, o, w, b, p, random, u);
      var x := CredentialIn(o, w, u).input;
      var pw := Password(b, AuthData(w, b), random).value;
      assert Entitled(e, Inputs(o, w, w.users), Reserved(b, pw), x.username, x.password, x.acls);
      EntitledStored(e, o, w, b, p, random, x.username, x.password, x.acls);
    }
  }

  lemma OnlyThemStored(e: Env, o: Options, w: World, b: Broker, p: UserPass, random: Bytes)
    requires e.Valid() && DistinctUsers(w.users) && PassOf(e, o, w, b, random, p)
    requires UsersReported(w, p)
    ensures NobodyElse(e, o, w, b, p.data, Password(b, AuthData(w, b), random).value)
  {
    var pw := Password(b, AuthData(w, b), random).value;
    SameLength(e, o, w, b, p, random);
    forall i | 0 <= i < |ReadPasswd(p.data)| ensures OfReady(e, o, w, p.data, i) || OfExporter(e, b, p.data, pw, i) {
      var secret, acls := StoredIsEntitled(e, o, w, b, p, random, i);
      EntitledIsReady(e, o, w, b, p, random, i, ReadPasswd(p.data)[i].fst, secret, acls, pw);
    }
  }

  /** The first half: what was rendered for an idle world says what its statuses say. */
  lemma IdleSays(e: Env, o: Options, namespace: string, w: World, b: Broker, p: UserPass, random: Bytes)
    returns (password: string)
    requires e.Valid() && DistinctUsers(w.users) && IdleFor(e, o, namespace, w, b, p)
    ensures Says(e, o, w, b, p.data, password)
    ensures b.metrics ==> password == Get(p.data, EXPORTER_KEY)
  {
    assert Rendering(e, o, w, b, random) == Ok(p, random);
    var rest, data;
    password, rest, data := PassFiles(e, o, w, b, p, random);
    ReadyStored(e, o, w, b, p, random);
    OnlyThemStored(e, o, w, b, p, random);
    if b.metrics {
      ExporterEntitled(e, Inputs(o, w, w.users), b, password);
      EntitledStored(e, o, w, b, p, random, EXPORTER_USERNAME, password, ExporterPrincipal(password).acls);
    }
  }

  lemma SameFiles(e: Env, data: Data, data': Data, username: string, password: string, acls: seq<Acl>)
    requires ReadPasswd(data) == ReadPasswd(data') && ReadAcl(data) == ReadAcl(data')
    requires HasLine(e, data, username, password, acls)
    ensures HasLine(e, data', username, password, acls)
  {
    var i :| LineIs(e, data, i, username, password, acls);
    assert LineIs(e, data', i, username, password, acls);
  }

  /** A user reported Ready is the oldest of its username. */
  lemma ReadyHasLine(e: Env, o: Options, w: World, b: Broker, p: UserPass, random: Bytes, u: User)
    requires DistinctUsers(w.users) && PassOf(e, o, w, b, random, p)
    requires UsersReported(w, p) && u in w.users && ReadyStatus(StatusOf(w, u.name))
    ensures CredentialIn(o, w, u).Found? && IsOldest(e, Inputs(o, w, w.users), CredentialIn(o, w, u).input)
  {
    assert StatusOf(w, u.name) == StatusFor(u, p);
    var x, v := AdmittedIsOldest(e, o, w, b, random, u.name);
    SameUser(w.users, u, v);
  }

  /** The line of an oldest input is that of a user reported Ready. */
  lemma InputLineIsReady(e: Env, o: Options, w: World, b: Broker, p: UserPass, random: Bytes, i: int, x: Input)
    requires DistinctUsers(w.users) && PassOf(e, o, w, b, random, p) && UsersReported(w, p)
    requires IsOldest(e, Inputs(o, w, w.users), x) && LineIs(e, p.data, i, x.username, x.password, x.acls)
    ensures OfReady(e, o, w, p.data, i)
  {
    var u := OldestIsJudged(e, o, w, b, random, x);
    assert StatusOf(w, u.name) == StatusFor(u, p);
    assert ReadyUser(o, w, u);
  }

  lemma PrincipalLineIsExporter(e: Env, b: Broker, data: Data, password: string, i: int, q: Principal)
    requires q in Reserved(b, password) && LineIs(e, data, i, q.username, q.password, q.acls)
    ensures OfExporter(e, b, data, password, i)
  {
  }

  /** Who is entitled to a line is a user reported Ready, or the exporter. */
  lemma EntitledIsReady(e: Env, o: Options, w: World, b: Broker, p: UserPass, random: Bytes,
                        i: int, username: string, password: string, acls: seq<Acl>, exporter: string)
    requires DistinctUsers(w.users) && PassOf(e, o, w, b, random, p) && UsersReported(w, p)
    requires LineIs(e, p.data, i, username, password, acls)
    requires Entitled(e, Inputs(o, w, w.users), Reserved(b, exporter), username, password, acls)
    ensures OfReady(e, o, w, p.data, i) || OfExporter(e, b, p.data, exporter, i)
  {
    if x :| IsOldest(e, Inputs(o, w, w.users), x) && x.username == username && x.password == password && x.acls == acls {
      InputLineIsReady(e, o, w, b, p, random, i, x);
    } else {
      var q :| q in Reserved(b, exporter) && q.username == username && q.password == password && q.acls == acls;
      PrincipalLineIsExporter(e, b, p.data, exporter, i, q);
    }
  }

  // ------------------------------------------------------------- into the broker

  /** The mount of the reloader shows the rendered Secret. */
  ghost predicate Published(m: Mounts.Mount, data: Data) {
    forall key :: key == PASSWD_KEY || key == ACL_KEY ==>
      Mounts.ReadAt(m, Mounts.Resolve(m, false), key) == Some(Get(data, key))
  }

  const COPIED := [PASSWD_KEY, ACL_KEY]

  /** From status to login. Once a pass has finished, and the kubelet has published its
      Secret before the reloader makes one round in which nothing fails, a broker that runs
      when the round ends has loaded for every user reported Ready a hash that verifies the
      password now in the user's Secret and exactly the grants now in its spec, the
      exporter's line for a broker with metrics, and nobody else - whatever happened to the
      broker, the mount and the reloader before, short of a torn Sync, and however often
      the broker starts and stops meanwhile. */
  lemma ReadyUsersReachTheBroker(e: Env, o: Options, namespace: string, w: World, b: Broker,
                                 m: Mounts.World, s: Rounds.State, cfg: Rounds.Config, t: Rounds.Tools,
                                 env: Rounds.RoundEnv, last: Rounds.TlsRead, contents: set<string>)
    requires e.Valid() && DistinctUsers(w.users)
    requires Idle(e, o, namespace, w) && w.broker == Some(b)
    requires cfg.files == COPIED && Published(Mounts.HappenAll(m, env.link.events).source, AuthData(w, b))
    requires ReloaderTheorems.Converging(m, cfg, t, env) && ReloaderTheorems.SignalDue(m, s.pending)
    requires !t.pairs("", "") && ReloaderTheorems.TellsApart(t, contents)
    requires ReloaderTheorems.Among(last, contents)
    requires ReloaderTheorems.Among(Rounds.ReadTls(Rounds.Sync(m, cfg.files, env).world, env).snd, contents)
    requires s.tls.seen ==> ReloaderTheorems.Remembers(t, s.tls, last)
    ensures var after := Rounds.Once(m, s, cfg, t, env).world;
            after.broker.Some? ==>
              Says(e, o, w, b, after.broker.value, Get(AuthData(w, b), EXPORTER_KEY))
  {
    ReloaderTheorems.RoundConverges(m, s, cfg, t, env, last, contents);
    var after := Rounds.Once(m, s, cfg, t, env).world;
    assert PASSWD_KEY in cfg.files && ACL_KEY in cfg.files by {
      assert COPIED[0] == PASSWD_KEY && COPIED[1] == ACL_KEY;
    }
    if after.broker.Some? {
      LoadedSays(e, o, namespace, w, b, after.broker.value);
    }
  }

  /** Files that are those an idle world has stored say what its statuses say. */
  lemma LoadedSays(e: Env, o: Options, namespace: string, w: World, b: Broker, loaded: Data)
    requires e.Valid() && DistinctUsers(w.users)
    requires Idle(e, o, namespace, w) && w.broker == Some(b)
    requires Get(loaded, PASSWD_KEY) == Get(AuthData(w, b), PASSWD_KEY)
    requires Get(loaded, ACL_KEY) == Get(AuthData(w, b), ACL_KEY)
    ensures Says(e, o, w, b, loaded, Get(AuthData(w, b), EXPORTER_KEY))
  {
    var p :| IdleFor(e, o, namespace, w, b, p);
    var password := IdleSays(e, o, namespace, w, b, p, []);
    SaysOfFiles(e, o, w, b, p.data, loaded, password);
    if !b.metrics { PasswordUnused(e, o, w, b, loaded, password, Get(AuthData(w, b), EXPORTER_KEY)); }
  }

  lemma SaysOfFiles(e: Env, o: Options, w: World, b: Broker, data: Data, data': Data, password: string)
    requires Says(e, o, w, b, data, password)
    requires ReadPasswd(data) == ReadPasswd(data') && ReadAcl(data) == ReadAcl(data')
    ensures Says(e, o, w, b, data', password)
  {
    forall u | u in w.users && ReadyStatus(StatusOf(w, u.name))
      ensures var x := CredentialIn(o, w, u).input; HasLine(e, data', x.username, x.password, x.acls)
    {
      var x := CredentialIn(o, w, u).input;
      SameFiles(e, data, data', x.username, x.password, x.acls);
    }
    if b.metrics { SameFiles(e, data, data', EXPORTER_USERNAME, password, ExporterPrincipal(password).acls); }
    forall i | 0 <= i < |ReadPasswd(data')|
      ensures OfReady(e, o, w, data', i) || OfExporter(e, b, data', password, i)
    {
      if OfReady(e, o, w, data, i) {
        var u :| ReadyUser(o, w, u) &&
          var x := CredentialIn(o, w, u).input; LineIs(e, data, i, x.username, x.password, x.acls);
        var x := CredentialIn(o, w, u).input;
        assert LineIs(e, data', i, x.username, x.password, x.acls);
      }
    }
  }

  lemma PasswordUnused(e: Env, o: Options, w: World, b: Broker, data: Data, password: string, password': string)
    requires !b.metrics && Says(e, o, w, b, data, password)
    ensures Says(e, o, w, b, data, password')
  {
  }
}
