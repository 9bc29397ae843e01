/** What one reconcile pass works on and works out: the cluster as the pass sees it,
    the rendering of its users, the objects it wants and the statuses it reports. */
module PassModel {
  import opened Text
  import opened Base64
  import opened PasswordHash
  import opened Credentials
  import opened Files
  import opened Renderer
  import opened RendererTheorems
  import opened StatefulSets
  import opened Cluster
  import Labels

  // --------------------------------------------------------------- managed objects

  datatype Slot = AuthSecret | ConfigMap | HeadlessService | ClientService | BrokerSet

  datatype Body =
    | Contents(labels: Labels.Map, data: Data)
    | Wire(labels: Labels.Map, ports: string, selector: Labels.Map)
    | Workload(sts: Sts)

  /** owner is the uid of the controlling object. */
  datatype Object = Object(owner: Option<string>, body: Body)

  /** The managed objects of one broker, slot by slot. */
  datatype Store = Store(auth: Option<Object>, config: Option<Object>, headless: Option<Object>,
                         client: Option<Object>, set_: Option<Object>)

  function In(store: Store, slot: Slot): Option<Object> {
    match slot
    case AuthSecret => store.auth
    case ConfigMap => store.config
    case HeadlessService => store.headless
    case ClientService => store.client
    case BrokerSet => store.set_
  }

  function With(store: Store, slot: Slot, obj: Object): Store {
    match slot
    case AuthSecret => store.(auth := Some(obj))
    case ConfigMap => store.(config := Some(obj))
    case HeadlessService => store.(headless := Some(obj))
    case ClientService => store.(client := Some(obj))
    case BrokerSet => store.(set_ := Some(obj))
  }

  /** Whether a live object needs no update. */
  predicate UpToDate(current: Body, desired: Body) {
    match (current, desired)
    case (Contents(l, d), Contents(l', d')) => d == d' && !Labels.EntriesMissing(l', l)
    case (Wire(l, p, s), Wire(l', p', s')) => p == p' && s == s' && !Labels.EntriesMissing(l', l)
    case (Workload(s), Workload(s')) => !HasChanged(s', s)
    case _ => false
  }

  /** What an update makes of it. */
  function Updated(current: Body, desired: Body): Body {
    match (current, desired)
    case (Contents(l, _), Contents(l', d')) => Contents(l + l', d')
    case (Wire(l, _, _), Wire(l', p', s')) => Wire(l + l', p', s')
    case (Workload(s), Workload(s')) => Workload(Merged(s, s'))
    case _ => desired
  }

  lemma UpdateSettles(current: Body, desired: Body)
    ensures UpToDate(Updated(current, desired), desired)
    ensures UpToDate(desired, desired)
  {
  }

  /** What create and update leave for a desired body. */
  function Made(live: Option<Object>, desired: Body, uid: string): Object {
    if live.None? then Object(Some(uid), desired) else live.value.(body := Updated(live.value.body, desired))
  }

  /** The object stands, is the broker's own, and needs no update. */
  predicate Settled(live: Option<Object>, desired: Body, uid: string) {
    live.Some? && live.value.owner == Some(uid) && UpToDate(live.value.body, desired)
  }

  /** The object stands and another controls it, or none. */
  predicate Foreign(live: Option<Object>, uid: string) {
    live.Some? && live.value.owner != Some(uid)
  }

  // ------------------------------------------------- what a write makes of an object

  /** The broker's own entries, and of the entries before all that it does not name. */
  ghost predicate Overlaid(before: Labels.Map, own: Labels.Map, after: Labels.Map) {
    forall k :: Labels.Look(after, k) == if k in own then Some(own[k]) else Labels.Look(before, k)
  }

  function LabelsBefore(live: Option<Object>): Labels.Map {
    if live.None? then map[] else match live.value.body
      case Contents(labels, _) => labels
      case Wire(labels, _, _) => labels
      case Workload(sts) => sts.labels
  }

  /** A Secret or ConfigMap has become exactly this data, under labels that keep those of
      other writers. */
  ghost predicate TurnedInto(before: Option<Object>, after: Option<Object>, own: Labels.Map, data: Data) {
    && after.Some? && after.value.body.Contents? && after.value.body.data == data
    && (before.None? || before.value.body.Contents? ==> Overlaid(LabelsBefore(before), own, after.value.body.labels))
  }

  /** The same for a Service. */
  ghost predicate Wired(before: Option<Object>, after: Option<Object>, own: Labels.Map, ports: string, selector: Labels.Map) {
    && after.Some? && after.value.body.Wire? && after.value.body.ports == ports && after.value.body.selector == selector
    && (before.None? || before.value.body.Wire? ==> Overlaid(LabelsBefore(before), own, after.value.body.labels))
  }

  lemma MadeOfData(live: Option<Object>, own: Labels.Map, data: Data, uid: string)
    ensures TurnedInto(live, Some(Made(live, Contents(own, data), uid)), own, data)
  {
  }

  lemma MadeOfWire(live: Option<Object>, own: Labels.Map, ports: string, selector: Labels.Map, uid: string)
    ensures Wired(live, Some(Made(live, Wire(own, ports, selector), uid)), own, ports, selector)
  {
  }

  /** All entries stand, an absent one reading as empty. */
  ghost predicate EntriesStand(own: Labels.Map, labels: Labels.Map) { forall k :: k in own ==> Get(labels, k) == own[k] }

  ghost predicate DataStands(live: Option<Object>, own: Labels.Map, data: Data, uid: string) {
    && live.Some? && live.value.owner == Some(uid)
    && live.value.body.Contents? && live.value.body.data == data && EntriesStand(own, live.value.body.labels)
  }

  ghost predicate WireStands(live: Option<Object>, own: Labels.Map, ports: string, selector: Labels.Map, uid: string) {
    && live.Some? && live.value.owner == Some(uid)
    && live.value.body.Wire? && live.value.body.ports == ports && live.value.body.selector == selector
    && EntriesStand(own, live.value.body.labels)
  }

  ghost predicate SetStands(live: Option<Object>, s: Spec, uid: string) {
    && live.Some? && live.value.owner == Some(uid) && live.value.body.Workload?
    && var sts := live.value.body.sts;
       && (sts.replicas.None? || sts.replicas == Some(s.replicas))
       && EntriesStand(BaseLabels(s), sts.labels)
       && EntriesStand(s.podLabels + BaseLabels(s), sts.podLabels)
       && EntriesStand(s.podAnnotations + OwnAnnotations(s), sts.podAnnotations)
  }

  /** Exactly when a Secret or ConfigMap needs no write. */
  lemma SettledData(live: Option<Object>, own: Labels.Map, data: Data, uid: string)
    ensures Settled(live, Contents(own, data), uid) <==> DataStands(live, own, data, uid)
  {
  }

  lemma SettledWire(live: Option<Object>, own: Labels.Map, ports: string, selector: Labels.Map, uid: string)
    ensures Settled(live, Wire(own, ports, selector), uid) <==> WireStands(live, own, ports, selector, uid)
  {
  }

  lemma SettledSet(live: Option<Object>, s: Spec, uid: string)
    ensures Settled(live, Workload(Desired(s)), uid) ==> SetStands(live, s, uid)
  {
    if Settled(live, Workload(Desired(s)), uid) { assert live.value.body.Workload?; }
  }

  // -------------------------------------------------------------------- statuses

  datatype Judgement = Unreadable(credential: Credential) | Judged(verdict: Verdict) | BrokerMissing | NotGranted

  datatype UserStatus = UserStatus(observed: int, username: string, judgement: Option<Judgement>)

  const NO_STATUS := UserStatus(0, "", None)

  predicate ReadyStatus(s: UserStatus) { s.judgement == Some(Judged(Admitted)) }

  datatype Phase = Unset | Pending | Progressing | Ready | Failing

  datatype Why =
    | AllReplicasReady(n: int, m: int)
    | ReplicasNotReady(n: int, m: int)
    | NoReplicasReady(m: int)
    | StatefulSetNotFound
    | ReconcileFailed
    | Turned(refusal: Refusal)

  datatype ReadyCondition = ReadyCondition(truth: bool, why: Why, observed: int)

  datatype UsersCondition = UsersCondition(truth: bool, accepted: int, observed: int)

  datatype BrokerStatus = BrokerStatus(phase: Phase, readyReplicas: int, observed: int, users: int,
                                       ready: Option<ReadyCondition>, accepts: Option<UsersCondition>)

  /** setPhase. */
  function SetPhase(s: BrokerStatus, b: Broker, phase: Phase, truth: bool, why: Why): BrokerStatus {
    s.(phase := phase, observed := b.generation, ready := Some(ReadyCondition(truth, why, b.generation)))
  }

  /** setUsersCondition. */
  function SetUsers(s: BrokerStatus, b: Broker, accepted: int): BrokerStatus {
    s.(users := accepted, accepts := Some(UsersCondition(accepted != 0, accepted, b.generation)))
  }

  /** The status a finished pass reports for ready pods of the StatefulSet. */
  function DoneStatus(s: BrokerStatus, b: Broker, accepted: int, ready: int): BrokerStatus {
    var s' := SetUsers(s, b, accepted).(readyReplicas := ready);
    if b.replicas > 0 && ready >= b.replicas then SetPhase(s', b, Ready, true, AllReplicasReady(ready, b.replicas))
    else if ready > 0 then SetPhase(s', b, Progressing, false, ReplicasNotReady(ready, b.replicas))
    else SetPhase(s', b, Pending, false, NoReplicasReady(b.replicas))
  }

  // ------------------------------------------------------------------- the world

  /** The part of the cluster a pass for the broker of this name reads and writes. users
      are the MosquittoUsers that name the broker, as the index lists them; secrets are
      all Secrets but the rendered one, which stands in the store; ready is what the
      StatefulSet reports. */
  datatype World = World(name: string, broker: Option<Broker>, status: BrokerStatus, users: seq<User>,
                         statuses: map<string, UserStatus>, secrets: map<string, Secret>, store: Store, ready: int)

  /** The rendered Secret as anyone reads it who may read its data. */
  function AsSecret(obj: Object): Secret {
    match obj.body
    case Contents(labels, data) => Secret(labels, data, None)
    case _ => Secret(map[], map[], None)
  }

  /** Any Secret of the namespace, the rendered one included. */
  function FindSecret(w: World, name: string): Option<Secret> {
    if name == AuthSecretName(w.name) then (if w.store.auth.Some? then Some(AsSecret(w.store.auth.value)) else None)
    else if name in w.secrets then Some(w.secrets[name])
    else None
  }

  /** The rendered Secret carries the label by which its owner consents to its use. */
  predicate Consents(auth: Option<Object>) { auth.Some? && Consumable(AsSecret(auth.value).labels) }

  function Lookup(statuses: map<string, UserStatus>, name: string): UserStatus {
    if name in statuses then statuses[name] else NO_STATUS
  }

  function StatusOf(w: World, name: string): UserStatus { Lookup(w.statuses, name) }

  ghost predicate DistinctUsers(users: seq<User>) {
    forall i, j :: 0 <= i < j < |users| ==> users[i].name != users[j].name
  }

  function CredentialIn(o: Options, w: World, u: User): Credential { CredentialFrom(o, u, FindSecret(w, u.secret)) }

  /** The data of the rendered Secret, if the broker controls it. */
  function AuthData(w: World, b: Broker): Data {
    if w.store.auth.Some? && w.store.auth.value.owner == Some(b.uid) && w.store.auth.value.body.Contents? then
      w.store.auth.value.body.data
    else map[]
  }

  /** A pass takes hashes and the exporter's password over from no Secret but the broker's
      own, and from that as they stand. */
  lemma OnlyOwnDataIsReused(w: World, b: Broker, key: string)
    ensures key in AuthData(w, b) <==>
              && w.store.auth.Some? && w.store.auth.value.owner == Some(b.uid)
              && w.store.auth.value.body.Contents? && key in w.store.auth.value.body.data
    ensures key in AuthData(w, b) ==> AuthData(w, b)[key] == w.store.auth.value.body.data[key]
  {
  }

  // -------------------------------------------------------------------- rendering

  const EXPORTER_KEY := "exporter-password"
  const EXPORTER_BYTES: nat := 32

  /** base64.RawURLEncoding. */
  function RawUrl(bs: Bytes): string { Unpadded(Encode(bs)) }

  function Unpadded(s: string): string {
    if s == "" || s[0] == '=' then ""
    else [if s[0] == '+' then '-' else if s[0] == '/' then '_' else s[0]] + Unpadded(s[1..])
  }

  /** exporterPassword: kept from the Secret, or generated. */
  function ExporterPassword(previous: Data, random: Bytes): Outcome<string> {
    if Get(previous, EXPORTER_KEY) != "" then Ok(Get(previous, EXPORTER_KEY), random)
    else if |random| < EXPORTER_BYTES then Failed(SaltUnreadable, [])
    else Ok(RawUrl(random[..EXPORTER_BYTES]), random[EXPORTER_BYTES..])
  }

  /** The inputs of the users whose credentials can be read, in list order. */
  function Inputs(o: Options, w: World, users: seq<User>): seq<Input> {
    if users == [] then []
    else
      var init, last := users[..|users| - 1], users[|users| - 1];
      match CredentialIn(o, w, last)
      case Found(input) => Inputs(o, w, init) + [input]
      case _ => Inputs(o, w, init)
  }

  function Usernames(o: Options, w: World, users: seq<User>): map<string, string> {
    if users == [] then map[]
    else
      var init, last := users[..|users| - 1], users[|users| - 1];
      match CredentialIn(o, w, last)
      case Found(input) => Usernames(o, w, init)[last.name := input.username]
      case _ => Usernames(o, w, init)
  }

  function Unreadables(o: Options, w: World, users: seq<User>): map<string, Judgement> {
    if users == [] then map[]
    else
      var init, last := users[..|users| - 1], users[|users| - 1];
      var credential := CredentialIn(o, w, last);
      if credential.Found? then Unreadables(o, w, init) else Unreadables(o, w, init)[last.name := Unreadable(credential)]
  }

  /** What one pass found out about the users of its broker. */
  datatype UserPass = UserPass(usernames: map<string, string>, judgements: map<string, Judgement>, accepted: nat, data: Data)

  function Reserved(b: Broker, password: string): seq<Principal> {
    if b.metrics then [ExporterPrincipal(password)] else []
  }

  function Password(b: Broker, previous: Data, random: Bytes): Outcome<string> {
    if b.metrics then ExporterPassword(previous, random) else Ok("", random)
  }

  function PassData(b: Broker, data: Data, password: string): Data {
    if b.metrics then data[EXPORTER_KEY := password] else data
  }

  function Judgements(o: Options, w: World, verdicts: map<string, Verdict>): map<string, Judgement> {
    Unreadables(o, w, w.users) + (map n | n in verdicts :: Judged(verdicts[n]))
  }

  /** renderUsers, when every read succeeds. */
  function Rendering(e: Env, o: Options, w: World, b: Broker, random: Bytes): Outcome<UserPass> {
    var previous := AuthData(w, b);
    match Password(b, previous, random)
    case Failed(error, rest) => Failed(error, rest)
    case Ok(password, rest) =>
      match Rendered(e, Inputs(o, w, w.users), Reserved(b, password), previous, rest)
      case Failed(error, rest') => Failed(error, rest')
      case Ok(r, rest') =>
        Ok(UserPass(Usernames(o, w, w.users), Judgements(o, w, r.verdicts), r.accepted, PassData(b, r.data, password)), rest')
  }

  function AuthBody(b: Broker, data: Data): Body { Contents(b.plan.labels, data) }

  lemma SettledHolds(live: Option<Object>, b: Broker, data: Data)
    requires Settled(live, AuthBody(b, data), b.uid)
    ensures live.value.owner == Some(b.uid) && live.value.body.Contents? && live.value.body.data == data
  {
  }

  function ConfigBody(b: Broker): Body { Contents(b.plan.labels, map[CONFIG_KEY := ConfigText(b)]) }

  function HeadlessBody(b: Broker): Body { Wire(b.plan.labels, b.plan.headlessPorts, b.plan.selector) }

  function ClientBody(b: Broker): Body { Wire(b.plan.labels, b.plan.clientPorts, b.plan.selector) }

  ghost function SetBody(s: Spec): Body { Workload(Desired(s)) }

  function StatusFor(u: User, p: UserPass): UserStatus {
    UserStatus(u.generation, if u.name in p.usernames then p.usernames[u.name] else "",
               if u.name in p.judgements then Some(p.judgements[u.name]) else None)
  }

  // ------------------------------------------------------- rendering is a fixpoint

  lemma {:induction false} InputsFrom(o: Options, w: World, users: seq<User>)
    ensures forall x :: x in Inputs(o, w, users) ==> exists u :: u in users && CredentialIn(o, w, u) == Found(x)
  {
    if users != [] {
      var init, last := users[..|users| - 1], users[|users| - 1];
      assert users == init + [last];
      assert last in users;
      InputsFrom(o, w, init);
      forall x | x in Inputs(o, w, users) ensures exists u :: u in users && CredentialIn(o, w, u) == Found(x) {
        if x in Inputs(o, w, init) {
          var u :| u in init && CredentialIn(o, w, u) == Found(x);
          assert u in users;
        } else {
          assert CredentialIn(o, w, last) == Found(x);
        }
      }
    }
  }

  lemma InputNamed(o: Options, w: World, u: User)
    ensures CredentialIn(o, w, u).Found? ==> CredentialIn(o, w, u).input.name == u.name
  {
  }

  lemma {:induction false} InputsDistinct(o: Options, w: World, users: seq<User>)
    requires DistinctUsers(users)
    ensures DistinctNames(Inputs(o, w, users))
  {
    if users != [] {
      var init, last := users[..|users| - 1], users[|users| - 1];
      InputsDistinct(o, w, init);
      InputsFrom(o, w, init);
      InputNamed(o, w, last);
      var xs := Inputs(o, w, init);
      forall i | 0 <= i < |xs| ensures xs[i].name != last.name {
        assert xs[i] in xs;
        var u :| u in init && CredentialIn(o, w, u) == Found(xs[i]);
        InputNamed(o, w, u);
        var k :| 0 <= k < |init| && init[k] == u;
        assert users[k].name != users[|users| - 1].name;
      }
    }
  }

  lemma ReservedOk(b: Broker, password: string)
    ensures PrincipalsOk(Reserved(b, password))
  {
  }

  lemma KeysApart()
    ensures EXPORTER_KEY != PASSWD_KEY && EXPORTER_KEY != ACL_KEY
  {
  }

  /** The renderer looks at nothing of the previous data but the passwd file. */
  lemma OnlyPasswdMatters(e: Env, inputs: seq<Input>, reserved: seq<Principal>, a: Data, b: Data, random: Bytes)
    requires Get(a, PASSWD_KEY) == Get(b, PASSWD_KEY)
    ensures Rendered(e, inputs, reserved, a, random) == Rendered(e, inputs, reserved, b, random)
  {
  }

  lemma UrlNotEmpty(bs: Bytes)
    requires bs != []
    ensures RawUrl(bs) != ""
  {
  }

  /** Two worlds that give a pass the same users with the same credentials. */
  ghost predicate SameCredentials(o: Options, w: World, w': World) {
    w'.users == w.users && forall u :: u in w.users ==> CredentialIn(o, w', u) == CredentialIn(o, w, u)
  }

  lemma {:induction false} CredentialsDecide(o: Options, w: World, w': World, users: seq<User>)
    requires forall u :: u in users ==> CredentialIn(o, w', u) == CredentialIn(o, w, u)
    ensures Inputs(o, w, users) == Inputs(o, w', users)
    ensures Usernames(o, w, users) == Usernames(o, w', users)
    ensures Unreadables(o, w, users) == Unreadables(o, w', users)
  {
    if users != [] { CredentialsDecide(o, w, w', users[..|users| - 1]); }
  }

  /** The exporter's password, once stored, is found again. */
  lemma PasswordIsStable(b: Broker, previous: Data, data: Data, random: Bytes, later: Bytes)
    requires Password(b, previous, random).Ok?
    ensures var pw := Password(b, previous, random).value;
            Password(b, PassData(b, data, pw), later) == Ok(pw, later)
  {
    if b.metrics && Get(previous, EXPORTER_KEY) == "" { UrlNotEmpty(random[..EXPORTER_BYTES]); }
  }

  /** What the renderer wrote, with the exporter's password beside it, renders to itself. */
  lemma RenderedIsStable(e: Env, b: Broker, inputs: seq<Input>, reserved: seq<Principal>, previous: Data,
                         password: string, random: Bytes, later: Bytes)
    requires e.Valid() && PrincipalsOk(reserved)
    requires Rendered(e, inputs, reserved, previous, random).Ok?
    ensures var first := Rendered(e, inputs, reserved, previous, random).value;
            Rendered(e, inputs, reserved, PassData(b, first.data, password), later) == Ok(first, later)
  {
    var first := Rendered(e, inputs, reserved, previous, random).value;
    RenderFixpoint(e, inputs, reserved, previous, random, later);
    KeysApart();
    OnlyPasswdMatters(e, inputs, reserved, PassData(b, first.data, password), first.data, later);
  }

  /** Once a rendering is stored under the broker's control, and the users' credentials
      are what they were, rendering again gives the same users and the same data, the
      exporter's password included, and needs no randomness. */
  lemma RenderingIsStable(e: Env, o: Options, w: World, w': World, b: Broker, random: Bytes, later: Bytes)
    requires e.Valid() && SameCredentials(o, w, w')
    requires Rendering(e, o, w, b, random).Ok?
    requires AuthData(w', b) == Rendering(e, o, w, b, random).value.data
    ensures Rendering(e, o, w', b, later) == Ok(Rendering(e, o, w, b, random).value, later)
  {
    var previous := AuthData(w, b);
    var pw := Password(b, previous, random);
    var inputs, reserved := Inputs(o, w, w.users), Reserved(b, pw.value);
    var first := Rendered(e, inputs, reserved, previous, pw.rest);
    CredentialsDecide(o, w, w', w.users);
    ReservedOk(b, pw.value);
    PasswordIsStable(b, previous, first.value.data, random, later);
    RenderedIsStable(e, b, inputs, reserved, previous, pw.value, pw.rest, later);
  }

  // ------------------------------------------- the rendered Secret as a credential

  /** The operator's own writes neither give nor take the consent label. */
  lemma ConsentStays(live: Option<Object>, b: Broker, data: Data, uid: string)
    ensures Consents(Some(Made(live, AuthBody(b, data), uid))) == Consents(live)
  {
  }

  /** What a pass may do to the sources of its users' credentials. */
  ghost predicate SourcesKept(w: World, w': World) {
    && w'.name == w.name && w'.users == w.users && w'.secrets == w.secrets
    && Consents(w'.store.auth) == Consents(w.store.auth)
    && (w.store.auth.Some? ==> w'.store.auth.Some?)
  }

  /** A pass that is not refused is not refused after it either, even if the TLS Secret
      is the rendered one. */
  lemma StaysUnrefused(o: Options, namespace: string, b: Broker, w: World, w': World)
    requires SourcesKept(w, w')
    requires Refuse(o, namespace, b, FindSecret(w, b.tls)) == None
    ensures Refuse(o, namespace, b, FindSecret(w', b.tls)) == None
  {
  }

  lemma {:induction false} UnreadableNoted(o: Options, w: World, users: seq<User>, u: User)
    requires DistinctUsers(users) && u in users && !CredentialIn(o, w, u).Found?
    ensures u.name in Unreadables(o, w, users)
    ensures Unreadables(o, w, users)[u.name] == Unreadable(CredentialIn(o, w, u))
  {
    var init, last := users[..|users| - 1], users[|users| - 1];
    if u != last {
      var i :| 0 <= i < |users| && users[i] == u;
      assert init[i] == u;
      UnreadableNoted(o, w, init, u);
      assert users[i].name != users[|users| - 1].name;
    }
  }

  lemma SameUser(users: seq<User>, u: User, v: User)
    requires DistinctUsers(users) && u in users && v in users && u.name == v.name
    ensures u == v
  {
    var i :| 0 <= i < |users| && users[i] == u;
    var j :| 0 <= j < |users| && users[j] == v;
    assert i == j;
  }

  lemma NotAnInput(o: Options, w: World, u: User)
    requires DistinctUsers(w.users) && u in w.users && !CredentialIn(o, w, u).Found?
    ensures forall x :: x in Inputs(o, w, w.users) ==> x.name != u.name
  {
    InputsFrom(o, w, w.users);
    forall x | x in Inputs(o, w, w.users) ensures x.name != u.name {
      var v :| v in w.users && CredentialIn(o, w, v) == Found(x);
      InputNamed(o, w, v);
      if v.name == u.name { SameUser(w.users, u, v); }
    }
  }

  lemma NotJudged(e: Env, inputs: seq<Input>, name: string)
    requires DistinctNames(inputs) && forall x :: x in inputs ==> x.name != name
    ensures name !in Verdicts(e, inputs, ByAge(e, inputs))
  {
    VerdictsSayWhy(e, inputs);
  }

  /** A user without readable credentials is told why. */
  lemma UnreadableJudged(e: Env, o: Options, w: World, b: Broker, random: Bytes, u: User)
    requires DistinctUsers(w.users) && u in w.users && !CredentialIn(o, w, u).Found?
    requires Rendering(e, o, w, b, random).Ok?
    ensures StatusFor(u, Rendering(e, o, w, b, random).value).judgement == Some(Unreadable(CredentialIn(o, w, u)))
  {
    UnreadableNoted(o, w, w.users, u);
    InputsDistinct(o, w, w.users);
    NotAnInput(o, w, u);
    NotJudged(e, Inputs(o, w, w.users), u.name);
  }

  // ------------------------------------------------------------ Ready means stored

  /** The user of this name has credentials, and the data holds a line for its
      username with a hash that verifies its password. */
  ghost predicate Backed(e: Env, o: Options, w: World, data: Data, name: string) {
    exists u, x, i :: u in w.users && u.name == name && CredentialIn(o, w, u) == Found(x) && LineFor(e, data, x, i)
  }

  ghost predicate LineFor(e: Env, data: Data, x: Input, i: int) {
    var lines := ReadPasswd(data);
    0 <= i < |lines| && lines[i].fst == x.username && e.Verifies(lines[i].snd, x.password)
  }

  /** Every user judged admitted is backed by the data. */
  ghost predicate Backs(e: Env, o: Options, w: World, p: UserPass) {
    forall n :: n in p.judgements && p.judgements[n] == Judged(Admitted) ==> Backed(e, o, w, p.data, n)
  }

  lemma {:induction false} UnreadablesAreNotReady(o: Options, w: World, users: seq<User>)
    ensures forall n :: n in Unreadables(o, w, users) ==> Unreadables(o, w, users)[n].Unreadable?
  {
    if users != [] { UnreadablesAreNotReady(o, w, users[..|users| - 1]); }
  }

  /** An admitted input has its line in what is rendered. */
  lemma OldestHasLine(e: Env, inputs: seq<Input>, reserved: seq<Principal>, previous: Data, random: Bytes, x: Input)
    requires e.Valid() && PrincipalsOk(reserved) && DistinctNames(inputs) && IsOldest(e, inputs, x)
    requires Rendered(e, inputs, reserved, previous, random).Ok?
    ensures var lines := ReadPasswd(Rendered(e, inputs, reserved, previous, random).value.data);
            exists i :: 0 <= i < |lines| && lines[i].fst == x.username && e.Verifies(lines[i].snd, x.password)
  {
    assert Entitled(e, inputs, reserved, x.username, x.password, x.acls);
    FilesNameAllTheEntitled(e, inputs, reserved, previous, random, x.username, x.password, x.acls);
  }

  /** The input behind an admitted judgement. */
  lemma AdmittedIsOldest(e: Env, o: Options, w: World, b: Broker, random: Bytes, name: string)
    returns (x: Input, u: User)
    requires DistinctUsers(w.users)
    requires Rendering(e, o, w, b, random).Ok?
    requires var js := Rendering(e, o, w, b, random).value.judgements; name in js && js[name] == Judged(Admitted)
    ensures IsOldest(e, Inputs(o, w, w.users), x) && x.name == name
    ensures u in w.users && CredentialIn(o, w, u) == Found(x) && u.name == name
  {
    var inputs := Inputs(o, w, w.users);
    var verdicts := Verdicts(e, inputs, ByAge(e, inputs));
    UnreadablesAreNotReady(o, w, w.users);
    assert name in verdicts && verdicts[name] == Admitted;
    InputsFrom(o, w, w.users);
    InputsDistinct(o, w, w.users);
    VerdictsSayWhy(e, inputs);
    x :| x in inputs && x.name == name;
    assert Truthful(e, inputs, x, Admitted);
    u :| u in w.users && CredentialIn(o, w, u) == Found(x);
    InputNamed(o, w, u);
  }

  /** A pass judges a user admitted only if what it renders holds the user's line. */
  lemma AdmittedIsRendered(e: Env, o: Options, w: World, b: Broker, random: Bytes, name: string)
    requires e.Valid() && DistinctUsers(w.users)
    requires Rendering(e, o, w, b, random).Ok?
    requires var js := Rendering(e, o, w, b, random).value.judgements; name in js && js[name] == Judged(Admitted)
    ensures Backed(e, o, w, Rendering(e, o, w, b, random).value.data, name)
  {
    var x, u := AdmittedIsOldest(e, o, w, b, random, name);
    var previous := AuthData(w, b);
    var pw := Password(b, previous, random);
    var inputs := Inputs(o, w, w.users);
    var reserved := Reserved(b, pw.value);
    InputsDistinct(o, w, w.users);
    ReservedOk(b, pw.value);
    OldestHasLine(e, inputs, reserved, previous, pw.rest, x);
    var data := Rendered(e, inputs, reserved, previous, pw.rest).value.data;
    KeysApart();
    var stored := PassData(b, data, pw.value);
    assert ReadPasswd(stored) == ReadPasswd(data);
    var lines := ReadPasswd(data);
    var i :| 0 <= i < |lines| && lines[i].fst == x.username && e.Verifies(lines[i].snd, x.password);
    assert LineFor(e, stored, x, i);
  }

  lemma RenderingBacks(e: Env, o: Options, w: World, b: Broker, random: Bytes)
    requires e.Valid() && DistinctUsers(w.users)
    requires Rendering(e, o, w, b, random).Ok?
    ensures Backs(e, o, w, Rendering(e, o, w, b, random).value)
  {
    var p := Rendering(e, o, w, b, random).value;
    forall n | n in p.judgements && p.judgements[n] == Judged(Admitted) ensures Backed(e, o, w, p.data, n) {
      AdmittedIsRendered(e, o, w, b, random, n);
    }
  }

  /** A verdict of the renderer is the judgement of the pass. */
  lemma VerdictIsJudgement(e: Env, o: Options, w: World, b: Broker, random: Bytes, name: string)
    requires Rendering(e, o, w, b, random).Ok?
    ensures var inputs := Inputs(o, w, w.users);
            var v := Verdicts(e, inputs, ByAge(e, inputs));
            name in v ==>
              var js := Rendering(e, o, w, b, random).value.judgements; name in js && js[name] == Judged(v[name])
  {
  }

  /** An oldest input comes from a user whose judgement is that it is admitted. */
  lemma OldestIsJudged(e: Env, o: Options, w: World, b: Broker, random: Bytes, x: Input) returns (u: User)
    requires DistinctUsers(w.users) && Rendering(e, o, w, b, random).Ok?
    requires IsOldest(e, Inputs(o, w, w.users), x)
    ensures u in w.users && CredentialIn(o, w, u) == Found(x)
    ensures StatusFor(u, Rendering(e, o, w, b, random).value).judgement == Some(Judged(Admitted))
  {
    InputsFrom(o, w, w.users);
    InputsDistinct(o, w, w.users);
    u :| u in w.users && CredentialIn(o, w, u) == Found(x);
    InputNamed(o, w, u);
    VerdictOne(e, Inputs(o, w, w.users), x);
    VerdictIsJudgement(e, o, w, b, random, x.name);
  }

  lemma {:induction false} InputIn(o: Options, w: World, users: seq<User>, u: User)
    requires u in users && CredentialIn(o, w, u).Found?
    ensures CredentialIn(o, w, u).input in Inputs(o, w, users)
  {
    var init, last := users[..|users| - 1], users[|users| - 1];
    if u != last {
      assert users == init + [last];
      InputIn(o, w, init, u);
    }
  }

  lemma {:induction false} UsernameNoted(o: Options, w: World, users: seq<User>, u: User)
    requires DistinctUsers(users) && u in users && CredentialIn(o, w, u).Found?
    ensures u.name in Usernames(o, w, users)
    ensures Usernames(o, w, users)[u.name] == CredentialIn(o, w, u).input.username
  {
    var init, last := users[..|users| - 1], users[|users| - 1];
    if u != last {
      var i :| 0 <= i < |users| && users[i] == u;
      assert init[i] == u;
      UsernameNoted(o, w, init, u);
      assert users[i].name != users[|users| - 1].name;
    }
  }

  // ---------------------------------------------------------- the exporter's password

  /** Once padding begins there is nothing else. */
  ghost predicate PadsLast(s: string) { forall i, j :: 0 <= i <= j < |s| && s[i] == '=' ==> s[j] == '=' }

  lemma PadsAfter(head: string, tail: string)
    requires '=' !in head && PadsLast(tail)
    ensures PadsLast(head + tail)
  {
    forall i, j | 0 <= i <= j < |head + tail| && (head + tail)[i] == '=' ensures (head + tail)[j] == '=' {
      assert i >= |head|;
      assert tail[i - |head|] == '=' && tail[j - |head|] == '=';
    }
  }

  lemma {:induction false} EncodePadsLast(bs: Bytes)
    ensures |Encode(bs)| == (|bs| + 2) / 3 * 4 && PadsLast(Encode(bs))
  {
    if |bs| >= 3 {
      EncodePadsLast(bs[3..]);
      var quantum := Encode(bs)[..4];
      assert '=' !in quantum by {
        ValueDigit(bs[0] / 4);
        ValueDigit(bs[0] % 4 * 16 + bs[1] / 16);
        ValueDigit(bs[1] % 16 * 4 + bs[2] / 64);
        ValueDigit(bs[2] % 64);
      }
      PadsAfter(quantum, Encode(bs[3..]));
      assert Encode(bs) == quantum + Encode(bs[3..]);
    }
  }

  lemma PadsLastOn(s: string)
    requires s != "" && PadsLast(s)
    ensures PadsLast(s[1..])
  {
    forall i, j | 0 <= i <= j < |s| - 1 && s[1..][i] == '=' ensures s[1..][j] == '=' {
      assert s[i + 1] == '=' && s[j + 1] == '=';
    }
  }

  ghost predicate PlainBase64(s: string) { '-' !in s && '_' !in s && PadsLast(s) }

  lemma UnpaddedHead(s: string)
    requires s != "" && s[0] != '=' && PlainBase64(s)
    ensures Unpadded(s) != "" && Unpadded(s)[1..] == Unpadded(s[1..]) && PlainBase64(s[1..])
    ensures s[0] == (if Unpadded(s)[0] == '-' then '+' else if Unpadded(s)[0] == '_' then '/' else Unpadded(s)[0])
  {
    PadsLastOn(s);
    assert s[0] in s && forall c :: c in s[1..] ==> c in s;
  }

  lemma {:induction false} UnpaddedTells(a: string, b: string)
    requires |a| == |b| && PlainBase64(a) && PlainBase64(b)
    requires Unpadded(a) == Unpadded(b)
    ensures a == b
  {
    if a != "" && a[0] != '=' {
      UnpaddedHead(a);
      assert b[0] != '=';
      UnpaddedHead(b);
      UnpaddedTells(a[1..], b[1..]);
      assert a == [a[0]] + a[1..] && b == [b[0]] + b[1..];
    } else if a != "" {
      assert b[0] == '=';
      assert forall j :: 0 <= j < |a| ==> a[j] == b[j];
    }
  }

  lemma UrlTellsBytes(bs: Bytes, cs: Bytes)
    requires |bs| == |cs| && RawUrl(bs) == RawUrl(cs)
    ensures bs == cs
  {
    EncodeAlphabet(bs);
    EncodeAlphabet(cs);
    EncodePadsLast(bs);
    EncodePadsLast(cs);
    UnpaddedTells(Encode(bs), Encode(cs));
    RoundTrip(bs);
    RoundTrip(cs);
  }

  /** A password that is generated for the exporter tells all of the 32 random bytes it was
      made from, and leaves the rest of the source. */
  lemma PasswordTellsRandom(previous: Data, a: Bytes, b: Bytes)
    requires Get(previous, "exporter-password") == "" && |a| >= 32 && |b| >= 32
    ensures var p, q := ExporterPassword(previous, a), ExporterPassword(previous, b);
            && p.Ok? && p.rest == a[32..] && p.value != ""
            && (p.value == q.value ==> a[..32] == b[..32])
  {
    UrlNotEmpty(a[..32]);
    if RawUrl(a[..32]) == RawUrl(b[..32]) { UrlTellsBytes(a[..32], b[..32]); }
  }
}
