/** What a pass leaves standing: which objects it may change and into what, and what the
    objects and the users' statuses say once it is through. */
module Standing {
  import opened Text
  import opened Base64
  import opened PasswordHash
  import opened Credentials
  import opened Files
  import opened Renderer
  import opened RendererTheorems
  import opened StatefulSets
  import opened Cluster
  import opened PassModel
  import BrokerConfig

  // ------------------------------------------------------------- step by step

  /** One object before and after: the same, or the broker's own where none of another
      stood. */
  predicate OwnStep(before: Option<Object>, after: Option<Object>, uid: string) {
    before == after || (after.Some? && after.value.owner == Some(uid) && !Foreign(before, uid))
  }

  /** The rendered Secret is as it was, or a Secret of the broker's with its labels. */
  ghost predicate AuthStep(before: Option<Object>, after: Option<Object>, b: Broker) {
    && OwnStep(before, after, b.uid)
    && (before == after || exists data :: TurnedInto(before, after, b.plan.labels, data))
  }

  /** The ConfigMap is as it was, or holds the generated configuration and nothing else. */
  ghost predicate ConfigStep(before: Option<Object>, after: Option<Object>, b: Broker) {
    && OwnStep(before, after, b.uid)
    && (before == after || TurnedInto(before, after, b.plan.labels, map[CONFIG_KEY := ConfigText(b)]))
  }

  /** A Service is as it was, or has the ports and the selector of the broker. */
  ghost predicate ServiceStep(before: Option<Object>, after: Option<Object>, b: Broker, ports: string) {
    && OwnStep(before, after, b.uid)
    && (before == after || Wired(before, after, b.plan.labels, ports, b.plan.selector))
  }

  ghost predicate ServiceSteps(before: Store, after: Store, b: Broker) {
    ServiceStep(before.headless, after.headless, b, b.plan.headlessPorts) &&
    ServiceStep(before.client, after.client, b, b.plan.clientPorts)
  }

  /** Objects of others are as they were, nothing is deleted, and what changed is the
      broker's own, with the contents it has to have and the labels of other writers
      kept. */
  ghost predicate OnlyOwn(before: Store, after: Store, b: Broker) {
    && AuthStep(before.auth, after.auth, b)
    && ConfigStep(before.config, after.config, b)
    && ServiceSteps(before, after, b)
    && OwnStep(before.set_, after.set_, b.uid)
  }

  lemma AuthStepped(before: Option<Object>, after: Option<Object>, b: Broker, data: Data)
    requires OwnStep(before, after, b.uid)
    requires after == before || after == Some(Made(before, AuthBody(b, data), b.uid))
    ensures AuthStep(before, after, b)
  {
    MadeOfData(before, b.plan.labels, data, b.uid);
  }

  lemma ConfigStepped(before: Option<Object>, after: Option<Object>, b: Broker)
    requires OwnStep(before, after, b.uid)
    requires after == before || after == Some(Made(before, ConfigBody(b), b.uid))
    ensures ConfigStep(before, after, b)
  {
    MadeOfData(before, b.plan.labels, map[CONFIG_KEY := ConfigText(b)], b.uid);
  }

  lemma ServiceStepped(before: Option<Object>, after: Option<Object>, b: Broker, ports: string)
    requires OwnStep(before, after, b.uid)
    requires after == before || after == Some(Made(before, Wire(b.plan.labels, ports, b.plan.selector), b.uid))
    ensures ServiceStep(before, after, b, ports)
  {
    MadeOfWire(before, b.plan.labels, ports, b.plan.selector, b.uid);
  }

  /** The ConfigMap of a broker whose spec.config is accepted is closed once a pass has
      changed it. */
  ghost predicate ConfigClosed(live: Option<Object>, b: Broker) {
    && live.Some? && live.value.owner == Some(b.uid) && live.value.body.Contents?
    && live.value.body.data.Keys == {CONFIG_KEY}
    && BrokerConfig.Closed(live.value.body.data[CONFIG_KEY], b.tls != "")
  }

  lemma ChangedConfigIsClosed(before: Option<Object>, after: Option<Object>, b: Broker)
    requires BrokerConfig.ValidateSpecConfig(b.config) == None
    requires ConfigStep(before, after, b) && after != before
    ensures ConfigClosed(after, b)
  {
    ConfigTextIsClosed(b);
  }

  lemma SettledConfigIsClosed(live: Option<Object>, b: Broker)
    requires BrokerConfig.ValidateSpecConfig(b.config) == None
    requires Settled(live, ConfigBody(b), b.uid)
    ensures ConfigClosed(live, b)
  {
    SettledData(live, b.plan.labels, map[CONFIG_KEY := ConfigText(b)], b.uid);
    ConfigTextIsClosed(b);
  }

  // ------------------------------------------------------------------ at the end

  predicate ServicesSettled(store: Store, b: Broker) {
    Settled(store.headless, HeadlessBody(b), b.uid) && Settled(store.client, ClientBody(b), b.uid)
  }

  ghost predicate SetSettled(store: Store, b: Broker) {
    b.plan.sts.Some? && Settled(store.set_, SetBody(b.plan.sts.value), b.uid)
  }

  /** The objects after the rendered Secret need no write. */
  ghost predicate RestSettled(store: Store, b: Broker) {
    Settled(store.config, ConfigBody(b), b.uid) && ServicesSettled(store, b) && SetSettled(store, b)
  }

  ghost predicate AllSettled(w: World, b: Broker, data: Data) {
    Settled(w.store.auth, AuthBody(b, data), b.uid) && RestSettled(w.store, b)
  }

  predicate NoneForeign(store: Store, uid: string) {
    && !Foreign(store.auth, uid) && !Foreign(store.config, uid) && !Foreign(store.headless, uid)
    && !Foreign(store.client, uid) && !Foreign(store.set_, uid)
  }

  ghost predicate UsersReported(w: World, p: UserPass) {
    forall u :: u in w.users ==> StatusOf(w, u.name) == StatusFor(u, p)
  }

  /** Every user of the broker has been told the same, for its present generation. */
  ghost predicate AllReported(w: World, j: Judgement) {
    forall u :: u in w.users ==> StatusOf(w, u.name).observed == u.generation && StatusOf(w, u.name).judgement == Some(j)
  }

  /** The rendered Secret stands and its users' statuses say so. */
  ghost predicate UsersSettled(w: World, b: Broker, p: UserPass) {
    Settled(w.store.auth, AuthBody(b, p.data), b.uid) && UsersReported(w, p)
  }

  /** All that a pass that began in w wants stands in w', its status aside. */
  ghost predicate Stands(e: Env, o: Options, w: World, w': World, b: Broker, random: Bytes) {
    && Rendering(e, o, w, b, random).Ok?
    && UsersSettled(w', b, Rendering(e, o, w, b, random).value) && RestSettled(w'.store, b)
  }

  // ---------------------------------------------------------- what that comes to

  /** The five objects, by what is in them. */
  ghost predicate Delivered(store: Store, b: Broker, data: Data) {
    && DataStands(store.auth, b.plan.labels, data, b.uid)
    && DataStands(store.config, b.plan.labels, map[CONFIG_KEY := ConfigText(b)], b.uid)
    && WireStands(store.headless, b.plan.labels, b.plan.headlessPorts, b.plan.selector, b.uid)
    && WireStands(store.client, b.plan.labels, b.plan.clientPorts, b.plan.selector, b.uid)
    && b.plan.sts.Some? && SetStands(store.set_, b.plan.sts.value, b.uid)
  }

  lemma SettledIsDelivered(w: World, b: Broker, p: UserPass)
    requires UsersSettled(w, b, p) && RestSettled(w.store, b)
    ensures Delivered(w.store, b, p.data)
  {
    SettledData(w.store.auth, b.plan.labels, p.data, b.uid);
    SettledData(w.store.config, b.plan.labels, map[CONFIG_KEY := ConfigText(b)], b.uid);
    SettledWire(w.store.headless, b.plan.labels, b.plan.headlessPorts, b.plan.selector, b.uid);
    SettledWire(w.store.client, b.plan.labels, b.plan.clientPorts, b.plan.selector, b.uid);
    SettledSet(w.store.set_, b.plan.sts.value, b.uid);
  }

  /** What a user is told about the credentials that the pass found in w: the username they
      gave and a verdict that is true, or why there are none. */
  ghost predicate ToldTruly(e: Env, o: Options, w: World, u: User, s: UserStatus) {
    && s.observed == u.generation
    && match CredentialIn(o, w, u)
       case Found(x) =>
         s.username == x.username && exists v :: s.judgement == Some(Judged(v)) && Truthful(e, Inputs(o, w, w.users), x, v)
       case refusal => s.username == "" && s.judgement == Some(Unreadable(refusal))
  }

  ghost predicate AllToldTruly(e: Env, o: Options, w: World, w': World) {
    forall u :: u in w.users ==> ToldTruly(e, o, w, u, StatusOf(w', u.name))
  }

  lemma {:induction false} NoUsernameNoted(o: Options, w: World, users: seq<User>, u: User)
    requires DistinctUsers(users) && u in users && !CredentialIn(o, w, u).Found?
    ensures u.name !in Usernames(o, w, users)
  {
    var init, last := users[..|users| - 1], users[|users| - 1];
    if u != last {
      var i :| 0 <= i < |users| && users[i] == u;
      assert init[i] == u;
      NoUsernameNoted(o, w, init, u);
      assert users[i].name != users[|users| - 1].name;
    } else {
      UsernamesOf(o, w, init);
    }
  }

  lemma {:induction false} UsernamesOf(o: Options, w: World, users: seq<User>)
    ensures forall n :: n in Usernames(o, w, users) ==> exists i :: 0 <= i < |users| && users[i].name == n
  {
    if users != [] {
      var init := users[..|users| - 1];
      UsernamesOf(o, w, init);
      forall n | n in Usernames(o, w, users) ensures exists i :: 0 <= i < |users| && users[i].name == n {
        if n in Usernames(o, w, init) {
          var i :| 0 <= i < |init| && init[i].name == n;
          assert users[i].name == n;
        } else {
          assert users[|users| - 1].name == n;
        }
      }
    }
  }

  /** A status of the rendering tells the truth. */
  lemma RenderedStatusIsTrue(e: Env, o: Options, w: World, b: Broker, random: Bytes, u: User)
    requires DistinctUsers(w.users) && u in w.users && Rendering(e, o, w, b, random).Ok?
    ensures ToldTruly(e, o, w, u, StatusFor(u, Rendering(e, o, w, b, random).value))
  {
    if CredentialIn(o, w, u).Found? {
      var x := CredentialIn(o, w, u).input;
      var inputs := Inputs(o, w, w.users);
      InputIn(o, w, w.users, u);
      InputNamed(o, w, u);
      InputsDistinct(o, w, w.users);
      UsernameNoted(o, w, w.users, u);
      VerdictsSayWhy(e, inputs);
      VerdictIsJudgement(e, o, w, b, random, x.name);
      var v := Verdicts(e, inputs, ByAge(e, inputs))[x.name];
      assert Truthful(e, inputs, x, v);
    } else {
      NoUsernameNoted(o, w, w.users, u);
      UnreadableJudged(e, o, w, b, random, u);
    }
  }

  /** The names of the users that are Ready. */
  ghost function ReadyNames(w: World): set<string> { set u | u in w.users && ReadyStatus(StatusOf(w, u.name)) :: u.name }

  lemma {:induction false} NamesCount(inputs: seq<Input>, xs: set<Input>)
    requires DistinctNames(inputs) && forall x :: x in xs ==> x in inputs
    ensures |set x | x in xs :: x.name| == |xs|
    decreases |xs|
  {
    if xs != {} {
      var x :| x in xs;
      var rest := xs - {x};
      NamesCount(inputs, rest);
      forall y | y in rest ensures y.name != x.name {
        if y.name == x.name { SameNameSameInput(inputs, x, y); }
      }
      assert (set y | y in xs :: y.name) == (set y | y in rest :: y.name) + {x.name};
    }
  }

  /** The number of accepted users is the number of those the pass reports Ready. */
  lemma AcceptedAreReady(e: Env, o: Options, w: World, w': World, b: Broker, random: Bytes)
    requires DistinctUsers(w.users) && w'.users == w.users && Rendering(e, o, w, b, random).Ok?
    requires UsersReported(w', Rendering(e, o, w, b, random).value)
    ensures Rendering(e, o, w, b, random).value.accepted == |ReadyNames(w')|
  {
    var p := Rendering(e, o, w, b, random).value;
    var inputs := Inputs(o, w, w.users);
    var pw := Password(b, AuthData(w, b), random);
    var r := Rendered(e, inputs, Reserved(b, pw.value), AuthData(w, b), pw.rest).value;
    InputsDistinct(o, w, w.users);
    AcceptedCounts(e, inputs, Reserved(b, pw.value), AuthData(w, b), pw.rest);
    var admitted := set x | x in inputs && r.verdicts[x.name] == Admitted;
    NamesCount(inputs, admitted);
    AdmittedNames(e, o, w, w', b, random, admitted);
  }

  lemma AdmittedNames(e: Env, o: Options, w: World, w': World, b: Broker, random: Bytes, admitted: set<Input>)
    requires DistinctUsers(w.users) && w'.users == w.users && Rendering(e, o, w, b, random).Ok?
    requires UsersReported(w', Rendering(e, o, w, b, random).value)
    requires var inputs := Inputs(o, w, w.users);
             var v := Verdicts(e, inputs, ByAge(e, inputs));
             forall x :: x in admitted <==> x in inputs && x.name in v && v[x.name] == Admitted
    ensures (set x | x in admitted :: x.name) == ReadyNames(w')
  {
    var p := Rendering(e, o, w, b, random).value;
    var inputs := Inputs(o, w, w.users);
    InputsDistinct(o, w, w.users);
    forall x | x in admitted ensures x.name in ReadyNames(w') {
      VerdictOne(e, inputs, x);
      var u := OldestIsJudged(e, o, w, b, random, x);
      InputNamed(o, w, u);
      assert StatusOf(w', u.name) == StatusFor(u, p);
    }
    forall u | u in w.users && ReadyStatus(StatusOf(w', u.name)) ensures exists x :: x in admitted && x.name == u.name {
      assert StatusOf(w', u.name) == StatusFor(u, p);
      var x, v := AdmittedIsOldest(e, o, w, b, random, u.name);
      VerdictOne(e, inputs, x);
    }
  }

  /** When all that a pass wants stands, the five objects hold what they have to, every user
      has been told the truth about the credentials the pass found, and those accepted are
      those reported Ready. */
  lemma StandingMeans(e: Env, o: Options, w: World, w': World, b: Broker, random: Bytes)
    requires DistinctUsers(w.users) && w'.users == w.users && Stands(e, o, w, w', b, random)
    ensures Delivered(w'.store, b, Rendering(e, o, w, b, random).value.data)
    ensures AllToldTruly(e, o, w, w')
    ensures Rendering(e, o, w, b, random).value.accepted == |ReadyNames(w')|
  {
    var p := Rendering(e, o, w, b, random).value;
    SettledIsDelivered(w', b, p);
    AcceptedAreReady(e, o, w, w', b, random);
    forall u | u in w.users ensures ToldTruly(e, o, w, u, StatusOf(w', u.name)) {
      RenderedStatusIsTrue(e, o, w, b, random, u);
      assert StatusOf(w', u.name) == StatusFor(u, p);
    }
  }
}
