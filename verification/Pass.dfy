/** The reconcile pass: a fixed sequence of API calls, any of which may fail, also
    after it took effect. The contracts say what a pass leaves behind whatever fails,
    and when it leaves everything alone. */
module Pass {
  import opened Text
  import opened Base64
  import opened PasswordHash
  import opened Credentials
  import opened Files
  import opened Renderer
  import opened StatefulSets
  import opened Cluster
  import opened PassModel
  import opened Standing
  import opened Statuses
  import opened Rereading
  import opened Writes
  import BrokerConfig

  /** The first n users have the status wanted for them. */
  ghost predicate Reported(statuses: map<string, UserStatus>, users: seq<User>, wants: seq<UserStatus>, n: nat)
    requires |wants| == |users| && n <= |users|
  {
    forall i :: 0 <= i < n ==> Lookup(statuses, users[i].name) == wants[i]
  }

  lemma ReportedMore(statuses: map<string, UserStatus>, users: seq<User>, wants: seq<UserStatus>, n: nat)
    requires |wants| == |users| && n < |users| && DistinctUsers(users)
    requires Reported(statuses, users, wants, n)
    ensures Reported(statuses[users[n].name := wants[n]], users, wants, n + 1)
  {
  }

  function ReportFor(w: World, u: User, j: Judgement): UserStatus {
    UserStatus(u.generation, StatusOf(w, u.name).username, Some(j))
  }

  /** What the broker needs to be written for is there. */
  ghost predicate PermittedIn(o: Options, namespace: string, w: World, b: Broker) {
    Permitted(o, namespace, b, FindSecret(w, b.tls))
  }

  ghost predicate MissingIn(o: Options, namespace: string, w: World, b: Broker, refusal: Refusal) {
    Missing(o, namespace, b, FindSecret(w, b.tls), refusal)
  }

  lemma RefusalExactly(o: Options, namespace: string, w: World, b: Broker)
    ensures RefusalIn(o, namespace, w, b) == None <==> PermittedIn(o, namespace, w, b)
    ensures forall r :: RefusalIn(o, namespace, w, b) == Some(r) <==> MissingIn(o, namespace, w, b, r)
  {
    RefuseExactly(o, namespace, b, FindSecret(w, b.tls));
  }

  function RefusalIn(o: Options, namespace: string, w: World, b: Broker): Option<Refusal> {
    Refuse(o, namespace, b, FindSecret(w, b.tls))
  }

  // ------------------------------------------------------ states left in peace

  /** Everything a pass would write is already there. */
  ghost predicate IdleFor(e: Env, o: Options, namespace: string, w: World, b: Broker, p: UserPass) {
    && w.broker == Some(b) && !b.deleting
    && RefusalIn(o, namespace, w, b) == None
    && (forall random: Bytes :: Rendering(e, o, w, b, random) == Ok(p, random))
    && AllSettled(w, b, p.data)
    && UsersReported(w, p)
    && w.status == DoneStatus(w.status, b, p.accepted, w.ready)
  }

  ghost predicate Idle(e: Env, o: Options, namespace: string, w: World) {
    w.broker.Some? && exists p :: IdleFor(e, o, namespace, w, w.broker.value, p)
  }

  /** A refused broker whose refusal is reported. */
  ghost predicate IdleRefused(o: Options, namespace: string, w: World) {
    && w.broker.Some? && !w.broker.value.deleting
    && RefusalIn(o, namespace, w, w.broker.value).Some?
    && var refusal := RefusalIn(o, namespace, w, w.broker.value).value;
       && w.status == SetPhase(w.status, w.broker.value, Failing, false, Why.Turned(refusal))
       && (refusal.NamespaceNotGranted? ==> AllReported(w, NotGranted))
  }

  /** Statuses do not bear on a refusal. */
  lemma RefusalUnmoved(o: Options, namespace: string, w: World, w': World, b: Broker)
    requires w' == w.(status := w'.status, statuses := w'.statuses)
    ensures RefusalIn(o, namespace, w', b) == RefusalIn(o, namespace, w, b)
  {
  }

  /** A refusal that is in the status, and in the users' if it is theirs, is reported. */
  lemma RefusalReported(o: Options, namespace: string, w: World, w': World, b: Broker, refusal: Refusal)
    requires w' == w.(status := w'.status) && w.broker == Some(b) && !b.deleting
    requires RefusalIn(o, namespace, w, b) == Some(refusal)
    requires w'.status == SetPhase(w.status, b, Failing, false, Why.Turned(refusal))
    requires refusal.NamespaceNotGranted? ==> AllReported(w, NotGranted)
    ensures IdleRefused(o, namespace, w') && MissingIn(o, namespace, w', b, refusal)
  {
    RefusalUnmoved(o, namespace, w, w', b);
    RefusalExactly(o, namespace, w', b);
    if refusal.NamespaceNotGranted? {
      forall u | u in w.users ensures StatusOf(w', u.name) == ReportFor(w', u, NotGranted) {
        assert StatusOf(w, u.name) == ReportFor(w, u, NotGranted);
      }
    }
  }

  /** What a pass needs from its world to finish. */
  ghost predicate Workable(e: Env, o: Options, namespace: string, w: World, random: Bytes) {
    && w.broker.Some? && !w.broker.value.deleting
    && RefusalIn(o, namespace, w, w.broker.value) == None
    && Rendering(e, o, w, w.broker.value, random).Ok?
    && w.broker.value.plan.sts.Some?
    && NoneForeign(w.store, w.broker.value.uid)
  }

  datatype PassEnd = Gone | BeingDeleted | Turned(refusal: Refusal) | Broken | Waiting | Done

  /** What the status of the broker says when a pass has ended like this. */
  ghost predicate SaysHow(end: PassEnd, faulted: bool, s: BrokerStatus, b: Broker, ready: int, users: int, stands: bool) {
    && (end == Done ==> stands && SaysDone(s, b, ready, users))
    && (end == Waiting ==> stands && SaysWaiting(s, b, users))
    && (end.Turned? ==> SaysFailed(s, b, Why.Turned(end.refusal)))
    && (end == Broken && !faulted ==> SaysFailed(s, b, ReconcileFailed))
  }

  /** A pass that finished leaves an idle world, if it has not changed its users'
      credentials itself. */
  lemma DoneIsIdle(e: Env, o: Options, namespace: string, w: World, w': World, b: Broker, random: Bytes, p: UserPass)
    requires e.Valid()
    requires w'.broker == Some(b) && !b.deleting && RefusalIn(o, namespace, w', b) == None
    requires SameCredentials(o, w, w') && Rendering(e, o, w, b, random).Ok? && Rendering(e, o, w, b, random).value == p
    requires AllSettled(w', b, p.data) && UsersReported(w', p)
    requires w'.status == DoneStatus(w'.status, b, p.accepted, w'.ready)
    ensures Idle(e, o, namespace, w')
  {
    RendersTheSame(e, o, w, w', b, random, p);
    assert IdleFor(e, o, namespace, w', b, p);
  }

  lemma RendersTheSame(e: Env, o: Options, w: World, w': World, b: Broker, random: Bytes, p: UserPass)
    requires e.Valid() && SameCredentials(o, w, w') && Rendering(e, o, w, b, random).Ok?
    requires Rendering(e, o, w, b, random).value == p && Settled(w'.store.auth, AuthBody(b, p.data), b.uid)
    ensures forall later: Bytes :: Rendering(e, o, w', b, later) == Ok(p, later)
  {
    SettledHolds(w'.store.auth, b, p.data);
    forall later: Bytes ensures Rendering(e, o, w', b, later) == Ok(p, later) {
      RenderingIsStable(e, o, w, w', b, random, later);
    }
  }

  /** Once every user has the status wanted for it, all are reported, and stay so: a
      report repeats the username that is already there. */
  lemma AllToldSo(w: World, w': World, j: Judgement, wants: seq<UserStatus>)
    requires w'.users == w.users && |wants| == |w.users|
    requires forall i :: 0 <= i < |wants| ==> wants[i] == ReportFor(w, w.users[i], j)
    requires Reported(w'.statuses, w.users, wants, |wants|)
    ensures AllReported(w', j)
  {
    forall u | u in w.users ensures StatusOf(w', u.name) == ReportFor(w', u, j) {
      var i :| 0 <= i < |w.users| && w.users[i] == u;
      assert Lookup(w'.statuses, w.users[i].name) == wants[i];
    }
  }

  class Operator {
    const e: Env
    const derive: Derive
    const o: Options
    const namespace: string
    const random: Random
    var w: World
    /** Every write sent so far. */
    ghost var log: seq<Write>
    /** Whether a call of the pass has failed, or a read was stale. */
    ghost var faulted: bool

    constructor (utf8: string -> bool, derive: Derive, o: Options, namespace: string, random: Random, w: World)
      requires ExactLength(derive)
      ensures e == HashEnv(utf8, derive) && this.derive == derive && Hashes()
      ensures this.o == o && this.namespace == namespace && this.random == random
      ensures this.w == w && log == [] && !faulted
    {
      e, this.derive := HashEnv(utf8, derive), derive;
      this.o, this.namespace, this.random, this.w := o, namespace, random, w;
      log, faulted := [], false;
      HashEnvValid(utf8, derive);
    }

    /** Passwords are hashed by hash.go. */
    ghost predicate Hashes() { e.Valid() && e.KeepsVerified() && e.Computes(derive) }

    // ------------------------------------------------------------- the API server

    /** An API call: it may fail. */
    method Call() returns (fails: bool)
      modifies this`faulted
      ensures faulted == (old(faulted) || fails)
    {
      fails := *;
      faulted := faulted || fails;
    }

    /** A write: it may fail, and take effect all the same. */
    method Send(x: Write) returns (failed: bool)
      requires x.took
      modifies this`w, this`log, this`faulted
      ensures faulted == (old(faulted) || failed)
      ensures exists took :: log == old(log) + [x.(took := took)] && w == Effect(old(w), x.(took := took)) && (!failed ==> took)
      ensures Reached(old(w), old(log), w, log)
    {
      ReachedNow(w, log);
      failed := Call();
      var applied: bool := *;
      var took := applied || !failed;
      ReachedBy(old(w), old(log), w, log, x.(took := took));
      log := log + [x.(took := took)];
      w := Effect(w, x.(took := took));
    }

    /** Create or Update of a managed object. */
    method PutObject(slot: Slot, obj: Object) returns (failed: bool)
      modifies this`w, this`log, this`faulted
      ensures faulted == (old(faulted) || failed)
      ensures Went(old(w), old(log), w, log, SlotRank(slot), SlotRank(slot))
      ensures w == old(w) || w == old(w).(store := With(old(w).store, slot, obj))
      ensures !failed ==> w == old(w).(store := With(old(w).store, slot, obj))
    {
      failed := Send(WroteSlot(slot, obj, true));
    }

    /** Status().Update of a user. */
    method PutUserStatus(name: string, status: UserStatus) returns (failed: bool)
      modifies this`w, this`log, this`faulted
      ensures faulted == (old(faulted) || failed)
      ensures Reached(old(w), old(log), w, log)
      ensures exists took :: log == old(log) + [WroteUser(name, status, took)]
      ensures w == old(w) || w == old(w).(statuses := old(w).statuses[name := status])
      ensures !failed ==> w == old(w).(statuses := old(w).statuses[name := status])
    {
      failed := Send(WroteUser(name, status, true));
    }

    /** persistStatus. */
    method PersistStatus(status: BrokerStatus) returns (failed: bool)
      modifies this`w, this`log, this`faulted
      ensures old(faulted) ==> faulted
      ensures failed ==> faulted
      ensures w == old(w).(status := w.status)
      ensures !failed ==> w.status == status
      ensures w.status == old(w).status || w.status == status
      ensures log == old(log) || exists took :: log == old(log) + [WroteStatus(status, took)]
      ensures Went(old(w), old(log), w, log, 6, 6)
      ensures old(w).status == status ==> log == old(log) && w == old(w)
    {
      ReachedNow(w, log);
      failed := Call();
      if failed || w.status == status {
        return failed;
      }
      failed := Send(WroteStatus(status, true));
    }

    // ----------------------------------------------------------- the users' statuses

    /** persistUserStatus for every user of the broker. */
    method WriteStatuses(wants: seq<UserStatus>) returns (failed: bool)
      requires DistinctUsers(w.users) && |wants| == |w.users|
      modifies this`w, this`log, this`faulted
      ensures old(faulted) ==> faulted
      ensures failed ==> faulted
      ensures w == old(w).(statuses := w.statuses)
      ensures !failed ==> Reported(w.statuses, w.users, wants, |wants|)
      ensures Reached(old(w), old(log), w, log) && WritesOf(w.users, wants, old(log), log)
      ensures Reported(old(w).statuses, w.users, wants, |wants|) ==> log == old(log) && w == old(w)
    {
      ghost var quiet := Reported(w.statuses, w.users, wants, |wants|);
      ReachedNow(w, log);
      for i := 0 to |w.users|
        invariant w == old(w).(statuses := w.statuses)
        invariant old(faulted) ==> faulted
        invariant Reported(w.statuses, w.users, wants, i)
        invariant Reached(old(w), old(log), w, log) && WritesOf(w.users, wants, old(log), log)
        invariant quiet ==> log == old(log) && w == old(w)
      {
        var name := w.users[i].name;
        if StatusOf(w, name) != wants[i] {
          ReportedMore(w.statuses, w.users, wants, i);
          ghost var w1, log1 := w, log;
          failed := PutUserStatus(name, wants[i]);
          ghost var took :| log == log1 + [WroteUser(name, wants[i], took)];
          WritesOfMore(w.users, wants, old(log), log1, i, took);
          ReachedTrans(old(w), old(log), w1, log1, w, log);
          if failed {
            return true;
          }
        }
      }
      failed := false;
    }

    /** reportUsers. */
    method ReportUsers(j: Judgement) returns (failed: bool)
      requires DistinctUsers(w.users) && j != Judged(Admitted)
      modifies this`w, this`log, this`faulted
      ensures old(faulted) ==> faulted
      ensures failed ==> faulted
      ensures w == old(w).(statuses := w.statuses)
      ensures !failed ==> AllReported(w, j)
      ensures !failed ==> forall u :: u in w.users ==> StatusOf(w, u.name).username == StatusOf(old(w), u.name).username
      ensures Went(old(w), old(log), w, log, 1, 1) && NoneReady(old(log), log)
      ensures AllReported(old(w), j) ==> log == old(log) && w == old(w)
    {
      WentNowhere(w, log, 1, 1);
      failed := Call();
      if failed {
        return true;
      }
      var wants := seq(|w.users|, i requires 0 <= i < |w.users| reads this => ReportFor(w, w.users[i], j));
      failed := WriteStatuses(wants);
      WritesOfAdd(w.users, wants, old(log), log);
      if !failed { AllToldSo(old(w), w, j, wants); }
    }

    // ------------------------------------------------------------- managed objects

    /** The pattern of reconcileAuthSecret, reconcileConfigMap, reconcileService and
        reconcileStatefulSet: create, leave alone, or update; never touch what another
        object controls. */
    method ReconcileObject(slot: Slot, desired: Body, uid: string) returns (failed: bool)
      modifies this`w, this`log, this`faulted
      ensures old(faulted) ==> faulted
      ensures w == old(w) || w == old(w).(store := With(old(w).store, slot, Made(In(old(w).store, slot), desired, uid)))
      ensures OwnStep(In(old(w).store, slot), In(w.store, slot), uid)
      ensures !failed ==> Settled(In(w.store, slot), desired, uid)
      ensures Went(old(w), old(log), w, log, SlotRank(slot), SlotRank(slot))
      ensures Settled(In(old(w).store, slot), desired, uid) ==> log == old(log) && w == old(w)
      ensures Foreign(In(old(w).store, slot), uid) ==> failed && log == old(log) && w == old(w)
      ensures failed && !faulted ==> Foreign(In(old(w).store, slot), uid)
    {
      WentNowhere(w, log, SlotRank(slot), SlotRank(slot));
      failed := Call();
      if failed {
        return true;
      }
      var live := In(w.store, slot);
      if live.Some? && live.value.owner != Some(uid) {
        return true;
      }
      if live.Some? && UpToDate(live.value.body, desired) {
        return false;
      }
      UpdateSettles(if live.Some? then live.value.body else desired, desired);
      if live.None? {
        failed := PutObject(slot, Object(Some(uid), desired));
      } else {
        failed := PutObject(slot, live.value.(body := Updated(live.value.body, desired)));
      }
    }

    // -------------------------------------------------------- reading the users

    /** readCredentials: the metadata, and only with consent the data. */
    method ReadCredentials(u: User) returns (r: Option<Credential>)
      modifies this`faulted
      ensures old(faulted) ==> faulted
      ensures r.Some? ==> r.value == CredentialIn(o, w, u)
      ensures r.None? ==> faulted
    {
      var failed := Call();
      if failed {
        return None;
      }
      var secret := FindSecret(w, u.secret);
      if secret.None? {
        return Some(SecretNotFound);
      }
      if o.secretSecurity && !Consumable(secret.value.labels) {
        return Some(SecretNotConsumable);
      }
      failed := Call();
      if failed {
        return None;
      }
      var data := secret.value.data;
      if UsernameKey(u) !in data {
        return Some(KeyNotFound(UsernameKey(u)));
      }
      if PasswordKey(u) !in data {
        return Some(KeyNotFound(PasswordKey(u)));
      }
      r := Some(Found(Input(u.name, u.created, data[UsernameKey(u)], data[PasswordKey(u)], u.acls)));
    }

    /** The loop of renderUsers. */
    method GatherInputs() returns (ok: bool, inputs: seq<Input>, usernames: map<string, string>, unreadable: map<string, Judgement>)
      modifies this`faulted
      ensures old(faulted) ==> faulted
      ensures !ok ==> faulted
      ensures ok ==> inputs == Inputs(o, w, w.users) && usernames == Usernames(o, w, w.users) &&
                     unreadable == Unreadables(o, w, w.users)
    {
      inputs, usernames, unreadable := [], map[], map[];
      var failed := Call();
      if failed {
        return false, inputs, usernames, unreadable;
      }
      for i := 0 to |w.users|
        invariant old(faulted) ==> faulted
        invariant inputs == Inputs(o, w, w.users[..i])
        invariant usernames == Usernames(o, w, w.users[..i])
        invariant unreadable == Unreadables(o, w, w.users[..i])
      {
        var u := w.users[i];
        assert w.users[..i + 1][..i] == w.users[..i];
        var r := ReadCredentials(u);
        if r.None? {
          return false, inputs, usernames, unreadable;
        }
        if r.value.Found? {
          usernames := usernames[u.name := r.value.input.username];
          inputs := inputs + [r.value.input];
        } else {
          unreadable := unreadable[u.name := Unreadable(r.value)];
        }
      }
      assert w.users[..|w.users|] == w.users;
      ok := true;
    }

    /** exporterPassword, for a broker with metrics. */
    method KeepOrMakePassword(b: Broker, previous: Data) returns (r: Outcome<string>)
      modifies random
      ensures r == Password(b, previous, old(random.stream)) && r.rest == random.stream
    {
      if !b.metrics {
        return Ok("", random.stream);
      }
      var kept := Get(previous, EXPORTER_KEY);
      if kept != "" {
        return Ok(kept, random.stream);
      }
      var raw := random.ReadFull(EXPORTER_BYTES);
      match raw {
        case None => r := Failed(SaltUnreadable, random.stream);
        case Some(bytes) => r := Ok(RawUrl(bytes), random.stream);
      }
    }

    /** renderUsers. */
    method RenderUsers(b: Broker) returns (p: Option<UserPass>)
      requires Hashes() && DistinctUsers(w.users)
      modifies this`faulted, random
      ensures old(faulted) ==> faulted
      ensures p.Some? ==> Rendering(e, o, w, b, old(random.stream)) == Ok(p.value, random.stream)
      ensures p.None? && !faulted ==> Rendering(e, o, w, b, old(random.stream)).Failed?
      ensures p.Some? ==> Backs(e, o, w, p.value)
    {
      var ok, inputs, usernames, unreadable := GatherInputs();
      if !ok {
        return None;
      }
      var failed := Call();
      if failed {
        return None;
      }
      var previous := AuthData(w, b);
      var password := KeepOrMakePassword(b, previous);
      if password.Failed? {
        return None;
      }
      InputsDistinct(o, w, w.users);
      ReservedOk(b, password.value);
      var rendered, _ := Render(e, derive, inputs, Reserved(b, password.value), previous, random);
      if rendered.Failed? {
        return None;
      }
      var r := rendered.value;
      p := Some(UserPass(usernames, unreadable + (map n | n in r.verdicts :: Judged(r.verdicts[n])), r.accepted,
                         PassData(b, r.data, password.value)));
      RenderingBacks(e, o, w, b, old(random.stream));
    }

    // ----------------------------------------------------------- the pass's parts

    /** refuseTLSSecret. */
    method RefuseTlsSecret(b: Broker) returns (refusal: Option<Refusal>, failed: bool)
      modifies this`faulted
      ensures old(faulted) ==> faulted
      ensures failed ==> faulted
      ensures !failed ==> refusal == RefuseTls(o, b, FindSecret(w, b.tls))
    {
      if !o.secretSecurity || b.tls == "" {
        return None, false;
      }
      failed := Call();
      if failed {
        return None, true;
      }
      var secret := FindSecret(w, b.tls);
      if secret.None? {
        return Some(TlsSecretNotFound), false;
      }
      if !Consumable(secret.value.labels) {
        return Some(TlsSecretNotConsumable), false;
      }
      refusal := None;
    }

    /** refusePass: nothing but users' statuses is written. */
    method RefusePass(b: Broker) returns (refusal: Option<Refusal>, failed: bool)
      requires DistinctUsers(w.users)
      modifies this`w, this`log, this`faulted
      ensures old(faulted) ==> faulted
      ensures failed ==> faulted
      ensures w == old(w).(statuses := w.statuses)
      ensures !failed ==> refusal == RefusalIn(o, namespace, w, b)
      ensures !failed && refusal == Some(NamespaceNotGranted) ==> AllReported(w, NotGranted)
      ensures Went(old(w), old(log), w, log, 1, 1) && NoneReady(old(log), log)
      ensures RefusalIn(o, namespace, old(w), b) == None ==> log == old(log) && w == old(w)
      ensures IdleRefused(o, namespace, old(w)) && old(w).broker == Some(b) ==> log == old(log) && w == old(w)
    {
      WentNowhere(w, log, 1, 1);
      if !NamespaceGranted(o, namespace) {
        failed := ReportUsers(NotGranted);
        return Some(NamespaceNotGranted), failed;
      }
      match BrokerConfig.ValidateSpecConfig(b.config) {
        case Some(line) => return Some(ConfigRefused(line)), false;
        case None =>
          refusal, failed := RefuseTlsSecret(b);
      }
    }

    /** reconcileService, for the headless and then the client Service. */
    method ReconcileServices(b: Broker) returns (failed: bool)
      modifies this`w, this`log, this`faulted
      ensures old(faulted) ==> faulted
      ensures w == old(w).(store := old(w).store.(headless := w.store.headless, client := w.store.client))
      ensures ServiceSteps(old(w).store, w.store, b)
      ensures Went(old(w), old(log), w, log, 3, 4)
      ensures !failed ==> ServicesSettled(w.store, b)
      ensures ServicesSettled(old(w).store, b) ==> log == old(log) && w == old(w)
      ensures failed && !faulted ==> Foreign(old(w).store.headless, b.uid) || Foreign(old(w).store.client, b.uid)
    {
      failed := ReconcileObject(HeadlessService, HeadlessBody(b), b.uid);
      WentWider(old(w), old(log), w, log, 3, 3, 3, 4);
      ServiceStepped(old(w).store.headless, w.store.headless, b, b.plan.headlessPorts);
      if failed {
        return true;
      }
      ghost var w1, log1 := w, log;
      failed := ReconcileObject(ClientService, ClientBody(b), b.uid);
      ServiceStepped(old(w).store.client, w.store.client, b, b.plan.clientPorts);
      WentTrans(old(w), old(log), w1, log1, w, log, 3, 3, 4);
    }

    /** reconcileStatefulSet; building it comes first and may fail. */
    method ReconcileStatefulSet(b: Broker) returns (failed: bool)
      modifies this`w, this`log, this`faulted
      ensures old(faulted) ==> faulted
      ensures w == old(w).(store := old(w).store.(set_ := w.store.set_))
      ensures OwnStep(old(w).store.set_, w.store.set_, b.uid)
      ensures Went(old(w), old(log), w, log, 5, 5)
      ensures !failed ==> SetSettled(w.store, b)
      ensures SetSettled(old(w).store, b) ==> log == old(log) && w == old(w)
      ensures failed && !faulted ==> b.plan.sts.None? || Foreign(old(w).store.set_, b.uid)
    {
      WentNowhere(w, log, 5, 5);
      if b.plan.sts.None? {
        return true;
      }
      var desired := new StatefulSet.Build(b.plan.sts.value);
      failed := ReconcileObject(BrokerSet, Workload(desired.View()), b.uid);
    }

    /** The objects after the rendered Secret: ConfigMap, the two Services, and last the
        StatefulSet. */
    method ReconcileRest(b: Broker) returns (failed: bool)
      modifies this`w, this`log, this`faulted
      ensures old(faulted) ==> faulted
      ensures w == old(w).(store := w.store)
      ensures OnlyOwn(old(w).store, w.store, b) && w.store.auth == old(w).store.auth
      ensures Went(old(w), old(log), w, log, 2, 5)
      ensures !failed ==> RestSettled(w.store, b)
      ensures RestSettled(old(w).store, b) ==> log == old(log) && w == old(w)
      ensures !faulted && b.plan.sts.Some? && NoneForeign(old(w).store, b.uid) ==> !failed
    {
      failed := ReconcileObject(ConfigMap, ConfigBody(b), b.uid);
      WentWider(old(w), old(log), w, log, 2, 2, 2, 5);
      ConfigStepped(old(w).store.config, w.store.config, b);
      if failed {
        return true;
      }
      ghost var w1, log1 := w, log;
      failed := ReconcileServices(b);
      WentTrans(old(w), old(log), w1, log1, w, log, 2, 3, 4);
      WentWider(old(w), old(log), w, log, 2, 4, 2, 5);
      if failed {
        return true;
      }
      ghost var w2, log2 := w, log;
      failed := ReconcileStatefulSet(b);
      WentTrans(old(w), old(log), w2, log2, w, log, 2, 4, 5);
    }

    /** writeUserStatuses, once what they say is stored; read is the world in which the
        pass read the credentials. */
    method WriteVerdicts(b: Broker, p: UserPass, ghost read: World) returns (failed: bool)
      requires DistinctUsers(w.users) && Backs(e, o, read, p)
      modifies this`w, this`log, this`faulted
      ensures old(faulted) ==> faulted
      ensures failed ==> faulted
      ensures w == old(w).(statuses := w.statuses)
      ensures Went(old(w), old(log), w, log, 1, 1) && ReadyBacked(e, o, read, p.data, old(log), log)
      ensures !failed ==> UsersReported(w, p)
      ensures UsersReported(old(w), p) ==> log == old(log) && w == old(w)
    {
      var wants := seq(|w.users|, i requires 0 <= i < |w.users| reads this => StatusFor(w.users[i], p));
      failed := WriteStatuses(wants);
      WritesOfAdd(w.users, wants, old(log), log);
      StatusesBacked(e, o, read, p, w.users, wants, old(log), log);
      if !failed {
        forall u | u in w.users ensures StatusOf(w, u.name) == StatusFor(u, p) {
          var i :| 0 <= i < |w.users| && w.users[i] == u;
          assert Lookup(w.statuses, w.users[i].name) == wants[i];
        }
      }
    }

    /** reconcileAuthSecret. */
    method ReconcileAuthSecret(b: Broker, data: Data) returns (failed: bool)
      modifies this`w, this`log, this`faulted
      ensures old(faulted) ==> faulted
      ensures w == old(w).(store := old(w).store.(auth := w.store.auth))
      ensures AuthStep(old(w).store.auth, w.store.auth, b) && SourcesKept(old(w), w)
      ensures Went(old(w), old(log), w, log, 0, 0)
      ensures !failed ==> Settled(w.store.auth, AuthBody(b, data), b.uid)
      ensures Settled(old(w).store.auth, AuthBody(b, data), b.uid) ==> log == old(log) && w == old(w)
      ensures failed && !faulted ==> Foreign(old(w).store.auth, b.uid)
    {
      ConsentStays(w.store.auth, b, data, b.uid);
      failed := ReconcileObject(AuthSecret, AuthBody(b, data), b.uid);
      AuthStepped(old(w).store.auth, w.store.auth, b, data);
    }

    /** The rendered Secret, and then the statuses of its users. */
    method ReconcileUsers(b: Broker, p: UserPass) returns (failed: bool)
      requires DistinctUsers(w.users) && Backs(e, o, w, p)
      modifies this`w, this`log, this`faulted
      ensures old(faulted) ==> faulted
      ensures w == old(w).(statuses := w.statuses, store := old(w).store.(auth := w.store.auth))
      ensures AuthStep(old(w).store.auth, w.store.auth, b) && SourcesKept(old(w), w)
      ensures Went(old(w), old(log), w, log, 0, 1) && ReadyBacked(e, o, old(w), AuthData(w, b), old(log), log)
      ensures !failed ==> UsersSettled(w, b, p)
      ensures UsersSettled(old(w), b, p) ==> log == old(log) && w == old(w)
      ensures failed && !faulted ==> Foreign(old(w).store.auth, b.uid)
    {
      failed := ReconcileAuthSecret(b, p.data);
      WentWider(old(w), old(log), w, log, 0, 0, 0, 1);
      ghost var w1, log1 := w, log;
      if failed {
        NothingNewReady(e, o, old(w), AuthData(w, b), old(log), log);
        return true;
      }
      failed := WriteVerdicts(b, p, old(w));
      WentTrans(old(w), old(log), w1, log1, w, log, 0, 0, 1);
      assert AuthData(w, b) == p.data;
      ReadyBackedAfter(e, o, old(w), p.data, old(log), log1, log);
    }

    /** reconcileResources, from the rendering on. */
    method ReconcileResources(b: Broker, p: UserPass) returns (failed: bool)
      requires DistinctUsers(w.users) && Backs(e, o, w, p)
      modifies this`w, this`log, this`faulted
      ensures old(faulted) ==> faulted
      ensures w == old(w).(statuses := w.statuses, store := w.store)
      ensures OnlyOwn(old(w).store, w.store, b) && SourcesKept(old(w), w)
      ensures Went(old(w), old(log), w, log, 0, 5) && ReadyBacked(e, o, old(w), AuthData(w, b), old(log), log)
      ensures !failed ==> UsersSettled(w, b, p) && RestSettled(w.store, b)
      ensures UsersSettled(old(w), b, p) && RestSettled(old(w).store, b) ==> log == old(log) && w == old(w)
      ensures failed && !faulted ==> b.plan.sts.None? || !NoneForeign(old(w).store, b.uid)
    {
      failed := ReconcileUsers(b, p);
      WentWider(old(w), old(log), w, log, 0, 1, 0, 5);
      if failed {
        return true;
      }
      ghost var w1, log1 := w, log;
      failed := ReconcileRest(b);
      WentTrans(old(w), old(log), w1, log1, w, log, 0, 1, 5);
      ReadyBackedOn(e, o, old(w), AuthData(w, b), old(log), log1, log, 2, 5);
    }

    /** updateStatus. A cached read may not know a StatefulSet just created. */
    method UpdateStatus(b: Broker, accepted: int) returns (end: PassEnd)
      modifies this`w, this`log, this`faulted
      ensures old(faulted) ==> faulted
      ensures end == Broken || end == Waiting ==> faulted
      ensures end == Broken || end == Waiting || end == Done
      ensures w == old(w).(status := w.status)
      ensures Went(old(w), old(log), w, log, 6, 6)
      ensures end == Done ==> w.status == DoneStatus(w.status, b, accepted, w.ready)
      ensures end == Waiting ==> SaysWaiting(w.status, b, accepted)
      ensures TellsOnly(old(log), old(w).status, log, w.status, b, w.ready, accepted, true)
      ensures !faulted && old(w).status == DoneStatus(old(w).status, b, accepted, old(w).ready) ==>
                log == old(log) && w == old(w)
      requires w.store.set_.Some?
    {
      WentNowhere(w, log, 6, 6);
      TellsNothing(log, log, w.status, b, w.ready, accepted, true);
      var failed := Call();
      if failed {
        return Broken;
      }
      var stale := Call();
      if stale {
        var waiting := SetPhase(SetUsers(w.status, b, accepted).(readyReplicas := 0), b, Pending, false, StatefulSetNotFound);
        WaitingSays(w.status, b, accepted);
        failed := PersistStatus(waiting);
        TellsOne(old(log), old(w).status, log, w.status, waiting, b, w.ready, accepted, true);
        return if failed then Broken else Waiting;
      }
      var status := DoneStatus(w.status, b, accepted, w.ready);
      DoneSays(w.status, b, accepted, w.ready);
      failed := PersistStatus(status);
      TellsOne(old(log), old(w).status, log, w.status, status, b, w.ready, accepted, true);
      return if failed then Broken else Done;
    }

    /** The refusal of a pass, or None if it may go on. */
    method TurnAway(b: Broker) returns (end: Option<PassEnd>)
      requires DistinctUsers(w.users) && w.broker == Some(b) && !b.deleting
      modifies this`w, this`log, this`faulted
      ensures old(faulted) ==> faulted
      ensures w == old(w).(status := w.status, statuses := w.statuses)
      ensures Went(old(w), old(log), w, log, 1, 6) && NoneReady(old(log), log)
      ensures end.None? ==> RefusalIn(o, namespace, w, b) == None && log == old(log) && w == old(w)
      ensures end.Some? ==> end.value.Turned? || end.value == Broken
      ensures end.Some? && end.value.Turned? ==> IdleRefused(o, namespace, w)
      ensures end.Some? && end.value.Turned? ==>
                SaysFailed(w.status, b, Why.Turned(end.value.refusal)) && MissingIn(o, namespace, w, b, end.value.refusal)
      ensures end == Some(Broken) ==> faulted
      ensures RefusalIn(o, namespace, old(w), b).Some? && !faulted ==> end.Some? && end.value.Turned?
      ensures TellsOnly(old(log), old(w).status, log, w.status, b, w.ready, 0, false)
      ensures IdleRefused(o, namespace, old(w)) && !faulted ==>
                end.Some? && end.value.Turned? && log == old(log) && w == old(w)
      ensures RefusalIn(o, namespace, old(w), b) == None && !faulted ==> end.None?
    {
      var refusal, failed := RefusePass(b);
      ghost var w1, log1 := w, log;
      TellsNothing(old(log), log, w.status, b, w.ready, 0, false);
      if !failed && refusal.None? {
        return None;
      }
      var status := if failed then SetPhase(w.status, b, Failing, false, ReconcileFailed)
                    else SetPhase(w.status, b, Failing, false, Why.Turned(refusal.value));
      assert SaysFailed(status, b, status.ready.value.why);
      var unsaved := PersistStatus(status);
      FailureTold(old(log), log1, w1.status, log, w.status, status, b, w.ready);
      WentTrans(old(w), old(log), w1, log1, w, log, 1, 1, 6);
      NoneReadyOn(old(log), log1, log);
      RefusalUnmoved(o, namespace, old(w), w1, b);
      if !failed && !unsaved { RefusalReported(o, namespace, w1, w, b, refusal.value); }
      end := Some(if failed || unsaved then Broken else PassEnd.Turned(refusal.value));
    }

    /** The status at the end of a pass: of the failure, or of what the pods report. */
    method EndPass(b: Broker, failed: bool, accepted: int) returns (end: PassEnd)
      requires !failed ==> w.store.set_.Some?
      modifies this`w, this`log, this`faulted
      ensures old(faulted) ==> faulted
      ensures end == Broken || end == Waiting || end == Done
      ensures end == Done ==> !failed && w.status == DoneStatus(w.status, b, accepted, w.ready)
      ensures end == Waiting ==> !failed && SaysWaiting(w.status, b, accepted)
      ensures end == Broken && !faulted ==> SaysFailed(w.status, b, ReconcileFailed)
      ensures TellsOnly(old(log), old(w).status, log, w.status, b, w.ready, accepted, !failed)
      ensures w == old(w).(status := w.status)
      ensures Went(old(w), old(log), w, log, 6, 6)
      ensures !failed && !faulted ==> end == Done
      ensures !failed && !faulted && old(w).status == DoneStatus(old(w).status, b, accepted, old(w).ready) ==>
                log == old(log) && w == old(w)
    {
      if failed {
        var status := SetPhase(w.status, b, Failing, false, ReconcileFailed);
        FailedSays(w.status, b, ReconcileFailed);
        var _ := PersistStatus(status);
        TellsOne(old(log), old(w).status, log, w.status, status, b, w.ready, accepted, false);
        end := Broken;
      } else {
        end := UpdateStatus(b, accepted);
      }
    }

    /** The objects and the status of a broker that is not refused, from what was
        rendered for it, if that succeeded. */
    method Work(b: Broker, p: Option<UserPass>) returns (end: PassEnd)
      requires DistinctUsers(w.users) && (p.Some? ==> Backs(e, o, w, p.value))
      modifies this`w, this`log, this`faulted
      ensures old(faulted) ==> faulted
      ensures end == Broken || end == Waiting || end == Done
      ensures w == old(w).(status := w.status, statuses := w.statuses, store := w.store)
      ensures OnlyOwn(old(w).store, w.store, b) && SourcesKept(old(w), w)
      ensures Went(old(w), old(log), w, log, 0, 6) && ReadyBacked(e, o, old(w), AuthData(w, b), old(log), log)
      ensures end == Done ==> p.Some? && AtRest(w, b, p.value)
      ensures end == Waiting ==> AllThere(w, b, p) && SaysWaiting(w.status, b, AcceptedBy(p))
      ensures end == Broken && !faulted ==> SaysFailed(w.status, b, ReconcileFailed)
      ensures TellsOnly(old(log), old(w).status, log, w.status, b, w.ready, AcceptedBy(p), AllThere(w, b, p))
      ensures p.Some? && !faulted ==> end == Done || b.plan.sts.None? || !NoneForeign(old(w).store, b.uid)
      ensures p.Some? && !faulted && AtRest(old(w), b, p.value) ==> end == Done && log == old(log) && w == old(w)
    {
      var failed := true;
      WentNowhere(w, log, 0, 5);
      if p.Some? {
        AtRestWorks(w, b, p.value);
        failed := ReconcileResources(b, p.value);
      }
      ghost var w1, log1 := w, log;
      end := EndPass(b, failed, if p.Some? then p.value.accepted else 0);
      AllThereStays(w1, w, b, p);
      TellsLast(old(log), log1, w1.status, log, w.status, b, w.ready, AcceptedBy(p), !failed, AcceptedBy(p), AllThere(w, b, p));
      WentTrans(old(w), old(log), w1, log1, w, log, 0, 5, 6);
      ReadyBackedOn(e, o, old(w), AuthData(w, b), old(log), log1, log, 6, 6);
    }

    /** What a broker gets that is not refused: its users rendered, then all the rest. */
    method RenderAndWork(b: Broker) returns (end: PassEnd)
      requires Hashes() && DistinctUsers(w.users) && w.broker == Some(b)
      requires RefusalIn(o, namespace, w, b) == None
      modifies this`w, this`log, this`faulted, random
      ensures old(faulted) ==> faulted
      ensures end == Broken || end == Waiting || end == Done
      ensures w == old(w).(status := w.status, statuses := w.statuses, store := w.store)
      ensures OnlyOwn(old(w).store, w.store, b) && SourcesKept(old(w), w)
      ensures Went(old(w), old(log), w, log, 0, 6) && ReadyBacked(e, o, old(w), AuthData(w, b), old(log), log)
      ensures Idle(e, o, namespace, old(w)) && !faulted ==> end == Done && log == old(log) && w == old(w)
      ensures Workable(e, o, namespace, old(w), old(random.stream)) && !faulted ==> end == Done
      ensures StatusTold(e, o, old(w), old(log), w, log, b, old(random.stream), end, faulted)
    {
      var p := RenderUsers(b);
      if !faulted { IdleRests(e, o, namespace, w, b, old(random.stream), p); }
      end := Work(b, p);
      WorkTold(e, o, old(w), old(log), w, log, b, old(random.stream), p, end, faulted);
    }

    /** Reconcile for a broker that exists and is not going away. */
    method ReconcileBroker(b: Broker) returns (end: PassEnd)
      requires Hashes() && DistinctUsers(w.users) && w.broker == Some(b) && !b.deleting
      modifies this`w, this`log, this`faulted, random
      ensures old(faulted) ==> faulted
      ensures end.Turned? || end == Broken || end == Waiting || end == Done
      ensures w == old(w).(status := w.status, statuses := w.statuses, store := w.store)
      ensures OnlyOwn(old(w).store, w.store, b) && SourcesKept(old(w), w)
      ensures w.store != old(w).store || end == Done ==> PermittedIn(o, namespace, old(w), b)
      ensures !PermittedIn(o, namespace, old(w), b) && !faulted ==> end.Turned?
      ensures end.Turned? ==> MissingIn(o, namespace, w, b, end.refusal)
      ensures StatusTold(e, o, old(w), old(log), w, log, b, old(random.stream), end, faulted)
      ensures Went(old(w), old(log), w, log, 0, 6) && ReadyBacked(e, o, old(w), AuthData(w, b), old(log), log)
      ensures Idle(e, o, namespace, old(w)) && !faulted ==> end == Done && log == old(log) && w == old(w)
      ensures Workable(e, o, namespace, old(w), old(random.stream)) && !faulted ==> end == Done
      ensures end.Turned? ==> IdleRefused(o, namespace, w)
      ensures IdleRefused(o, namespace, old(w)) && !faulted ==> end.Turned? && log == old(log) && w == old(w)
    {
      RefusalExactly(o, namespace, w, b);
      var turned := TurnAway(b);
      if turned.Some? {
        TurnedTold(e, o, old(w), old(log), w, log, b, old(random.stream), turned.value, faulted);
        NoneReadyBacked(e, o, old(w), AuthData(w, b), old(log), log);
        WentWider(old(w), old(log), w, log, 1, 6, 0, 6);
        return turned.value;
      }
      end := RenderAndWork(b);
    }

    /** reportUsersOfMissingBroker. */
    method ReconcileMissing() returns (end: PassEnd)
      requires DistinctUsers(w.users)
      modifies this`w, this`log, this`faulted
      ensures w == old(w).(statuses := w.statuses)
      ensures Went(old(w), old(log), w, log, 0, 6) && Adds(old(log), log, 0, 1)
      ensures NobodyNewReady(old(w), w) && NoneReady(old(log), log)
      ensures end == Gone || end == Broken
      ensures end == Gone ==> AllReported(w, BrokerMissing)
      ensures AllReported(old(w), BrokerMissing) ==> log == old(log) && w == old(w)
    {
      var failed := ReportUsers(BrokerMissing);
      WentWider(old(w), old(log), w, log, 1, 1, 0, 6);
      NoneReadyStands(old(w), old(log), w, log);
      end := if failed then Broken else Gone;
    }

    /** Reconcile. Whatever fails: the cluster becomes what the logged writes make of it,
        in their order; only the broker's own objects change, and none for a refused,
        missing or disappearing broker; a user is newly Ready only when the stored Secret
        holds its line, with a hash that verifies the password just read. A pass that
        finishes leaves a world in which the next one writes nothing exactly when every
        user's credentials still hold; and where nobody reads the Secret the pass writes,
        exactly when those who name it were told before what they are told after. */
    method Reconcile() returns (end: PassEnd)
      requires Hashes() && DistinctUsers(w.users)
      modifies this`w, this`log, this`faulted, random
      ensures w == old(w).(status := w.status, statuses := w.statuses, store := w.store)
      ensures Went(old(w), old(log), w, log, 0, 6)
      ensures w.broker.Some? ==> OnlyOwn(old(w).store, w.store, w.broker.value)
      ensures w.store != old(w).store ==>
                w.broker.Some? && !w.broker.value.deleting && PermittedIn(o, namespace, old(w), w.broker.value)
      ensures w.broker.Some? && w.store.config != old(w).store.config ==> ConfigClosed(w.store.config, w.broker.value)
      ensures w.broker.Some? && !w.broker.value.deleting && !PermittedIn(o, namespace, old(w), w.broker.value) && !faulted ==>
                end.Turned?
      ensures end.Turned? ==> w.broker.Some? && MissingIn(o, namespace, w, w.broker.value, end.refusal)
      ensures w.broker.Some? ==>
                StatusTold(e, o, old(w), old(log), w, log, w.broker.value, old(random.stream), end, faulted)
      ensures w.broker.None? ==> w.status == old(w).status && Adds(old(log), log, 0, 1)
      ensures w.broker.Some? ==> ReadyStands(e, o, old(w), w, AuthData(w, w.broker.value))
      ensures w.broker.Some? ==> ReadyBacked(e, o, old(w), AuthData(w, w.broker.value), old(log), log)
      ensures w.broker.None? ==> NobodyNewReady(old(w), w) && NoneReady(old(log), log) && end != Done
      ensures end == Done ==> Concluded(e, o, namespace, old(w), w, w.broker.value, old(random.stream))
      ensures Idle(e, o, namespace, old(w)) && !faulted ==> end == Done && log == old(log) && w == old(w)
      ensures Workable(e, o, namespace, old(w), old(random.stream)) && !faulted ==> end == Done
      ensures end.Turned? ==> IdleRefused(o, namespace, w)
      ensures IdleRefused(o, namespace, old(w)) && !faulted ==> end.Turned? && log == old(log) && w == old(w)
      ensures end == Gone ==> w.broker.None? && AllReported(w, BrokerMissing)
      ensures w.broker.None? && AllReported(old(w), BrokerMissing) ==> log == old(log) && w == old(w)
      ensures w.broker.Some? && w.broker.value.deleting ==> log == old(log)
    {
      faulted := false;
      WentNowhere(w, log, 0, 6);
      var failed := Call();
      if failed || (w.broker.Some? && w.broker.value.deleting) {
        if w.broker.Some? { NothingTold(e, o, w, log, w.broker.value, random.stream); }
        return if failed then Broken else BeingDeleted;
      }
      if w.broker.None? {
        end := ReconcileMissing();
      } else {
        end := ReconcileBroker(w.broker.value);
        PassMeans(e, o, namespace, old(w), old(log), w, log, w.broker.value, old(random.stream), end, faulted);
      }
    }
  }

  /** A pass that began in w has finished in w': everything it rendered stands. */
  ghost predicate Finished(e: Env, o: Options, namespace: string, w: World, w': World, b: Broker, random: Bytes) {
    && RefusalIn(o, namespace, w, b) == None && SourcesKept(w, w')
    && Rendering(e, o, w, b, random).Ok? && AtRest(w', b, Rendering(e, o, w, b, random).value)
  }

  /** After a pass that began in w, every user's credentials are as good as they were. */
  ghost predicate CredentialsHold(e: Env, o: Options, w: World, w': World) {
    w'.broker.Some? && forall u :: u in w.users ==>
      Holds(e, CredentialIn(o, w, u), CredentialIn(o, w', u), AuthData(w', w'.broker.value), ReadyStatus(StatusOf(w', u.name)))
  }

  lemma FinishedData(w: World, w': World, b: Broker, p: UserPass)
    requires SourcesKept(w, w') && AtRest(w', b, p)
    ensures AuthData(w', b) == p.data && Readable(w, w', b, p)
  {
    SettledHolds(w'.store.auth, b, p.data);
  }

  lemma FinishedHolds(e: Env, o: Options, w: World, w': World, b: Broker, p: UserPass)
    requires w'.broker == Some(b) && w'.users == w.users && UsersReported(w', p) && AuthData(w', b) == p.data
    ensures CredentialsHold(e, o, w, w') <==> AllHold(e, o, w, w', b, p)
  {
    forall u | u in w.users ensures ReadyStatus(StatusOf(w', u.name)) == ReadyStatus(StatusFor(u, p)) {
      assert StatusOf(w', u.name) == StatusFor(u, p);
    }
  }

  lemma HoldingIsIdle(e: Env, o: Options, namespace: string, w: World, w': World, b: Broker, random: Bytes)
    requires e.Valid() && e.KeepsVerified() && DistinctUsers(w.users) && w'.broker == Some(b) && !b.deleting
    requires Finished(e, o, namespace, w, w', b, random)
    requires AllHold(e, o, w, w', b, Rendering(e, o, w, b, random).value)
    ensures Idle(e, o, namespace, w')
  {
    var p := Rendering(e, o, w, b, random).value;
    FinishedData(w, w', b, p);
    StaysUnrefused(o, namespace, b, w, w');
    forall later: Bytes ensures Rendering(e, o, w', b, later) == Ok(p, later) {
      HoldingRendersAgain(e, o, w, w', b, random, p, later);
    }
    assert IdleFor(e, o, namespace, w', b, p);
  }

  lemma IdleIsHolding(e: Env, o: Options, namespace: string, w: World, w': World, b: Broker, random: Bytes)
    requires e.Valid() && DistinctUsers(w.users) && w'.broker == Some(b)
    requires Finished(e, o, namespace, w, w', b, random) && Idle(e, o, namespace, w')
    ensures AllHold(e, o, w, w', b, Rendering(e, o, w, b, random).value)
  {
    var p := Rendering(e, o, w, b, random).value;
    FinishedData(w, w', b, p);
    var q :| IdleFor(e, o, namespace, w', b, q);
    assert Rendering(e, o, w', b, []) == Ok(q, []);
    assert q.data == AuthData(w', b);
    forall u | u in w.users
      ensures Holds(e, CredentialIn(o, w, u), CredentialIn(o, w', u), p.data, ReadyStatus(StatusFor(u, p)))
    {
      assert StatusFor(u, q) == StatusOf(w', u.name) == StatusFor(u, p);
      ToldTheSame(e, o, w, w', b, random, p, [], q, u);
    }
  }

  /** What a finished pass leaves is idle if and only if every user's credentials still
      hold; and where nobody reads the Secret the pass writes, if and only if those who
      name it had been told already what they are told once it is written. */
  lemma FinishedIsIdle(e: Env, o: Options, namespace: string, w: World, w': World, b: Broker, random: Bytes)
    requires e.Valid() && e.KeepsVerified() && DistinctUsers(w.users) && w'.broker == Some(b) && !b.deleting
    requires Finished(e, o, namespace, w, w', b, random)
    ensures Idle(e, o, namespace, w') <==> CredentialsHold(e, o, w, w')
    ensures NobodyReads(o, w, b) ==> (Idle(e, o, namespace, w') <==> ToldAlready(o, w, b))
  {
    var p := Rendering(e, o, w, b, random).value;
    FinishedData(w, w', b, p);
    FinishedHolds(e, o, w, w', b, p);
    if AllHold(e, o, w, w', b, p) { HoldingIsIdle(e, o, namespace, w, w', b, random); }
    if Idle(e, o, namespace, w') { IdleIsHolding(e, o, namespace, w, w', b, random); }
    if NobodyReads(o, w, b) { HoldingByKeys(e, o, w, w', b, random, p); }
  }

  /** A pass that got through has finished. */
  lemma DoneHasFinished(e: Env, o: Options, namespace: string, w: World, log: seq<Write>, w': World, log': seq<Write>,
                        b: Broker, random: Bytes, faulted: bool)
    requires SourcesKept(w, w') && PermittedIn(o, namespace, w, b)
    requires DistinctUsers(w.users) && StatusTold(e, o, w, log, w', log', b, random, Done, faulted)
    ensures Finished(e, o, namespace, w, w', b, random) && Stands(e, o, w, w', b, random)
  {
    RefusalExactly(o, namespace, w, b);
    AcceptedAreReady(e, o, w, w', b, random);
    DoneSays(w'.status, b, |ReadyNames(w')|, w'.ready);
  }

  /** What a pass that began in w and got through leaves in w': the objects hold what they
      have to, the rendering of the users among it, every user has been told the truth, the
      configuration is closed; and the next pass writes nothing exactly when every user's
      credentials still hold, which where nobody reads the rendered Secret can be told
      beforehand. */
  ghost predicate Concluded(e: Env, o: Options, namespace: string, w: World, w': World, b: Broker, random: Bytes) {
    && Rendering(e, o, w, b, random).Ok?
    && Delivered(w'.store, b, Rendering(e, o, w, b, random).value.data)
    && AllToldTruly(e, o, w, w')
    && ConfigClosed(w'.store.config, b)
    && (Idle(e, o, namespace, w') <==> CredentialsHold(e, o, w, w'))
    && (NobodyReads(o, w, b) ==> (Idle(e, o, namespace, w') <==> ToldAlready(o, w, b)))
  }

  /** A pass that got through concludes. */
  lemma DoneMeans(e: Env, o: Options, namespace: string, w: World, log: seq<Write>, w': World, log': seq<Write>,
                  b: Broker, random: Bytes, faulted: bool)
    requires e.Valid() && e.KeepsVerified() && DistinctUsers(w.users) && w'.broker == Some(b) && !b.deleting
    requires SourcesKept(w, w') && PermittedIn(o, namespace, w, b)
    requires StatusTold(e, o, w, log, w', log', b, random, Done, faulted)
    ensures Concluded(e, o, namespace, w, w', b, random)
  {
    DoneHasFinished(e, o, namespace, w, log, w', log', b, random, faulted);
    StandingMeans(e, o, w, w', b, random);
    FinishedIsIdle(e, o, namespace, w, w', b, random);
    SettledConfigIsClosed(w'.store.config, b);
  }

  /** What any pass for a broker comes to. */
  lemma PassMeans(e: Env, o: Options, namespace: string, w: World, log: seq<Write>, w': World, log': seq<Write>,
                  b: Broker, random: Bytes, end: PassEnd, faulted: bool)
    requires e.Valid() && e.KeepsVerified() && DistinctUsers(w.users) && w'.broker == Some(b) && !b.deleting
    requires SourcesKept(w, w') && OnlyOwn(w.store, w'.store, b)
    requires w'.store != w.store || end == Done ==> PermittedIn(o, namespace, w, b)
    requires Reached(w, log, w', log') && ReadyBacked(e, o, w, AuthData(w', b), log, log')
    requires StatusTold(e, o, w, log, w', log', b, random, end, faulted)
    ensures ReadyStands(e, o, w, w', AuthData(w', b))
    ensures w'.store.config != w.store.config ==> ConfigClosed(w'.store.config, b)
    ensures end == Done ==> Concluded(e, o, namespace, w, w', b, random)
  {
    BackedStands(e, o, w, log, w', log', AuthData(w', b));
    if w'.store.config != w.store.config { PermittedIsClosed(o, namespace, w, w', b); }
    if end == Done { DoneMeans(e, o, namespace, w, log, w', log', b, random, faulted); }
  }

  /** All that a pass with this rendering would write is there. */
  ghost predicate AtRest(w: World, b: Broker, p: UserPass) {
    && UsersSettled(w, b, p) && RestSettled(w.store, b)
    && w.status == DoneStatus(w.status, b, p.accepted, w.ready)
  }

  /** A ConfigMap that a pass has written is closed. */
  lemma PermittedIsClosed(o: Options, namespace: string, w: World, w': World, b: Broker)
    requires PermittedIn(o, namespace, w, b)
    requires ConfigStep(w.store.config, w'.store.config, b) && w'.store.config != w.store.config
    ensures ConfigClosed(w'.store.config, b)
  {
    RefusalExactly(o, namespace, w, b);
    ChangedConfigIsClosed(w.store.config, w'.store.config, b);
  }

  /** What a pass that began in w has made its broker's status say, on the way and in the
      end. */
  ghost predicate StatusTold(e: Env, o: Options, w: World, log: seq<Write>, w': World, log': seq<Write>,
                             b: Broker, random: Bytes, end: PassEnd, faulted: bool)
  {
    var users, stands := |ReadyNames(w')|, Stands(e, o, w, w', b, random);
    && SaysHow(end, faulted, w'.status, b, w'.ready, users, stands)
    && TellsOnly(log, w.status, log', w'.status, b, w'.ready, users, stands)
  }

  lemma NothingTold(e: Env, o: Options, w: World, log: seq<Write>, b: Broker, random: Bytes)
    ensures StatusTold(e, o, w, log, w, log, b, random, Broken, true)
    ensures forall faulted :: StatusTold(e, o, w, log, w, log, b, random, BeingDeleted, faulted)
  {
    TellsNothing(log, log, w.status, b, w.ready, |ReadyNames(w)|, Stands(e, o, w, w, b, random));
  }

  lemma TurnedTold(e: Env, o: Options, w: World, log: seq<Write>, w': World, log': seq<Write>,
                   b: Broker, random: Bytes, end: PassEnd, faulted: bool)
    requires log <= log' && TellsOnly(log, w.status, log', w'.status, b, w'.ready, 0, false)
    requires (end.Turned? && SaysFailed(w'.status, b, Why.Turned(end.refusal))) || (end == Broken && faulted)
    ensures StatusTold(e, o, w, log, w', log', b, random, end, faulted)
  {
    TellsLast(log, log, w.status, log', w'.status, b, w'.ready, 0, false, |ReadyNames(w')|, Stands(e, o, w, w', b, random));
  }

  lemma WorkTold(e: Env, o: Options, w: World, log: seq<Write>, w': World, log': seq<Write>,
                 b: Broker, random: Bytes, p: Option<UserPass>, end: PassEnd, faulted: bool)
    requires DistinctUsers(w.users) && w'.users == w.users && log <= log'
    requires p.Some? ==> Rendering(e, o, w, b, random).Ok? && Rendering(e, o, w, b, random).value == p.value
    requires TellsOnly(log, w.status, log', w'.status, b, w'.ready, AcceptedBy(p), AllThere(w', b, p))
    requires end == Done || end == Waiting || end == Broken
    requires end == Done ==> AllThere(w', b, p) && w'.status == DoneStatus(w'.status, b, AcceptedBy(p), w'.ready)
    requires end == Waiting ==> AllThere(w', b, p) && SaysWaiting(w'.status, b, AcceptedBy(p))
    requires end == Broken && !faulted ==> SaysFailed(w'.status, b, ReconcileFailed)
    ensures StatusTold(e, o, w, log, w', log', b, random, end, faulted)
  {
    var there, stands := AllThere(w', b, p), Stands(e, o, w, w', b, random);
    if there { AllThereStands(e, o, w, w', b, random, p); }
    TellsLast(log, log, w.status, log', w'.status, b, w'.ready, AcceptedBy(p), there, |ReadyNames(w')|, stands);
    DoneSays(w'.status, b, AcceptedBy(p), w'.ready);
  }

  ghost predicate AllThere(w: World, b: Broker, p: Option<UserPass>) {
    p.Some? && UsersSettled(w, b, p.value) && RestSettled(w.store, b)
  }

  function AcceptedBy(p: Option<UserPass>): int { if p.Some? then p.value.accepted else 0 }

  lemma AllThereStays(w: World, w': World, b: Broker, p: Option<UserPass>)
    requires w' == w.(status := w'.status)
    ensures AllThere(w', b, p) <==> AllThere(w, b, p)
  {
    assert p.Some? ==> (UsersReported(w', p.value) <==> UsersReported(w, p.value)) by {
      assert forall n :: StatusOf(w', n) == StatusOf(w, n);
    }
  }

  lemma AllThereStands(e: Env, o: Options, w: World, w': World, b: Broker, random: Bytes, p: Option<UserPass>)
    requires DistinctUsers(w.users) && w'.users == w.users && AllThere(w', b, p)
    requires Rendering(e, o, w, b, random).Ok? && Rendering(e, o, w, b, random).value == p.value
    ensures Stands(e, o, w, w', b, random) && AcceptedBy(p) == |ReadyNames(w')|
  {
    AcceptedAreReady(e, o, w, w', b, random);
  }

  lemma AtRestWorks(w: World, b: Broker, p: UserPass)
    ensures AtRest(w, b, p) ==> b.plan.sts.Some? && NoneForeign(w.store, b.uid)
  {
  }

  /** What a pass without faults renders for an idle world has all been written. */
  lemma IdleRests(e: Env, o: Options, namespace: string, w: World, b: Broker, random: Bytes, p: Option<UserPass>)
    requires w.broker == Some(b)
    requires match p
             case Some(q) => Rendering(e, o, w, b, random).Ok? && Rendering(e, o, w, b, random).value == q
             case None => Rendering(e, o, w, b, random).Failed?
    ensures Idle(e, o, namespace, w) ==> p.Some? && AtRest(w, b, p.value)
    ensures Workable(e, o, namespace, w, random) ==> p.Some? && b.plan.sts.Some? && NoneForeign(w.store, b.uid)
  {
    if Idle(e, o, namespace, w) {
      var q :| IdleFor(e, o, namespace, w, b, q);
      assert Rendering(e, o, w, b, random) == Ok(q, random);
    }
  }
}
