/** Which brokers a change wakes, against what their passes depend on. */
module Watches {
  import opened Text
  import opened Files
  import opened Cluster

  datatype Key = Key(namespace: string, name: string)

  datatype Objects = Objects(brokers: map<Key, Broker>, users: map<Key, User>, secrets: map<Key, Secret>)

  function At<T>(m: map<Key, T>, k: Key): Option<T> { if k in m then Some(m[k]) else None }

  // ----------------------------------------------------- what a pass depends on

  /** A user bound to a broker, with what its credentials Secret gives. */
  datatype Bound = Bound(user: User, credential: Credential)

  /** All a pass for one broker refuses or renders from. */
  datatype View = View(broker: Option<Broker>, refusal: Option<Refusal>, users: map<Key, Bound>, previous: Data)

  predicate BoundTo(c: Objects, u: Key, b: Key) {
    u in c.users && u.namespace == b.namespace && c.users[u].broker == b.name
  }

  function CredentialOf(c: Objects, o: Options, u: Key): Credential
    requires u in c.users
  {
    CredentialFrom(o, c.users[u], At(c.secrets, Key(u.namespace, c.users[u].secret)))
  }

  function ViewOf(c: Objects, o: Options, b: Key): View {
    var broker := At(c.brokers, b);
    View(broker,
         if broker.None? then None
         else Refuse(o, b.namespace, broker.value, At(c.secrets, Key(b.namespace, broker.value.tls))),
         map u | u in c.users && BoundTo(c, u, b) :: Bound(c.users[u], CredentialOf(c, o, u)),
         if broker.None? then map[]
         else CurrentAuthData(broker.value, At(c.secrets, Key(b.namespace, AuthSecretName(b.name)))))
  }

  // --------------------------------------------------------------------- changes

  /** One create, update or delete: the object before and after. */
  datatype Change =
    | BrokerChange(key: Key, oldBroker: Option<Broker>, newBroker: Option<Broker>)
    | UserChange(key: Key, oldUser: Option<User>, newUser: Option<User>)
    | SecretChange(key: Key, oldSecret: Option<Secret>, newSecret: Option<Secret>)

  function Put<T>(m: map<Key, T>, k: Key, v: Option<T>): map<Key, T> {
    match v
    case Some(x) => m[k := x]
    case None => m - {k}
  }

  function Changed(c: Objects, ch: Change): Objects {
    match ch
    case BrokerChange(k, _, b) => c.(brokers := Put(c.brokers, k, b))
    case UserChange(k, _, u) => c.(users := Put(c.users, k, u))
    case SecretChange(k, _, s) => c.(secrets := Put(c.secrets, k, s))
  }

  /** The change is one of this cluster, and an update that leaves the generation alone
      leaves the spec alone. */
  ghost predicate Happens(c: Objects, ch: Change) {
    match ch
    case BrokerChange(k, before, after) =>
      At(c.brokers, k) == before &&
      (before.Some? && after.Some? && before.value.generation == after.value.generation ==> before == after)
    case UserChange(k, before, after) =>
      At(c.users, k) == before &&
      (before.Some? && after.Some? && before.value.generation == after.value.generation ==> before == after)
    case SecretChange(k, before, _) => At(c.secrets, k) == before
  }

  /** The key of the Secret rendered for a broker. */
  function AuthKey(b: Key): Key { Key(b.namespace, AuthSecretName(b.name)) }

  /** If the broker's uid controls the Secret, the reference carries the broker's name. */
  predicate OwnerNamed(s: Option<Secret>, broker: Broker, name: string) {
    s.Some? && Controls(broker, s.value) ==> s.value.controller.value.name == name
  }

  /** A change of the broker's own rendered Secret, if it is one, is of a Secret whose
      controller reference has the broker's name next to its uid. */
  ghost predicate OwnersNamed(c: Objects, ch: Change, b: Key) {
    ch.SecretChange? && b in c.brokers && ch.key == AuthKey(b) ==>
      OwnerNamed(ch.oldSecret, c.brokers[b], b.name) && OwnerNamed(ch.newSecret, c.brokers[b], b.name)
  }

  // ------------------------------------------------------------------- wake-ups

  function GenerationOfBroker(b: Broker): int { b.generation }

  function GenerationOfUser(u: User): int { u.generation }

  /** GenerationChangedPredicate: an update passes when the generation differs. */
  predicate Passes<T>(before: Option<T>, after: Option<T>, generation: T -> int) {
    before.None? || after.None? || generation(before.value) != generation(after.value)
  }

  function BrokerOf(u: Option<User>, namespace: string): set<Key> {
    if u.None? then {} else {Key(namespace, u.value.broker)}
  }

  function OwnerOf(s: Option<Secret>, namespace: string): set<Key> {
    if s.None? || s.value.controller.None? then {} else {Key(namespace, s.value.controller.value.name)}
  }

  /** The brokers with a user that names the Secret as its credentials. */
  function UserDependents(c: Objects, secret: Key): set<Key> {
    set u | u in c.users && u.namespace == secret.namespace && c.users[u].secret == secret.name
      :: Key(secret.namespace, c.users[u].broker)
  }

  /** The brokers that name it as their TLS Secret. */
  function TlsDependents(c: Objects, secret: Key): set<Key> {
    set b | b in c.brokers && b.namespace == secret.namespace &&
            c.brokers[b].tls != "" && c.brokers[b].tls == secret.name
  }

  /** Everything the watches enqueue for a change, the cluster being as it is after it:
      For with the generation predicate, Owns, userBrokers, brokersForSecret. */
  function Enqueued(after: Objects, ch: Change): set<Key> {
    match ch
    case BrokerChange(k, x, y) => if Passes(x, y, GenerationOfBroker) then {k} else {}
    case UserChange(k, x, y) =>
      if Passes(x, y, GenerationOfUser) then BrokerOf(x, k.namespace) + BrokerOf(y, k.namespace) else {}
    case SecretChange(k, x, y) =>
      OwnerOf(x, k.namespace) + OwnerOf(y, k.namespace) + UserDependents(after, k) + TlsDependents(after, k)
  }

  ghost predicate NoDuplicates(requests: seq<Key>) {
    forall i, j :: 0 <= i < j < |requests| ==> requests[i] != requests[j]
  }

  /** The add of brokersForSecret: a key once. */
  method Add(seen: set<Key>, requests: seq<Key>, key: Key) returns (seen': set<Key>, requests': seq<Key>)
    requires NoDuplicates(requests) && forall k :: k in requests <==> k in seen
    ensures NoDuplicates(requests') && forall k :: k in requests' <==> k in seen'
    ensures seen' == seen + {key}
  {
    seen', requests' := seen, requests;
    if key !in seen {
      seen' := seen + {key};
      requests' := requests + [key];
    }
  }

  /** brokersForSecret: one request per broker, gathered from two lists either of which
      may fail. */
  method BrokersForSecret(c: Objects, secret: Key, usersFail: bool, brokersFail: bool) returns (requests: seq<Key>)
    ensures NoDuplicates(requests)
    ensures forall k :: k in requests <==>
              (!usersFail && k in UserDependents(c, secret)) || (!brokersFail && k in TlsDependents(c, secret))
  {
    var seen: set<Key> := {};
    requests := [];
    if !usersFail {
      var items := set u | u in c.users && u.namespace == secret.namespace && c.users[u].secret == secret.name;
      var todo := items;
      while todo != {}
        invariant todo <= items
        invariant NoDuplicates(requests) && forall k :: k in requests <==> k in seen
        invariant seen == set u | u in items && u !in todo :: Key(secret.namespace, c.users[u].broker)
        decreases todo
      {
        var u :| u in todo;
        todo := todo - {u};
        seen, requests := Add(seen, requests, Key(secret.namespace, c.users[u].broker));
      }
      assert seen == UserDependents(c, secret);
    }
    ghost var fromUsers := seen;
    if !brokersFail {
      var items := TlsDependents(c, secret);
      var todo := items;
      while todo != {}
        invariant todo <= items
        invariant NoDuplicates(requests) && forall k :: k in requests <==> k in seen
        invariant seen == fromUsers + (items - todo)
        decreases todo
      {
        var b :| b in todo;
        todo := todo - {b};
        seen, requests := Add(seen, requests, b);
      }
    }
  }

  // ----------------------------------------------------------- no lost wake-up

  lemma BrokerWakes(c: Objects, o: Options, ch: Change, b: Key)
    requires ch.BrokerChange? && Happens(c, ch)
    ensures b in Enqueued(Changed(c, ch), ch) || ViewOf(Changed(c, ch), o, b) == ViewOf(c, o, b)
  {
    var c' := Changed(c, ch);
    if b !in Enqueued(c', ch) {
      assert b != ch.key || ch.oldBroker == ch.newBroker;
      assert At(c'.brokers, b) == At(c.brokers, b);
      assert ViewOf(c', o, b).users == ViewOf(c, o, b).users;
    }
  }

  lemma UserWakes(c: Objects, o: Options, ch: Change, b: Key)
    requires ch.UserChange? && Happens(c, ch)
    ensures b in Enqueued(Changed(c, ch), ch) || ViewOf(Changed(c, ch), o, b) == ViewOf(c, o, b)
  {
    var c' := Changed(c, ch);
    var k := ch.key;
    if b !in Enqueued(c', ch) {
      assert At(c'.users, k) == ch.newUser;
      assert ch.oldUser == ch.newUser || (!BoundTo(c, k, b) && !BoundTo(c', k, b));
      forall u ensures BoundTo(c', u, b) <==> BoundTo(c, u, b)
               ensures BoundTo(c, u, b) ==> At(c'.users, u) == At(c.users, u)
      {
        if u != k { assert At(c'.users, u) == At(c.users, u); }
      }
      assert ViewOf(c', o, b).users == ViewOf(c, o, b).users;
    }
  }

  lemma CredentialsUnmoved(c: Objects, o: Options, ch: Change, b: Key)
    requires ch.SecretChange? && b !in UserDependents(Changed(c, ch), ch.key)
    ensures ViewOf(Changed(c, ch), o, b).users == ViewOf(c, o, b).users
  {
    var c', k := Changed(c, ch), ch.key;
    assert forall u :: u in c.users && u.namespace == k.namespace && c.users[u].secret == k.name ==>
      Key(k.namespace, c.users[u].broker) in UserDependents(c', k);
    forall u | u in c.users && BoundTo(c, u, b) ensures CredentialOf(c', o, u) == CredentialOf(c, o, u) {
      var secret := Key(u.namespace, c.users[u].secret);
      assert At(c'.secrets, secret) == At(c.secrets, secret);
    }
  }

  lemma SecretWakes(c: Objects, o: Options, ch: Change, b: Key)
    requires ch.SecretChange? && Happens(c, ch)
    requires OwnersNamed(c, ch, b)
    ensures b in Enqueued(Changed(c, ch), ch) || ViewOf(Changed(c, ch), o, b) == ViewOf(c, o, b)
  {
    if b !in Enqueued(Changed(c, ch), ch) {
      CredentialsUnmoved(c, o, ch, b);
      if b in c.brokers {
        TlsUnmoved(c, o, ch, b);
        AuthUnmoved(c, o, ch, b);
      }
    }
  }

  lemma TlsUnmoved(c: Objects, o: Options, ch: Change, b: Key)
    requires ch.SecretChange? && b in c.brokers && b !in TlsDependents(Changed(c, ch), ch.key)
    ensures ViewOf(Changed(c, ch), o, b).refusal == ViewOf(c, o, b).refusal
  {
  }

  lemma AuthUnmoved(c: Objects, o: Options, ch: Change, b: Key)
    requires ch.SecretChange? && Happens(c, ch) && b in c.brokers
    requires OwnersNamed(c, ch, b)
    ensures b in OwnerOf(ch.oldSecret, ch.key.namespace) + OwnerOf(ch.newSecret, ch.key.namespace) ||
            ViewOf(Changed(c, ch), o, b).previous == ViewOf(c, o, b).previous
  {
    var auth := Key(b.namespace, AuthSecretName(b.name));
    var c' := Changed(c, ch);
    if ch.key != auth {
      assert At(c'.secrets, auth) == At(c.secrets, auth);
    } else {
      assert At(c'.secrets, auth) == ch.newSecret;
    }
  }

  /** No lost wake-up: any single create, update or delete of a Mosquitto, a user or a
      Secret that changes what some broker's pass would refuse or render enqueues that
      broker. */
  lemma NoLostWakeup(c: Objects, o: Options, ch: Change, b: Key)
    requires Happens(c, ch) && OwnersNamed(c, ch, b)
    requires ViewOf(Changed(c, ch), o, b) != ViewOf(c, o, b)
    ensures b in Enqueued(Changed(c, ch), ch)
  {
    match ch {
      case BrokerChange(_, _, _) => BrokerWakes(c, o, ch, b);
      case UserChange(_, _, _) => UserWakes(c, o, ch, b);
      case SecretChange(_, _, _) => SecretWakes(c, o, ch, b);
    }
  }

  /** Without that, a wake-up is lost: whether a Secret is the broker's own is read off the
      uid, and which broker to wake off the name. A Secret of the rendered one's name, made
      with the broker's uid under another name, is rendered from and wakes it not. */
  lemma MisnamedOwnerIsMissed(c: Objects, o: Options, b: Key, s: Secret)
    requires b in c.brokers && AuthKey(b) !in c.secrets
    requires Controls(c.brokers[b], s) && s.controller.value.name != b.name && s.data != map[]
    requires b !in UserDependents(c, AuthKey(b)) && b !in TlsDependents(c, AuthKey(b))
    ensures var ch := SecretChange(AuthKey(b), None, Some(s));
            && Happens(c, ch) && !OwnersNamed(c, ch, b)
            && ViewOf(Changed(c, ch), o, b) != ViewOf(c, o, b)
            && b !in Enqueued(Changed(c, ch), ch)
  {
    var ch := SecretChange(AuthKey(b), None, Some(s));
    assert ViewOf(c, o, b).previous == map[] && ViewOf(Changed(c, ch), o, b).previous == s.data;
  }

  /** A user that moves wakes the broker it leaves and the broker it joins. */
  lemma MoveWakesBoth(c: Objects, k: Key, before: User, after: User)
    requires before.generation != after.generation
    ensures Enqueued(Changed(c, UserChange(k, Some(before), Some(after))), UserChange(k, Some(before), Some(after))) ==
            {Key(k.namespace, before.broker), Key(k.namespace, after.broker)}
  {
  }
}
