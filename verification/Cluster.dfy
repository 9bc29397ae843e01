/** The objects a pass reads, and what it makes of a credentials Secret and of the
    checks that refuse a whole pass. */
module Cluster {
  import opened Text
  import Labels
  import opened Credentials
  import opened Files
  import opened BrokerConfig
  import opened StatefulSets

  const CONSUMABLE := "mko.gtrfc.com/consumable"
  const CONSUMABLE_VALUE := "true"

  datatype Owner = Owner(name: string, uid: string)

  datatype Secret = Secret(labels: Labels.Map, data: Data, controller: Option<Owner>)

  /** A MosquittoUser without its status. */
  datatype User = User(name: string, created: int, generation: int, broker: string, secret: string,
                       usernameKey: string, passwordKey: string, acls: seq<Acl>)

  /** The labels the operator puts on its objects; consent to read a Secret is not among
      them. */
  type OwnLabels = m: Labels.Map | CONSUMABLE !in m witness map[]

  /** What the builders make of a Mosquitto besides its configuration, of which this holds
      the texts of the comment lines, and its StatefulSet labels; no sts when it cannot be
      built. */
  datatype Plan = Plan(labels: OwnLabels, comments: seq<string>, headlessPorts: string, clientPorts: string,
                       selector: Labels.Map, sts: Option<Spec>)

  /** A Mosquitto without its status; tls is empty without TLS. */
  datatype Broker = Broker(uid: string, generation: int, deleting: bool, tls: string, metrics: bool,
                           config: string, replicas: int, plan: Plan)

  /** granted is --secret-namespaces, empty for every namespace. */
  datatype Options = Options(secretSecurity: bool, granted: seq<string>)

  // ---------------------------------------------------------- the configuration

  const CONFIG_KEY := "mosquitto.conf"

  /** Comments keep to their line. */
  function WordingOf(comments: seq<string>): Wording {
    (n: nat) => if n < |comments| && '\n' !in comments[n] then comments[n] else ""
  }

  /** The configuration generated for a broker. */
  function ConfigText(b: Broker): string { Conf(b.tls != "", b.config, WordingOf(b.plan.comments)) }

  /** With an accepted spec.config it is closed. */
  lemma ConfigTextIsClosed(b: Broker)
    requires ValidateSpecConfig(b.config) == None
    ensures Closed(ConfigText(b), b.tls != "")
  {
    AcceptedConfigIsClosed(b.tls != "", b.config, WordingOf(b.plan.comments));
  }

  // -------------------------------------------------------------------- refusals

  datatype Refusal = NamespaceNotGranted | ConfigRefused(line: nat) | TlsSecretNotFound | TlsSecretNotConsumable

  /** namespaceGranted. */
  predicate NamespaceGranted(o: Options, namespace: string) { o.granted == [] || namespace in o.granted }

  predicate Consumable(labels: Labels.Map) { Get(labels, CONSUMABLE) == CONSUMABLE_VALUE }

  /** refuseTLSSecret on the Secret the broker names, if it exists. */
  function RefuseTls(o: Options, b: Broker, secret: Option<Secret>): Option<Refusal> {
    if !o.secretSecurity || b.tls == "" then None
    else if secret.None? then Some(TlsSecretNotFound)
    else if !Consumable(secret.value.labels) then Some(TlsSecretNotConsumable)
    else None
  }

  /** refusePass. */
  function Refuse(o: Options, namespace: string, b: Broker, tlsSecret: Option<Secret>): Option<Refusal> {
    if !NamespaceGranted(o, namespace) then Some(NamespaceNotGranted)
    else match ValidateSpecConfig(b.config)
      case Some(line) => Some(ConfigRefused(line))
      case None => RefuseTls(o, b, tlsSecret)
  }

  /** What it takes for a pass to write: the namespace is granted, spec.config only tunes,
      and under --secret-security a TLS Secret that is named exists and says that it may be
      used. */
  ghost predicate Permitted(o: Options, namespace: string, b: Broker, tlsSecret: Option<Secret>) {
    && (o.granted == [] || namespace in o.granted)
    && (forall d :: d in DirectivesOf(b.config) ==> Tunes(d))
    && (o.secretSecurity && b.tls != "" ==>
         tlsSecret.Some? && CONSUMABLE in tlsSecret.value.labels && tlsSecret.value.labels[CONSUMABLE] == "true")
  }

  /** The refusal names the first of these that is missing. */
  ghost predicate Missing(o: Options, namespace: string, b: Broker, tlsSecret: Option<Secret>, refusal: Refusal) {
    var granted := o.granted == [] || namespace in o.granted;
    var tunes := forall d :: d in DirectivesOf(b.config) ==> Tunes(d);
    match refusal
    case NamespaceNotGranted => !granted
    case ConfigRefused(line) => granted && FirstMeddling(b.config, line)
    case TlsSecretNotFound => granted && tunes && o.secretSecurity && b.tls != "" && tlsSecret.None?
    case TlsSecretNotConsumable =>
      && granted && tunes && o.secretSecurity && b.tls != "" && tlsSecret.Some?
      && !(CONSUMABLE in tlsSecret.value.labels && tlsSecret.value.labels[CONSUMABLE] == "true")
  }

  /** A pass is refused exactly when something is missing, and told what. */
  lemma RefuseExactly(o: Options, namespace: string, b: Broker, tlsSecret: Option<Secret>)
    ensures Refuse(o, namespace, b, tlsSecret) == None <==> Permitted(o, namespace, b, tlsSecret)
    ensures forall r :: Refuse(o, namespace, b, tlsSecret) == Some(r) <==> Missing(o, namespace, b, tlsSecret, r)
  {
    ValidatorMeans(b.config);
  }

  // ----------------------------------------------------------------- credentials

  datatype Credential =
    | SecretNotFound
    | SecretNotConsumable
    | KeyNotFound(key: string)
    | Found(input: Input)

  function UsernameKey(u: User): string { if u.usernameKey != "" then u.usernameKey else "username" }

  function PasswordKey(u: User): string { if u.passwordKey != "" then u.passwordKey else "password" }

  /** readCredentials. */
  function CredentialFrom(o: Options, u: User, secret: Option<Secret>): Credential {
    if secret.None? then SecretNotFound
    else if o.secretSecurity && !Consumable(secret.value.labels) then SecretNotConsumable
    else
      var data := secret.value.data;
      if UsernameKey(u) !in data then KeyNotFound(UsernameKey(u))
      else if PasswordKey(u) !in data then KeyNotFound(PasswordKey(u))
      else Found(Input(u.name, u.created, data[UsernameKey(u)], data[PasswordKey(u)], u.acls))
  }

  /** What a user's Secret gives, for any Secret: the values under its keys, which are
      "username" and "password" unless it names others, or the first reason why not. */
  lemma CredentialMeans(o: Options, u: User, secret: Option<Secret>)
    ensures var name := if u.usernameKey == "" then "username" else u.usernameKey;
            var password := if u.passwordKey == "" then "password" else u.passwordKey;
            match CredentialFrom(o, u, secret)
            case SecretNotFound => secret.None?
            case SecretNotConsumable =>
              secret.Some? && o.secretSecurity && Labels.Look(secret.value.labels, CONSUMABLE) != Some("true")
            case refused =>
              && secret.Some? && (o.secretSecurity ==> Labels.Look(secret.value.labels, CONSUMABLE) == Some("true"))
              && match refused
                 case Found(x) =>
                   && name in secret.value.data && password in secret.value.data
                   && x == Input(u.name, u.created, secret.value.data[name], secret.value.data[password], u.acls)
                 case KeyNotFound(key) =>
                   key !in secret.value.data && (key == name || (key == password && name in secret.value.data))
                 case _ => false
  {
  }

  function AuthSecretName(broker: string): string { broker + "-auth" }

  /** metav1.IsControlledBy. */
  predicate Controls(b: Broker, s: Secret) { s.controller.Some? && s.controller.value.uid == b.uid }

  /** currentAuthData. */
  function CurrentAuthData(b: Broker, secret: Option<Secret>): Data {
    if secret.None? || !Controls(b, secret.value) then map[] else secret.value.data
  }
}
