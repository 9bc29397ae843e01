/** The renderer's vocabulary and the rules one user has to pass on its own. */
module Credentials {
  import opened Text
  import opened Base64
  import opened PasswordHash
  import opened Topics

  /** What the renderer takes from outside: utf8.ValidString, and the password
      hashes with the random source they read their salts from. */
  datatype Env = Env(
    utf8: string -> bool,
    keep: (string, string, Bytes) -> Outcome<string>,
    verifies: (string, string) -> bool)
  {
    /** A hash, once given, verifies its password, fits on one line, and is given
        again whenever it is known, without reading the random source. */
    ghost predicate Valid() {
      forall previous, password, random ::
        '\n' !in previous && keep(previous, password, random).Ok? ==>
          var hash := keep(previous, password, random).value;
          && '\n' !in hash && hash != "" && verifies(hash, password)
          && forall later :: keep(hash, password, later) == Ok(hash, later)
    }

    /** A hash is kept whenever it verifies the password. */
    ghost predicate KeepsVerified() {
      forall hash, password, random ::
        hash != "" && Verifies(hash, password) ==> Keep(hash, password, random) == Ok(hash, random)
    }

    /** It is hash.go over this PBKDF2 that keeps and makes the hashes. */
    ghost predicate Computes(derive: Derive) {
      forall previous, password, random ::
        Keep(previous, password, random) == KeepOrHash(derive, previous, password, random)
    }

    /** keepOrHash. */
    function Keep(previous: string, password: string, random: Bytes): Outcome<string> {
      keep(previous, password, random)
    }

    /** VerifyPassword. */
    predicate Verifies(hash: string, password: string) { verifies(hash, password) }
  }

  /** The environment of the operator: hash.go over PBKDF2. */
  function HashEnv(utf8: string -> bool, derive: Derive): Env {
    Env(utf8,
        (previous, password, random) => KeepOrHash(derive, previous, password, random),
        (hash, password) => VerifyPassword(derive, hash, password))
  }

  lemma HashEnvValid(utf8: string -> bool, derive: Derive)
    requires ExactLength(derive)
    ensures HashEnv(utf8, derive).Valid() && HashEnv(utf8, derive).Computes(derive)
    ensures HashEnv(utf8, derive).KeepsVerified()
  {
    var e := HashEnv(utf8, derive);
    forall previous, password, random | '\n' !in previous && e.keep(previous, password, random).Ok?
      ensures var hash := e.keep(previous, password, random).value;
              && '\n' !in hash && hash != "" && e.verifies(hash, password)
              && forall later :: e.keep(hash, password, later) == Ok(hash, later)
    {
      var hash := e.keep(previous, password, random).value;
      KeptForever(derive, previous, password, random, []);
      forall later ensures e.keep(hash, password, later) == Ok(hash, later) {
        KeptForever(derive, previous, password, random, later);
      }
    }
  }

  const RESERVED_PREFIX := "mko-"
  const EXPORTER_USERNAME := "mko-exporter"

  datatype Acl = Acl(topic: string, access: string)

  /** One MosquittoUser as the renderer sees it. */
  datatype Input = Input(name: string, created: int, username: string, password: string, acls: seq<Acl>)

  /** A user the operator renders for itself. */
  datatype Principal = Principal(username: string, password: string, acls: seq<Acl>)

  /** A user the renderer admitted. */
  datatype Accepted = Accepted(username: string, hash: string, acls: seq<Acl>)

  datatype Reason =
    | UsernameInvalid
    | UsernameReserved
    | PasswordEmpty
    | TopicRefused
    | UsernameConflict(holder: string)

  datatype Verdict = Admitted | Refused(reason: Reason)

  /** ExporterPrincipal. */
  function ExporterPrincipal(password: string): Principal {
    Principal(EXPORTER_USERNAME, password, [Acl("$SYS/#", "read")])
  }

  /** The username allowlist: a letter or digit, then up to 127 more characters of
      letters, digits, and . _ @ - */
  predicate UsernameAllowed(u: string) {
    && 1 <= |u| <= 128
    && IsAlnum(u[0])
    && forall c :: c in u ==> IsAlnum(c) || c in "._@-"
  }

  function LowerChar(c: char): char {
    if 'A' <= c <= 'Z' then (c as int + 32) as char else c
  }

  /** strings.ToLower on the ASCII usernames that pass the allowlist. */
  function ToLower(s: string): (t: string)
    ensures |t| == |s|
    ensures forall i :: 0 <= i < |s| ==> t[i] == LowerChar(s[i])
  {
    if s == "" then "" else [LowerChar(s[0])] + ToLower(s[1..])
  }

  predicate AccessKnown(access: string) {
    access == "read" || access == "write" || access == "readwrite"
  }

  predicate AclAllowed(e: Env, acl: Acl) {
    TopicProblem(e.utf8, acl.topic).None? && AccessKnown(acl.access)
  }

  /** check: the reason an input is refused on its own account, or None. */
  function Check(e: Env, input: Input): Option<Reason> {
    if !UsernameAllowed(input.username) then Some(UsernameInvalid)
    else if HasPrefix(ToLower(input.username), RESERVED_PREFIX) then Some(UsernameReserved)
    else if input.password == "" then Some(PasswordEmpty)
    else if exists a :: a in input.acls && !AclAllowed(e, a) then Some(TopicRefused)
    else None
  }

  /** The name begins with the reserved prefix in some letter case. */
  predicate LooksReserved(u: string) {
    && |u| >= 4
    && (u[0] == 'm' || u[0] == 'M') && (u[1] == 'k' || u[1] == 'K') && (u[2] == 'o' || u[2] == 'O') && u[3] == '-'
  }

  lemma ReservedLooks(u: string)
    ensures HasPrefix(ToLower(u), RESERVED_PREFIX) <==> LooksReserved(u)
  {
    var low := ToLower(u);
    if |u| >= 4 {
      assert low[..4] == [low[0], low[1], low[2], low[3]];
      assert RESERVED_PREFIX == ['m', 'k', 'o', '-'];
    }
  }

  /** The acl entry, character by character, as the standard and the design have it. */
  ghost predicate EntryStandard(e: Env, a: Acl) {
    && AccessKnown(a.access)
    && a.topic != "" && a.topic[0] != '$' && e.utf8(a.topic)
    && (forall c :: c in a.topic ==> !IsControl(c))
    && TrimSpace(a.topic) == a.topic
    && WildcardsStandard(a.topic)
  }

  /** Exactly which inputs pass: an allowed name that does not look reserved, a
      password, and nothing but standard entries. */
  lemma CheckAccepts(e: Env, input: Input)
    ensures Check(e, input).None? <==>
              && UsernameAllowed(input.username) && !LooksReserved(input.username)
              && input.password != ""
              && forall a :: a in input.acls ==> EntryStandard(e, a)
  {
    ReservedLooks(input.username);
    forall a | a in input.acls ensures AclAllowed(e, a) <==> EntryStandard(e, a) { AcceptedTopic(e.utf8, a.topic); }
  }

  /** The reserved prefix keeps the operator's names apart from every user's. */
  lemma ReservedIsApart(e: Env, input: Input, username: string)
    requires Check(e, input).None?
    requires HasPrefix(username, RESERVED_PREFIX)
    ensures input.username != username
  {
  }

  // --------------------------------------------- what the line formats can hold

  /** A name that survives a passwd line and an acl user line. */
  predicate PlainUsername(u: string) { u != "" && ':' !in u && '\n' !in u }

  /** An entry that survives an acl topic line. */
  predicate PlainAcl(a: Acl) { AccessKnown(a.access) && '\n' !in a.topic }

  predicate PlainPrincipal(q: Principal) {
    PlainUsername(q.username) && forall a :: a in q.acls ==> PlainAcl(a)
  }

  lemma CheckedIsPlain(e: Env, input: Input)
    requires Check(e, input).None?
    ensures PlainUsername(input.username)
    ensures forall a :: a in input.acls ==> PlainAcl(a) && !HasPrefix(a.topic, "$")
  {
  }
}
