/** What the stored hashes say about passwords, over hash.go and any PBKDF2: whose key
    they hold, and what becomes of them when a password changes. */
module Rotation {
  import opened Text
  import opened Sorting
  import opened Base64
  import opened PasswordHash
  import opened Credentials
  import opened Files
  import opened Renderer
  import opened RendererTheorems

  predicate DrawnAt(random: Bytes, salt: Bytes, n: int) { 0 <= n && n + 64 <= |random| && salt == random[n..n + 64] }

  /** The salt is a stretch of the random source. */
  ghost predicate Drawn(random: Bytes, salt: Bytes) { exists n :: DrawnAt(random, salt, n) }

  /** The hash a login gets: the known one when the password opens it, otherwise one made
      from the password and a salt that was drawn from the random source. */
  ghost predicate Made(derive: Derive, known: string, password: string, random: Bytes, hash: string) {
    if Opens(derive, known, password) then hash == known
    else exists salt :: Drawn(random, salt) && Fresh(derive, hash, password, salt)
  }

  /** What is left of a random source that was read from its front. */
  predicate Rests(random: Bytes, rest: Bytes) { |rest| <= |random| && rest == random[|random| - |rest|..] }

  lemma HashMade(e: Env, derive: Derive, known: string, password: string, random: Bytes, rest: Bytes)
    requires e.Computes(derive) && Rests(random, rest) && e.Keep(known, password, rest).Ok?
    ensures var r := e.Keep(known, password, rest);
            Rests(random, r.rest) && Made(derive, known, password, random, r.value)
  {
    assert e.Keep(known, password, rest) == KeepOrHash(derive, known, password, rest);
    VerifiesMeans(derive, known, password);
    if !Opens(derive, known, password) {
      assert DrawnAt(random, rest[..64], |random| - |rest|);
      assert Fresh(derive, KeepOrHash(derive, known, password, rest).value, password, rest[..64]);
    }
  }

  ghost predicate LoginMade(derive: Derive, l: Login, known: map<string, string>, random: Bytes, u: Accepted) {
    Made(derive, Get(known, l.username), l.password, random, u.hash)
  }

  /** Hash by hash, what hashing made of the logins. */
  ghost predicate AllMade(derive: Derive, logins: seq<Login>, known: map<string, string>, random: Bytes, users: seq<Accepted>) {
    |users| == |logins| && forall i :: 0 <= i < |logins| ==> LoginMade(derive, logins[i], known, random, users[i])
  }

  lemma {:induction false} HashesMade(e: Env, derive: Derive, logins: seq<Login>, known: map<string, string>, random: Bytes)
    requires e.Computes(derive) && HashAll(e, logins, known, random).Ok?
    ensures var r := HashAll(e, logins, known, random);
            Rests(random, r.rest) && AllMade(derive, logins, known, random, r.value)
  {
    if logins != [] {
      var init, l := logins[..|logins| - 1], logins[|logins| - 1];
      HashesMade(e, derive, init, known, random);
      var done := HashAll(e, init, known, random);
      HashMade(e, derive, Get(known, l.username), l.password, random, done.rest);
      var made := HashLogin(e, l, known, done.rest).value;
      MadeOneMore(derive, logins, known, random, done.value, made);
    }
  }

  lemma MadeOneMore(derive: Derive, logins: seq<Login>, known: map<string, string>, random: Bytes,
                    done: seq<Accepted>, made: Accepted)
    requires logins != [] && AllMade(derive, logins[..|logins| - 1], known, random, done)
    requires LoginMade(derive, logins[|logins| - 1], known, random, made)
    ensures AllMade(derive, logins, known, random, done + [made])
  {
    forall i | 0 <= i < |logins| ensures LoginMade(derive, logins[i], known, random, (done + [made])[i]) {
      if i < |logins| - 1 { assert logins[..|logins| - 1][i] == logins[i]; }
    }
  }

  /** Every line of a rendered passwd file parses to a key that the password of its entitled
      user derives under the salt and the iteration count of the line. */
  lemma StoredHashesOpen(utf8: string -> bool, derive: Derive, inputs: seq<Input>, reserved: seq<Principal>,
                         previous: Data, random: Bytes, i: nat)
    requires ExactLength(derive) && PrincipalsOk(reserved) && DistinctNames(inputs)
    requires Rendered(HashEnv(utf8, derive), inputs, reserved, previous, random).Ok?
    requires i < |ReadPasswd(Rendered(HashEnv(utf8, derive), inputs, reserved, previous, random).value.data)|
    ensures var line := ReadPasswd(Rendered(HashEnv(utf8, derive), inputs, reserved, previous, random).value.data)[i];
            exists password, acls ::
              Entitled(HashEnv(utf8, derive), inputs, reserved, line.fst, password, acls) && Opens(derive, line.snd, password)
  {
    var e := HashEnv(utf8, derive);
    HashEnvValid(utf8, derive);
    FilesNameOnlyTheEntitled(e, inputs, reserved, previous, random);
    var line := ReadPasswd(Rendered(e, inputs, reserved, previous, random).value.data)[i];
    var password, acls :| Entitled(e, inputs, reserved, line.fst, password, acls) && e.Verifies(line.snd, password);
    VerifiesMeans(derive, line.snd, password);
  }

  /** The login behind a user entitled to a line, and the hash stored for it. */
  lemma StoredHash(e: Env, derive: Derive, inputs: seq<Input>, reserved: seq<Principal>, previous: Data, random: Bytes,
                   username: string, password: string, acls: seq<Acl>)
    requires e.Valid() && e.Computes(derive) && PrincipalsOk(reserved) && DistinctNames(inputs)
    requires Rendered(e, inputs, reserved, previous, random).Ok?
    requires Entitled(e, inputs, reserved, username, password, acls)
    ensures var now := Get(KnownHashes(Rendered(e, inputs, reserved, previous, random).value.data), username);
            Made(derive, Get(KnownHashes(previous), username), password, random, now) && e.Verifies(now, password)
  {
    var logins, hashed, users := Shape(e, inputs, reserved, previous, random);
    EntitledLogin(e, inputs, reserved, username, password, acls);
    var k :| 0 <= k < |logins| && logins[k].username == username && logins[k].password == password;
    HashesMade(e, derive, logins, KnownHashes(previous), random);
    assert LoginMade(derive, logins[k], KnownHashes(previous), random, hashed[k]);
    UserIsStored(e, logins, hashed, users, k);
  }

  lemma UserIsStored(e: Env, logins: seq<Login>, hashed: seq<Accepted>, users: seq<Accepted>, k: nat)
    requires k < |logins| == |hashed| && Hashed(e, logins[k], hashed[k])
    requires DistinctUsernames(users) && (forall u :: u in users <==> u in hashed) && forall u :: u in users ==> Printable(u)
    ensures Get(KnownHashes(RenderedFiles(users)), logins[k].username) == hashed[k].hash
  {
    assert hashed[k] in users;
    PrintedInBoth(users, hashed[k]);
  }

  /** The hash that a rendering stores for a user is made from the one known before and
      the password of now: kept exactly when the password opens it. */
  lemma HashFollowsPassword(utf8: string -> bool, derive: Derive, inputs: seq<Input>, reserved: seq<Principal>,
                            previous: Data, random: Bytes, username: string, password: string, acls: seq<Acl>)
    requires ExactLength(derive) && PrincipalsOk(reserved) && DistinctNames(inputs)
    requires Rendered(HashEnv(utf8, derive), inputs, reserved, previous, random).Ok?
    requires Entitled(HashEnv(utf8, derive), inputs, reserved, username, password, acls)
    ensures var data := Rendered(HashEnv(utf8, derive), inputs, reserved, previous, random).value.data;
            var was, now := Get(KnownHashes(previous), username), Get(KnownHashes(data), username);
            && Made(derive, was, password, random, now)
            && Opens(derive, now, password)
            && (now == was <==> Opens(derive, was, password))
  {
    var e := HashEnv(utf8, derive);
    HashEnvValid(utf8, derive);
    StoredHash(e, derive, inputs, reserved, previous, random, username, password, acls);
    var now := Get(KnownHashes(Rendered(e, inputs, reserved, previous, random).value.data), username);
    VerifiesMeans(derive, now, password);
  }

  /** A changed password reaches the file. When PBKDF2 tells it from the one before under
      the salt that is stored, the next rendering replaces the stored hash, under a salt
      drawn from the random source, and the old password opens the new hash only if PBKDF2
      derives one key from both under that salt; so does any other password. */
  lemma ChangedPasswordReplacesHash(utf8: string -> bool, derive: Derive, inputs: seq<Input>, reserved: seq<Principal>,
                                    previous: Data, random: Bytes, username: string, password: string, acls: seq<Acl>,
                                    h: Parsed, before: string)
    returns (salt: Bytes)
    requires ExactLength(derive) && PrincipalsOk(reserved) && DistinctNames(inputs)
    requires Rendered(HashEnv(utf8, derive), inputs, reserved, previous, random).Ok?
    requires Entitled(HashEnv(utf8, derive), inputs, reserved, username, password, acls)
    requires ParseHash(Get(KnownHashes(previous), username)) == Some(h)
    requires derive(before, h.salt, h.iterations, |h.key|) == Some(h.key)
    requires derive(password, h.salt, h.iterations, |h.key|) != derive(before, h.salt, h.iterations, |h.key|)
    ensures var data := Rendered(HashEnv(utf8, derive), inputs, reserved, previous, random).value.data;
            var now := Get(KnownHashes(data), username);
            && now != Get(KnownHashes(previous), username)
            && Drawn(random, salt)
            && (exists key :: ParseHash(now) == Some(Parsed(1000, salt, key)) && derive(password, salt, 1000, 64) == Some(key))
            && (forall other :: Opens(derive, now, other) <==> derive(other, salt, 1000, 64) == derive(password, salt, 1000, 64))
  {
    HashFollowsPassword(utf8, derive, inputs, reserved, previous, random, username, password, acls);
    var data := Rendered(HashEnv(utf8, derive), inputs, reserved, previous, random).value.data;
    var now := Get(KnownHashes(data), username);
    assert !Opens(derive, Get(KnownHashes(previous), username), password);
    salt :| Drawn(random, salt) && Fresh(derive, now, password, salt);
    FreshOpens(derive, now, password, salt);
  }
}
