/** The $7$ PBKDF2-SHA512 password hashes: printing, parsing and verifying. */
module PasswordHash {
  import opened Text
  import opened Base64

  /** PBKDF2 with SHA-512 (section 5.2 of RFC 8018), by password, salt, iterations
      and key length. */
  type Derive = (string, Bytes, int, nat) -> Option<Bytes>

  /** PBKDF2 returns as many bytes as it is asked for. */
  ghost predicate ExactLength(derive: Derive) {
    forall pw, salt, iterations, n :: derive(pw, salt, iterations, n).Some? ==>
      |derive(pw, salt, iterations, n).value| == n
  }

  const HASH_ITERATIONS := 1000
  const SALT_LENGTH: nat := 64
  const KEY_LENGTH: nat := 64
  const HASH_PREFIX := "$7$"
  const MAX_INT := 0x7FFF_FFFF_FFFF_FFFF

  datatype Error = SaltUnreadable | KeyUnderivable | PrincipalRefused

  /** The outcome of an operation that reads salts from a random source, with what
      the source still holds. */
  datatype Outcome<+T> = Ok(value: T, rest: Bytes) | Failed(error: Error, rest: Bytes)

  datatype Parsed = Parsed(iterations: int, salt: Bytes, key: Bytes)

  // ------------------------------------------------------------------ decimals

  predicate IsDigit(c: char) { '0' <= c <= '9' }

  function DigitsValue(s: string): nat
    requires forall c :: c in s ==> IsDigit(c)
  {
    if s == "" then 0
    else
      var last := s[|s| - 1];
      assert last in s && IsDigit(last);
      10 * DigitsValue(s[..|s| - 1]) + (last as int - '0' as int)
  }

  /** strconv.Atoi on a 64-bit platform. */
  function Atoi(s: string): Option<int> {
    var negative := s != "" && s[0] == '-';
    var digits := if s != "" && (s[0] == '-' || s[0] == '+') then s[1..] else s;
    if digits == "" || exists c :: c in digits && !IsDigit(c) then None
    else
      var n: int := DigitsValue(digits);
      if negative then (if n <= MAX_INT + 1 then Some(-n) else None)
      else if n <= MAX_INT then Some(n) else None
  }

  lemma AtoiIterations()
    ensures Atoi("1000") == Some(HASH_ITERATIONS)
    ensures '$' !in "1000"
  {
    assert "1"[..0] == "" && "10"[..1] == "1" && "100"[..2] == "10" && "1000"[..3] == "100";
    assert DigitsValue("1") == 1;
    assert DigitsValue("10") == 10;
    assert DigitsValue("100") == 100;
    assert DigitsValue("1000") == 1000;
  }

  // ---------------------------------------------------------- print and parse

  function HashText(salt: Bytes, key: Bytes): string {
    HASH_PREFIX + "1000" + "$" + Encode(salt) + "$" + Encode(key)
  }

  /** parseHash. */
  function ParseHash(encoded: string): Option<Parsed> {
    if !HasPrefix(encoded, HASH_PREFIX) then None
    else
      var parts := Split(encoded[|HASH_PREFIX|..], '$');
      if |parts| != 3 then None
      else match (Atoi(parts[0]), Decode(parts[1]), Decode(parts[2]))
        case (Some(n), Some(salt), Some(key)) =>
          if n < 1 || salt == [] || key == [] then None else Some(Parsed(n, salt, key))
        case _ => None
  }

  lemma HashBodySplits(salt: Bytes, key: Bytes)
    ensures Split("1000" + "$" + (Encode(salt) + "$" + Encode(key)), '$') == ["1000", Encode(salt), Encode(key)]
  {
    EncodeAlphabet(salt);
    EncodeAlphabet(key);
    AtoiIterations();
    SplitNoSep(Encode(key), '$');
    SplitCons(Encode(salt), Encode(key), '$');
    SplitCons("1000", Encode(salt) + "$" + Encode(key), '$');
  }

  lemma HashOnOneLine(salt: Bytes, key: Bytes)
    ensures '\n' !in HashText(salt, key) && HashText(salt, key) != ""
  {
    EncodeAlphabet(salt);
    EncodeAlphabet(key);
  }

  /** A printed hash parses to what it was printed from. */
  lemma ParsePrinted(salt: Bytes, key: Bytes)
    requires salt != [] && key != []
    ensures ParseHash(HashText(salt, key)) == Some(Parsed(HASH_ITERATIONS, salt, key))
  {
    var body := "1000" + "$" + (Encode(salt) + "$" + Encode(key));
    assert HashText(salt, key) == HASH_PREFIX + body;
    HasPrefixConcat(HASH_PREFIX, body);
    HashBodySplits(salt, key);
    AtoiIterations();
    RoundTrip(salt);
    RoundTrip(key);
  }

  /** The three parts of a $7$ text, and what they say. */
  ghost predicate Reads(text: string, h: Parsed, count: string, salt: string, key: string) {
    && text == "$7$" + count + "$" + salt + "$" + key
    && '$' !in count && '$' !in salt && '$' !in key
    && Atoi(count) == Some(h.iterations) && h.iterations >= 1
    && Decode(salt) == Some(h.salt) && h.salt != []
    && Decode(key) == Some(h.key) && h.key != []
  }

  lemma SplitsInThree(text: string, count: string, salt: string, key: string)
    requires text == "$7$" + count + "$" + salt + "$" + key
    requires '$' !in count && '$' !in salt && '$' !in key
    ensures HasPrefix(text, HASH_PREFIX) && Split(text[|HASH_PREFIX|..], '$') == [count, salt, key]
  {
    var body := count + "$" + (salt + "$" + key);
    assert text == "$7$" + body;
    HasPrefixConcat(HASH_PREFIX, body);
    SplitNoSep(key, '$');
    SplitCons(salt, key, '$');
    SplitCons(count, salt + "$" + key, '$');
  }

  lemma IsOfThree(text: string)
    requires HasPrefix(text, HASH_PREFIX) && |Split(text[|HASH_PREFIX|..], '$')| == 3
    ensures var parts := Split(text[|HASH_PREFIX|..], '$');
            && text == "$7$" + parts[0] + "$" + parts[1] + "$" + parts[2]
            && '$' !in parts[0] && '$' !in parts[1] && '$' !in parts[2]
  {
    var body := text[|HASH_PREFIX|..];
    var parts := Split(body, '$');
    JoinSplit(body, '$');
    assert text == "$7$" + body;
    assert parts[1..][1..] == [parts[2]];
    assert Join(parts[1..], '$') == parts[1] + "$" + parts[2];
    assert body == parts[0] + "$" + (parts[1] + "$" + parts[2]);
  }

  /** Exactly which texts parse, and to what. */
  lemma ParsesExactly(text: string, h: Parsed)
    ensures ParseHash(text) == Some(h) <==> exists count, salt, key :: Reads(text, h, count, salt, key)
  {
    if ParseHash(text) == Some(h) {
      IsOfThree(text);
      var parts := Split(text[|HASH_PREFIX|..], '$');
      assert Reads(text, h, parts[0], parts[1], parts[2]);
    }
    if count, salt, key :| Reads(text, h, count, salt, key) {
      SplitsInThree(text, count, salt, key);
    }
  }

  // -------------------------------------------------------- hash and verify

  /** HashPassword: the salt is the next SALT_LENGTH bytes of the random source,
      and a source that runs dry is used up. */
  function HashPassword(derive: Derive, password: string, random: Bytes): Outcome<string> {
    if |random| < SALT_LENGTH then Failed(SaltUnreadable, [])
    else
      var salt, rest := random[..SALT_LENGTH], random[SALT_LENGTH..];
      match derive(password, salt, HASH_ITERATIONS, KEY_LENGTH)
      case None => Failed(KeyUnderivable, rest)
      case Some(key) => Ok(HashText(salt, key), rest)
  }

  /** VerifyPassword. */
  predicate VerifyPassword(derive: Derive, encoded: string, password: string) {
    match ParseHash(encoded)
    case None => false
    case Some(h) => derive(password, h.salt, h.iterations, |h.key|) == Some(h.key)
  }

  /** The password derives, under the salt and the iteration count that a $7$ text
      carries, the whole key that it carries. */
  ghost predicate Opens(derive: Derive, text: string, password: string) {
    exists h :: ParseHash(text) == Some(h) && derive(password, h.salt, h.iterations, |h.key|) == Some(h.key)
  }

  /** A password verifies against a text exactly when it opens it. */
  lemma VerifiesMeans(derive: Derive, text: string, password: string)
    ensures VerifyPassword(derive, text, password) <==> Opens(derive, text, password)
    ensures Opens(derive, text, password) ==> text != ""
  {
    if h :| ParseHash(text) == Some(h) && derive(password, h.salt, h.iterations, |h.key|) == Some(h.key) {
      assert HasPrefix(text, HASH_PREFIX);
    }
  }

  /** The text made for a password from a fresh salt: 64 bytes each of salt and key, and
      1000 iterations. */
  ghost predicate Fresh(derive: Derive, text: string, password: string, salt: Bytes) {
    && |salt| == 64
    && exists key :: derive(password, salt, 1000, 64) == Some(key) &&
                     text == "$7$1000$" + Encode(salt) + "$" + Encode(key)
  }

  /** A fresh text opens to its own password, and to another one exactly when that derives
      the same key under the fresh salt. */
  lemma FreshOpens(derive: Derive, text: string, password: string, salt: Bytes)
    requires ExactLength(derive) && Fresh(derive, text, password, salt)
    ensures exists key :: ParseHash(text) == Some(Parsed(1000, salt, key)) && derive(password, salt, 1000, 64) == Some(key)
    ensures Opens(derive, text, password)
    ensures forall other :: Opens(derive, text, other) <==> derive(other, salt, 1000, 64) == derive(password, salt, 1000, 64)
  {
    var key :| derive(password, salt, 1000, 64) == Some(key) && text == "$7$1000$" + Encode(salt) + "$" + Encode(key);
    assert text == HashText(salt, key);
    ParsePrinted(salt, key);
    assert ParseHash(text) == Some(Parsed(1000, salt, key));
  }

  /** keepOrHash. */
  function KeepOrHash(derive: Derive, previous: string, password: string, random: Bytes): Outcome<string> {
    if previous != "" && VerifyPassword(derive, previous, password) then Ok(previous, random)
    else HashPassword(derive, password, random)
  }

  /** Whatever was known before, the hash a password gets verifies that password,
      is kept by every later call at no cost in randomness, and fits on one line
      when the known one did. */
  lemma KeptForever(derive: Derive, previous: string, password: string, random: Bytes, later: Bytes)
    requires ExactLength(derive)
    requires '\n' !in previous
    requires KeepOrHash(derive, previous, password, random).Ok?
    ensures var hash := KeepOrHash(derive, previous, password, random).value;
            && '\n' !in hash
            && hash != ""
            && VerifyPassword(derive, hash, password)
            && KeepOrHash(derive, hash, password, later) == Ok(hash, later)
  {
    if !(previous != "" && VerifyPassword(derive, previous, password)) {
      var salt := random[..SALT_LENGTH];
      var key := derive(password, salt, HASH_ITERATIONS, KEY_LENGTH).value;
      ParsePrinted(salt, key);
      HashOnOneLine(salt, key);
    }
  }

  // -------------------------------------------------- reading the random source

  /** An io.Reader of random bytes. */
  class Random {
    var stream: Bytes

    constructor (bytes: Bytes)
      ensures stream == bytes
    {
      stream := bytes;
    }

    /** io.ReadFull. */
    method ReadFull(n: nat) returns (r: Option<Bytes>)
      modifies this
      ensures |old(stream)| >= n ==> r == Some(old(stream)[..n]) && stream == old(stream)[n..]
      ensures |old(stream)| < n ==> r == None && stream == []
    {
      if |stream| < n {
        stream := [];
        return None;
      }
      r := Some(stream[..n]);
      stream := stream[n..];
    }
  }

  /** HashPassword and keepOrHash, reading the salt from a random source. */
  method KeepOrHashFrom(derive: Derive, previous: string, password: string, random: Random)
    returns (r: Outcome<string>)
    modifies random
    ensures r == KeepOrHash(derive, previous, password, old(random.stream))
    ensures r.rest == random.stream
    ensures Opens(derive, previous, password) ==> r == Ok(previous, old(random.stream))
    ensures !Opens(derive, previous, password) && |old(random.stream)| < 64 ==> r == Failed(SaltUnreadable, [])
    ensures !Opens(derive, previous, password) && |old(random.stream)| >= 64 ==>
              var salt := old(random.stream)[..64];
              && random.stream == old(random.stream)[64..]
              && (r.Ok? <==> derive(password, salt, 1000, 64).Some?)
              && (r.Ok? ==> Fresh(derive, r.value, password, salt))
              && (r.Failed? ==> r.error == KeyUnderivable)
  {
    VerifiesMeans(derive, previous, password);
    if previous != "" && VerifyPassword(derive, previous, password) {
      return Ok(previous, random.stream);
    }
    var salt := random.ReadFull(SALT_LENGTH);
    if salt.None? {
      return Failed(SaltUnreadable, random.stream);
    }
    match derive(password, salt.value, HASH_ITERATIONS, KEY_LENGTH) {
      case None => r := Failed(KeyUnderivable, random.stream);
      case Some(key) => r := Ok(HashText(salt.value, key), random.stream);
    }
  }
}
