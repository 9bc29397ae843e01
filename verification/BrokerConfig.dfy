/** The generated mosquitto.conf and the allowlist spec.config has to pass. */
module BrokerConfig {
  import opened Text
  import opened PasswordHash
  import Files

  // ------------------------------------------------------------ words of a line

  /** The first word of a string that does not begin with white space. */
  function Word(s: string): string {
    if s == "" || IsSpace(s[0]) then "" else [s[0]] + Word(s[1..])
  }

  lemma {:induction false} WordIsPrefix(s: string)
    ensures |Word(s)| <= |s| && s[..|Word(s)|] == Word(s)
    ensures forall c :: c in Word(s) ==> !IsSpace(c)
    ensures s != "" && !IsSpace(s[0]) ==> Word(s) != ""
  {
    if s != "" && !IsSpace(s[0]) { WordIsPrefix(s[1..]); }
  }

  lemma {:induction false} TrimLeftShortens(s: string)
    ensures |TrimLeft(s)| <= |s|
    ensures TrimLeft(s) != "" ==> !IsSpace(TrimLeft(s)[0])
    ensures TrimLeft(s) == "" <==> forall c :: c in s ==> IsSpace(c)
  {
    if s != "" && IsSpace(s[0]) {
      TrimLeftShortens(s[1..]);
      assert s == [s[0]] + s[1..];
    }
  }

  /** strings.Fields. */
  function Fields(s: string): seq<string>
    decreases |s|
  {
    var t := TrimLeft(s);
    TrimLeftShortens(s);
    WordIsPrefix(t);
    if t == "" then [] else [Word(t)] + Fields(t[|Word(t)|..])
  }

  /** Whether a line says anything: it has words and is not a comment. */
  predicate Speaks(line: string) {
    var f := Fields(line);
    f != [] && !HasPrefix(f[0], "#")
  }

  /** The directives of a configuration's lines, each as its words. */
  function Directives(lines: seq<string>): seq<seq<string>> {
    if lines == [] then []
    else (if Speaks(lines[0]) then [Fields(lines[0])] else []) + Directives(lines[1..])
  }

  function DirectivesOf(text: string): seq<seq<string>> { Directives(Split(text, '\n')) }

  // ------------------------------------------------------------- the validator

  /** AllowedConfigDirectives. */
  const ALLOWED: set<string> := {
    "autosave_interval", "autosave_on_changes", "connection_messages", "global_max_clients",
    "global_max_connections", "log_timestamp", "log_timestamp_format", "log_type", "max_connections",
    "max_inflight_bytes", "max_inflight_messages", "max_keepalive", "max_packet_size", "max_qos",
    "max_queued_bytes", "max_queued_messages", "max_topic_alias", "max_topic_alias_broker", "memory_limit",
    "persistent_client_expiration", "queue_qos0_messages", "retain_available", "retain_expiry_interval",
    "set_tcp_nodelay", "sys_interval", "upgrade_outgoing_qos"
  }

  predicate LineAllowed(line: string) { Speaks(line) ==> Fields(line)[0] in ALLOWED }

  /** ValidateSpecConfig: the first refused line from i on, or None. */
  function FirstRefused(lines: seq<string>, i: nat): Option<nat>
    requires i <= |lines|
    decreases |lines| - i
  {
    if i == |lines| then None
    else if !LineAllowed(lines[i]) then Some(i)
    else FirstRefused(lines, i + 1)
  }

  function ValidateSpecConfig(config: string): Option<nat> { FirstRefused(Split(config, '\n'), 0) }

  /** The validator names the first line that is not allowed, and accepts exactly when
      there is none. */
  lemma {:induction false} FirstRefusedIsFirst(lines: seq<string>, i: nat)
    requires i <= |lines|
    ensures match FirstRefused(lines, i)
            case None => forall j :: i <= j < |lines| ==> LineAllowed(lines[j])
            case Some(n) => i <= n < |lines| && !LineAllowed(lines[n]) && forall j :: i <= j < n ==> LineAllowed(lines[j])
    decreases |lines| - i
  {
    if i < |lines| && LineAllowed(lines[i]) { FirstRefusedIsFirst(lines, i + 1); }
  }

  // ------------------------------------------------------------- the generator

  /** The wording of the comment lines, by number. */
  type Wording = nat -> string

  ghost predicate OneLine(wording: Wording) { forall n :: '\n' !in wording(n) }

  /** A line of the generated file. */
  datatype Line = Blank | Note(n: nat) | Say(words: seq<string>)

  function LineText(l: Line, wording: Wording): string {
    match l
    case Blank => ""
    case Note(n) => "# " + wording(n)
    case Say(words) => Join(words, ' ')
  }

  // Long words are put together from short ones: the proofs about them look at every
  // character of a literal, and go through the parts one by one.
  const AUTH_MOUNT := "/mosquitto" + "/auth"
  const TLS_MOUNT := "/mosquitto" + "/tls"
  const PASSWORD_PLUGIN := "/usr/lib" + "/mosquitto_" + "password_file.so"
  const ACL_PLUGIN := "/usr/lib" + "/mosquitto_" + "acl_file.so"

  const HEAD: seq<Line> := [
    Note(0), Note(1), Blank,
    Note(2), Say(["log_dest", "stdout"]), Say(["log_type", "error"]), Say(["log_type", "warning"]),
    Say(["log_type", "notice"]), Say(["log_type", "information"]), Blank
  ]

  const STORE: seq<Line> := [
    Note(3), Note(4), Say(["persistence", "true"]), Say(["persistence_location", "/mosquitto/data/"]), Blank,
    Note(5), Note(6), Note(7), Say(["sys_interval", "10"]), Say(["max_packet_size", "2000000"]), Blank
  ]

  const USERS: seq<Line> := [
    Note(8), Note(9), Note(10),
    Say(["plugin_load", "pwfile", PASSWORD_PLUGIN]), Say(["plugin_opt_" + "password_file", AUTH_MOUNT + "/passwd"]),
    Say(["plugin_load", "aclfile", ACL_PLUGIN]), Say(["plugin_opt_" + "acl_file", AUTH_MOUNT + "/acl"]), Blank
  ]

  const TLS_LISTENER: seq<Line> := [
    Note(11), Note(12), Say(["listener", "8883"]),
    Say(["certfile", TLS_MOUNT + "/tls.crt"]), Say(["keyfile", TLS_MOUNT + "/tls.key"])
  ]

  const PLAIN_LISTENER: seq<Line> := [Note(13), Say(["listener", "1883"])]

  const ACCESS: seq<Line> := [
    Say(["listener_allow_" + "anonymous", "false"]), Note(14), Note(15),
    Say(["use_username_" + "as_clientid", "true"]), Say(["plugin_use", "pwfile"]), Say(["plugin_use", "aclfile"]), Blank
  ]

  const APPENDED := Note(16)

  function Fixed(tls: bool): seq<Line> {
    HEAD + STORE + USERS + (if tls then TLS_LISTENER else PLAIN_LISTENER) + ACCESS
  }

  function Texts(lines: seq<Line>, wording: Wording): seq<string> {
    if lines == [] then [] else [LineText(lines[0], wording)] + Texts(lines[1..], wording)
  }

  /** strings.TrimRight(s, "\n"). */
  function TrimNewlines(s: string): string {
    if s != "" && s[|s| - 1] == '\n' then TrimNewlines(s[..|s| - 1]) else s
  }

  /** What spec.config adds to the file. */
  function Appended(config: string, wording: Wording): seq<string> {
    if TrimSpace(config) != "" then [LineText(APPENDED, wording), TrimNewlines(config), ""] else []
  }

  /** GenerateMosquittoConf. */
  function Conf(tls: bool, config: string, wording: Wording): string {
    Join(Texts(Fixed(tls), wording) + Appended(config, wording), '\n')
  }

  /** BrokerPort. */
  function BrokerPort(tls: bool): int { if tls then 8883 else 1883 }

  method GenerateConf(tls: bool, config: string, wording: Wording) returns (text: string)
    ensures text == Conf(tls, config, wording)
    ensures OneLine(wording) && ValidateSpecConfig(config) == None ==> Closed(text, tls)
  {
    if OneLine(wording) && ValidateSpecConfig(config) == None { AcceptedConfigIsClosed(tls, config, wording); }
    ghost var head := HEAD + STORE + USERS;
    var lines := Texts(HEAD + STORE + USERS, wording);
    if tls {
      lines := lines + Texts(TLS_LISTENER, wording);
    } else {
      lines := lines + Texts(PLAIN_LISTENER, wording);
    }
    TextsAppend(head, if tls then TLS_LISTENER else PLAIN_LISTENER, wording);
    TextsAppend(head + (if tls then TLS_LISTENER else PLAIN_LISTENER), ACCESS, wording);
    lines := lines + Texts(ACCESS, wording);
    assert lines == Texts(Fixed(tls), wording);
    assert lines + [] == lines;
    if TrimSpace(config) != "" {
      lines := lines + [LineText(APPENDED, wording), TrimNewlines(config), ""];
    }
    text := Join(lines, '\n');
  }

  // ------------------------------------------------------------ reading it back

  lemma {:induction false} TextsAppend(a: seq<Line>, b: seq<Line>, wording: Wording)
    ensures Texts(a + b, wording) == Texts(a, wording) + Texts(b, wording)
  {
    if a == [] {
      assert a + b == b;
    } else {
      assert (a + b)[1..] == a[1..] + b;
      TextsAppend(a[1..], b, wording);
    }
  }

  lemma {:induction false} DirectivesAppend(a: seq<string>, b: seq<string>)
    ensures Directives(a + b) == Directives(a) + Directives(b)
  {
    if a == [] {
      assert a + b == b;
    } else {
      assert (a + b)[1..] == a[1..] + b;
      DirectivesAppend(a[1..], b);
    }
  }

  /** Splitting distributes over any separator in the text. */
  lemma {:induction false} SplitGlue(a: string, b: string, sep: char)
    ensures Split(a + [sep] + b, sep) == Split(a, sep) + Split(b, sep)
  {
    var s := a + [sep] + b;
    if a == "" {
      assert s[1..] == b;
    } else {
      assert s[1..] == a[1..] + [sep] + b;
      SplitGlue(a[1..], b, sep);
    }
  }

  /** Splitting joined parts splits each part. */
  function SplitAll(parts: seq<string>, sep: char): seq<string> {
    if parts == [] then [] else Split(parts[0], sep) + SplitAll(parts[1..], sep)
  }

  lemma {:induction false} SplitJoinAll(parts: seq<string>, sep: char)
    requires parts != []
    ensures Split(Join(parts, sep), sep) == SplitAll(parts, sep)
  {
    if |parts| == 1 {
      assert SplitAll(parts[1..], sep) == [];
    } else {
      SplitJoinAll(parts[1..], sep);
      SplitGlue(parts[0], Join(parts[1..], sep), sep);
    }
  }

  lemma {:induction false} SplitAllAppend(a: seq<string>, b: seq<string>, sep: char)
    ensures SplitAll(a + b, sep) == SplitAll(a, sep) + SplitAll(b, sep)
  {
    if a == [] {
      assert a + b == b;
    } else {
      assert (a + b)[1..] == a[1..] + b;
      SplitAllAppend(a[1..], b, sep);
    }
  }

  predicate PlainWord(w: string) { w != "" && forall c :: c in w ==> !IsSpace(c) }

  /** Lines that read back as what they are. */
  predicate PlainLine(l: Line) {
    l.Say? ==> l.words != [] && (forall w :: w in l.words ==> PlainWord(w)) && l.words[0] != "" && l.words[0][0] != '#'
  }

  lemma {:induction false} WordEnds(w: string, tail: string)
    requires PlainWord(w) && (tail == "" || IsSpace(tail[0]))
    ensures Word(w + tail) == w
  {
    var s := w + tail;
    assert w[0] in w;
    if |w| == 1 {
      assert s[1..] == tail;
    } else {
      assert s[1..] == w[1..] + tail;
      assert forall c :: c in w[1..] ==> c in w;
      WordEnds(w[1..], tail);
    }
  }

  lemma {:induction false} FieldsOfWords(words: seq<string>)
    requires words != [] && forall w :: w in words ==> PlainWord(w)
    ensures Fields(Join(words, ' ')) == words
    ensures '\n' !in Join(words, ' ')
  {
    var w := words[0];
    assert w in words && w[0] in w;
    var s := Join(words, ' ');
    if |words| == 1 {
      WordEnds(w, "");
      assert w + "" == w;
      assert TrimLeft(s) == s;
      assert s[|w|..] == "";
      assert words == [w];
    } else {
      var tail := Join(words[1..], ' ');
      FieldsOfWords(words[1..]);
      WordEnds(w, [' '] + tail);
      assert s == w + ([' '] + tail);
      assert TrimLeft(s) == s;
      assert s[|w|..] == [' '] + tail;
      FieldsSkip(tail);
      assert words == [w] + words[1..];
    }
  }

  lemma FieldsSkip(s: string)
    ensures Fields([' '] + s) == Fields(s)
  {
  }

  lemma NoteIsSilent(text: string)
    ensures !Speaks("# " + text)
  {
  }

  /** The words of the lines that say something. */
  function Said(lines: seq<Line>): seq<seq<string>> {
    if lines == [] then []
    else (if lines[0].Say? then [lines[0].words] else []) + Said(lines[1..])
  }

  lemma PlainLineReads(l: Line, wording: Wording)
    requires PlainLine(l) && OneLine(wording)
    ensures Split(LineText(l, wording), '\n') == [LineText(l, wording)]
    ensures Speaks(LineText(l, wording)) <==> l.Say?
    ensures l.Say? ==> Fields(LineText(l, wording)) == l.words
  {
    match l {
      case Blank => assert Fields("") == [];
      case Note(n) => NoteIsSilent(wording(n));
      case Say(words) =>
        FieldsOfWords(words);
        assert words[0][..1][0] == words[0][0];
    }
    SplitNoSep(LineText(l, wording), '\n');
  }

  lemma {:induction false} PlainLinesRead(lines: seq<Line>, wording: Wording)
    requires OneLine(wording) && forall l :: l in lines ==> PlainLine(l)
    ensures Directives(SplitAll(Texts(lines, wording), '\n')) == Said(lines)
  {
    if lines != [] {
      var l := lines[0];
      assert l in lines;
      PlainLineReads(l, wording);
      PlainLinesRead(lines[1..], wording);
      var texts := Texts(lines, wording);
      var text := LineText(l, wording);
      assert texts[0] == text && texts[1..] == Texts(lines[1..], wording);
      assert SplitAll(texts, '\n') == [text] + SplitAll(texts[1..], '\n');
      assert ([text] + SplitAll(texts[1..], '\n'))[1..] == SplitAll(texts[1..], '\n');
    }
  }

  // ----------------------------------------------------- the fixed lines are plain

  lemma PlainConcat(a: string, b: string)
    requires PlainWord(a) && PlainWord(b)
    ensures PlainWord(a + b)
  {
  }

  lemma Plain2(a: string, b: string)
    requires PlainWord(a) && PlainWord(b) && a[0] != '#'
    ensures PlainLine(Say([a, b]))
  {
  }

  lemma Plain3(a: string, b: string, c: string)
    requires PlainWord(a) && PlainWord(b) && PlainWord(c) && a[0] != '#'
    ensures PlainLine(Say([a, b, c]))
  {
  }

  lemma HeadPlain()
    ensures forall l :: l in HEAD ==> PlainLine(l)
  {
    Plain2("log_dest", "stdout");
    Plain2("log_type", "error");
    Plain2("log_type", "warning");
    Plain2("log_type", "notice");
    Plain2("log_type", "information");
  }

  lemma StorePlain()
    ensures forall l :: l in STORE ==> PlainLine(l)
  {
    PersistencePlain();
    LimitsPlain();
  }

  lemma PersistencePlain()
    ensures PlainLine(Say(["persistence", "true"]))
    ensures PlainLine(Say(["persistence_location", "/mosquitto/data/"]))
  {
    Plain2("persistence", "true");
    Plain2("persistence_location", "/mosquitto/data/");
  }

  lemma LimitsPlain()
    ensures PlainLine(Say(["sys_interval", "10"]))
    ensures PlainLine(Say(["max_packet_size", "2000000"]))
  {
    Plain2("sys_interval", "10");
    Plain2("max_packet_size", "2000000");
  }

  lemma MountsPlain()
    ensures PlainWord(AUTH_MOUNT) && PlainWord(TLS_MOUNT)
  {
  }

  lemma PluginsPlain()
    ensures PlainWord(PASSWORD_PLUGIN) && PlainWord(ACL_PLUGIN)
  {
    PlainConcat("/usr/lib", "/mosquitto_");
    PlainConcat("/usr/lib" + "/mosquitto_", "password_file.so");
    PlainConcat("/usr/lib" + "/mosquitto_", "acl_file.so");
  }

  lemma PasswordFilePlain()
    ensures PlainLine(Say(["plugin_load", "pwfile", PASSWORD_PLUGIN]))
    ensures PlainLine(Say(["plugin_opt_" + "password_file", AUTH_MOUNT + "/passwd"]))
  {
    PluginsPlain();
    MountsPlain();
    PlainConcat(AUTH_MOUNT, "/passwd");
    PlainConcat("plugin_opt_", "password_file");
    Plain3("plugin_load", "pwfile", PASSWORD_PLUGIN);
    Plain2("plugin_opt_" + "password_file", AUTH_MOUNT + "/passwd");
  }

  lemma AclFilePlain()
    ensures PlainLine(Say(["plugin_load", "aclfile", ACL_PLUGIN]))
    ensures PlainLine(Say(["plugin_opt_" + "acl_file", AUTH_MOUNT + "/acl"]))
  {
    PluginsPlain();
    MountsPlain();
    PlainConcat(AUTH_MOUNT, "/acl");
    PlainConcat("plugin_opt_", "acl_file");
    Plain3("plugin_load", "aclfile", ACL_PLUGIN);
    Plain2("plugin_opt_" + "acl_file", AUTH_MOUNT + "/acl");
  }

  lemma UsersPlain()
    ensures forall l :: l in USERS ==> PlainLine(l)
  {
    PasswordFilePlain();
    AclFilePlain();
  }

  lemma ListenerLinePlain(port: string)
    requires port == "8883" || port == "1883"
    ensures PlainLine(Say(["listener", port]))
  {
  }

  lemma CertificatePlain()
    ensures PlainLine(Say(["certfile", TLS_MOUNT + "/tls.crt"]))
    ensures PlainLine(Say(["keyfile", TLS_MOUNT + "/tls.key"]))
  {
    MountsPlain();
    PlainConcat(TLS_MOUNT, "/tls.crt");
    PlainConcat(TLS_MOUNT, "/tls.key");
    Plain2("certfile", TLS_MOUNT + "/tls.crt");
    Plain2("keyfile", TLS_MOUNT + "/tls.key");
  }

  lemma ListenerPlain()
    ensures forall l :: l in TLS_LISTENER ==> PlainLine(l)
    ensures forall l :: l in PLAIN_LISTENER ==> PlainLine(l)
  {
    ListenerLinePlain("8883");
    ListenerLinePlain("1883");
    CertificatePlain();
  }

  lemma IdentityPlain()
    ensures PlainLine(Say(["listener_allow_" + "anonymous", "false"]))
    ensures PlainLine(Say(["use_username_" + "as_clientid", "true"]))
  {
    PlainConcat("listener_allow_", "anonymous");
    PlainConcat("use_username_", "as_clientid");
    Plain2("listener_allow_" + "anonymous", "false");
    Plain2("use_username_" + "as_clientid", "true");
  }

  lemma PluginUsePlain()
    ensures PlainLine(Say(["plugin_use", "pwfile"]))
    ensures PlainLine(Say(["plugin_use", "aclfile"]))
  {
  }

  lemma AccessPlain()
    ensures forall l :: l in ACCESS ==> PlainLine(l)
  {
    IdentityPlain();
    PluginUsePlain();
  }

  lemma FixedPlain(tls: bool)
    ensures forall l :: l in Fixed(tls) ==> PlainLine(l)
  {
    HeadPlain();
    StorePlain();
    UsersPlain();
    ListenerPlain();
    AccessPlain();
  }

  // ------------------------------------------------------------------ spec.config

  lemma BlankSpeaksNot(s: string)
    requires forall c :: c in s ==> IsSpace(c)
    ensures !Speaks(s)
  {
    TrimLeftShortens(s);
  }

  lemma {:induction false} BlankLinesSpeakNot(lines: seq<string>)
    requires forall l, c :: l in lines && c in l ==> IsSpace(c)
    ensures Directives(lines) == []
  {
    if lines != [] {
      assert lines[0] in lines;
      BlankSpeaksNot(lines[0]);
      BlankLinesSpeakNot(lines[1..]);
    }
  }

  lemma {:induction false} SplitMembers(s: string, sep: char)
    ensures forall l, c :: l in Split(s, sep) && c in l ==> c in s
  {
    if s != "" {
      SplitMembers(s[1..], sep);
      var rest := Split(s[1..], sep);
      forall l, c | l in Split(s, sep) && c in l ensures c in s {
        if l in rest {
          assert c in s[1..];
        } else if s[0] != sep {
          assert l == [s[0]] + rest[0];
          assert rest[0] in rest;
        }
      }
    }
  }

  lemma {:induction false} TrimRightBlank(s: string)
    ensures TrimRight(s) == "" ==> forall c :: c in s ==> IsSpace(c)
  {
    if s != "" && IsSpace(s[|s| - 1]) {
      TrimRightBlank(s[..|s| - 1]);
      assert s == s[..|s| - 1] + [s[|s| - 1]];
    }
  }

  lemma BlankConfig(config: string)
    requires TrimSpace(config) == ""
    ensures DirectivesOf(config) == []
  {
    var t := TrimLeft(config);
    TrimRightBlank(t);
    assert forall i :: 0 <= i < |t| ==> IsSpace(t[i]);
    TrimLeftShortens(config);
    SplitMembers(config, '\n');
    BlankLinesSpeakNot(Split(config, '\n'));
  }

  lemma EmptyLineSilent()
    ensures Split("", '\n') == [""] && Directives([""]) == []
  {
  }

  lemma FinalNewline(s: string)
    ensures DirectivesOf(s + "\n") == DirectivesOf(s)
  {
    assert s + "\n" == s + ['\n'] + "";
    SplitGlue(s, "", '\n');
    EmptyLineSilent();
    DirectivesAppend(Split(s, '\n'), [""]);
  }

  lemma {:induction false} TrimmedConfig(config: string)
    ensures DirectivesOf(TrimNewlines(config)) == DirectivesOf(config)
  {
    if config != "" && config[|config| - 1] == '\n' {
      var init := config[..|config| - 1];
      calc {
        DirectivesOf(TrimNewlines(config));
        DirectivesOf(TrimNewlines(init));
        { TrimmedConfig(init); }
        DirectivesOf(init);
        { FinalNewline(init); }
        DirectivesOf(init + "\n");
        { assert config == init + "\n"; }
        DirectivesOf(config);
      }
    }
  }

  lemma AppendedReads(config: string, wording: Wording)
    requires OneLine(wording)
    ensures Directives(SplitAll(Appended(config, wording), '\n')) == DirectivesOf(config)
  {
    if TrimSpace(config) == "" {
      BlankConfig(config);
    } else {
      var note, body := LineText(APPENDED, wording), TrimNewlines(config);
      PlainLineReads(APPENDED, wording);
      BlankSpeaksNot("");
      SplitNoSep("", '\n');
      TrimmedConfig(config);
      var three := [note, body, ""];
      assert three[1..] == [body, ""] && [body, ""][1..] == [""] && [""][1..] == [];
      assert SplitAll([""], '\n') == [""] + SplitAll([], '\n') == [""];
      assert SplitAll([body, ""], '\n') == Split(body, '\n') + [""];
      assert SplitAll(three, '\n') == [note] + (Split(body, '\n') + [""]);
      DirectivesAppend(Split(body, '\n'), [""]);
      DirectivesAppend([note], Split(body, '\n') + [""]);
      assert Directives([""]) == [];
      assert Directives([note]) == [] by { assert [note][1..] == []; }
    }
  }

  /** Reading the generated file gives the fixed directives in order, then those of
      spec.config in order, and nothing else, whatever spec.config is. */
  lemma ConfSays(tls: bool, config: string, wording: Wording)
    requires OneLine(wording)
    ensures DirectivesOf(Conf(tls, config, wording)) == Said(Fixed(tls)) + DirectivesOf(config)
  {
    var fixed := Texts(Fixed(tls), wording);
    var tail := Appended(config, wording);
    assert fixed != [];
    SplitJoinAll(fixed + tail, '\n');
    SplitAllAppend(fixed, tail, '\n');
    DirectivesAppend(SplitAll(fixed, '\n'), SplitAll(tail, '\n'));
    FixedPlain(tls);
    PlainLinesRead(Fixed(tls), wording);
    AppendedReads(config, wording);
  }

  /** A directive of the allowlist. */
  predicate Tunes(d: seq<string>) { d != [] && d[0] in ALLOWED }

  lemma {:induction false} AllowedLines(lines: seq<string>)
    requires forall j :: 0 <= j < |lines| ==> LineAllowed(lines[j])
    ensures forall d :: d in Directives(lines) ==> Tunes(d)
  {
    if lines != [] { AllowedLines(lines[1..]); }
  }

  lemma {:induction false} LineIsSaid(lines: seq<string>, j: nat)
    requires j < |lines| && Speaks(lines[j])
    ensures Fields(lines[j]) in Directives(lines)
  {
    if j > 0 { LineIsSaid(lines[1..], j - 1); }
  }

  /** A line that says something else than a directive of the allowlist. */
  predicate Meddles(line: string) { Speaks(line) && !Tunes(Fields(line)) }

  /** Line n of spec.config, counted from 0, is its first that meddles. */
  ghost predicate FirstMeddling(config: string, n: nat) {
    var lines := Split(config, '\n');
    n < |lines| && Meddles(lines[n]) && forall j :: 0 <= j < n ==> !Meddles(lines[j])
  }

  /** The validator accepts exactly when every directive of spec.config is on the allowlist,
      and otherwise names the first line that is not. */
  lemma ValidatorMeans(config: string)
    ensures ValidateSpecConfig(config) == None <==> forall d :: d in DirectivesOf(config) ==> Tunes(d)
    ensures forall n: nat :: ValidateSpecConfig(config) == Some(n) <==> FirstMeddling(config, n)
  {
    var lines := Split(config, '\n');
    FirstRefusedIsFirst(lines, 0);
    assert forall l :: Meddles(l) <==> !LineAllowed(l);
    if ValidateSpecConfig(config) == None {
      AllowedLines(lines);
    } else {
      var k := ValidateSpecConfig(config).value;
      LineIsSaid(lines, k);
      forall n: nat ensures n == k <==> FirstMeddling(config, n) {
        if FirstMeddling(config, n) { assert !(n < k) && !(k < n); }
      }
    }
  }

  /** Told apart from every other first word by its length and second letter. */
  predicate LikeListener(w: string) { |w| == 8 && w[1] == 'i' }

  lemma ListenerNotAllowed()
    ensures forall w :: w in ALLOWED ==> !LikeListener(w)
  {
  }

  /** The directives that open a listener. */
  function Listeners(ds: seq<seq<string>>): seq<seq<string>> {
    if ds == [] then []
    else (if ds[0] != [] && ds[0][0] == "listener" then [ds[0]] else []) + Listeners(ds[1..])
  }

  lemma {:induction false} ListenersAppend(a: seq<seq<string>>, b: seq<seq<string>>)
    ensures Listeners(a + b) == Listeners(a) + Listeners(b)
  {
    if a == [] {
      assert a + b == b;
    } else {
      assert (a + b)[1..] == a[1..] + b;
      ListenersAppend(a[1..], b);
    }
  }

  lemma {:induction false} NoListeners(ds: seq<seq<string>>)
    requires forall d :: d in ds ==> d != [] && !LikeListener(d[0])
    ensures Listeners(ds) == []
  {
    if ds != [] {
      assert ds[0] in ds;
      assert LikeListener("listener");
      forall d | d in ds[1..] ensures d != [] && !LikeListener(d[0]) { assert d in ds; }
      NoListeners(ds[1..]);
    }
  }

  predicate NoListenerLine(l: Line) { l.Say? ==> l.words != [] && !LikeListener(l.words[0]) }

  lemma {:induction false} SilentLines(lines: seq<Line>)
    requires forall l :: l in lines ==> NoListenerLine(l)
    ensures Listeners(Said(lines)) == []
  {
    if lines != [] {
      assert lines[0] in lines;
      assert LikeListener("listener");
      SilentLines(lines[1..]);
      var ds := Said(lines);
      if lines[0].Say? {
        assert ds[0] == lines[0].words && ds[1..] == Said(lines[1..]);
        assert ds[0][0] != "listener";
      } else {
        assert ds == Said(lines[1..]);
      }
    }
  }

  lemma {:induction false} SaidAppend(a: seq<Line>, b: seq<Line>)
    ensures Said(a + b) == Said(a) + Said(b)
  {
    if a == [] {
      assert a + b == b;
    } else {
      assert (a + b)[1..] == a[1..] + b;
      SaidAppend(a[1..], b);
    }
  }

  lemma SaidOne(words: seq<string>)
    ensures Said([Say(words)]) == [words]
  {
  }

  lemma OpensOne(before: seq<Line>, words: seq<string>, after: seq<Line>)
    requires forall l :: l in before ==> NoListenerLine(l)
    requires forall l :: l in after ==> NoListenerLine(l)
    requires words != [] && words[0] == "listener"
    ensures Listeners(Said(before + [Say(words)] + after)) == [words]
  {
    SaidAppend(before + [Say(words)], after);
    SaidAppend(before, [Say(words)]);
    SaidOne(words);
    ListenersAppend(Said(before) + [words], Said(after));
    ListenersAppend(Said(before), [words]);
    SilentLines(before);
    SilentLines(after);
    assert [words][1..] == [];
    assert Listeners([words]) == [words];
  }

  lemma HeadsOpenNothing()
    ensures forall l :: l in HEAD ==> NoListenerLine(l)
    ensures forall l :: l in STORE ==> NoListenerLine(l)
    ensures forall l :: l in USERS ==> NoListenerLine(l)
  {
  }

  lemma TailsOpenNothing()
    ensures forall l :: l in ACCESS ==> NoListenerLine(l)
    ensures forall l :: l in TLS_LISTENER[3..] ==> NoListenerLine(l)
  {
  }

  function PortText(tls: bool): string { if tls then "8883" else "1883" }

  lemma PortTextReads(tls: bool)
    ensures Atoi(PortText(tls)) == Some(BrokerPort(tls))
  {
    assert "1"[..0] == "" && "18"[..1] == "1" && "188"[..2] == "18" && "1883"[..3] == "188";
    assert "8"[..0] == "" && "88"[..1] == "8" && "888"[..2] == "88" && "8883"[..3] == "888";
    assert DigitsValue("1") == 1 && DigitsValue("18") == 18 && DigitsValue("188") == 188;
    assert DigitsValue("8") == 8 && DigitsValue("88") == 88 && DigitsValue("888") == 888;
    assert DigitsValue("1883") == 1883 && DigitsValue("8883") == 8883;
  }

  lemma FixedOpensOne(tls: bool)
    ensures Listeners(Said(Fixed(tls))) == [["listener", PortText(tls)]]
  {
    HeadsOpenNothing();
    TailsOpenNothing();
    var words := ["listener", PortText(tls)];
    var before := HEAD + STORE + USERS + (if tls then TLS_LISTENER[..2] else PLAIN_LISTENER[..1]);
    var after := (if tls then TLS_LISTENER[3..] else []) + ACCESS;
    assert TLS_LISTENER[..2] == [Note(11), Note(12)] && PLAIN_LISTENER[..1] == [Note(13)];
    assert (if tls then TLS_LISTENER else PLAIN_LISTENER) ==
      (if tls then TLS_LISTENER[..2] else PLAIN_LISTENER[..1]) + [Say(words)] + (if tls then TLS_LISTENER[3..] else []);
    assert Fixed(tls) == before + [Say(words)] + after;
    OpensOne(before, words, after);
  }

  /** For every accepted spec.config, the generated file says its fixed directives in
      order and then only directives of the allowlist, and it opens exactly one
      listener, on the broker's port. */
  lemma AcceptedConfigOnlyTunes(tls: bool, config: string, wording: Wording)
    requires OneLine(wording)
    requires ValidateSpecConfig(config) == None
    ensures var said := DirectivesOf(Conf(tls, config, wording));
            && Said(Fixed(tls)) <= said
            && said[|Said(Fixed(tls))|..] == DirectivesOf(config)
            && (forall d :: d in DirectivesOf(config) ==> Tunes(d))
            && |Listeners(said)| == 1
            && |Listeners(said)[0]| == 2 && Atoi(Listeners(said)[0][1]) == Some(BrokerPort(tls))
  {
    ConfSays(tls, config, wording);
    FirstRefusedIsFirst(Split(config, '\n'), 0);
    AllowedLines(Split(config, '\n'));
    ListenerNotAllowed();
    var fixed, user := Said(Fixed(tls)), DirectivesOf(config);
    forall d | d in user ensures d != [] && !LikeListener(d[0]) { assert Tunes(d); }
    NoListeners(user);
    ListenersAppend(fixed, user);
    FixedOpensOne(tls);
    PortTextReads(tls);
  }

  // ------------------------------------------------------------ closed to others

  /** strings.HasSuffix. */
  predicate HasSuffix(s: string, suffix: string) {
    |suffix| <= |s| && s[|s| - |suffix|..] == suffix
  }

  /** The directives of mosquitto.conf(5) that a user must not touch: those about
      listeners, plugins, anonymous access, identities, bridges and persistence, and those
      that name a file or a directory. */
  predicate Guarded(w: string) {
    || HasPrefix(w, "listener") || HasPrefix(w, "port") || HasPrefix(w, "bind_") || HasPrefix(w, "per_")
    || HasPrefix(w, "plugin") || HasPrefix(w, "global_plugin") || HasPrefix(w, "auth_")
    || HasPrefix(w, "allow_") || HasPrefix(w, "use") || HasPrefix(w, "clientid")
    || w == "connection" || HasPrefix(w, "bridge_") || HasPrefix(w, "address")
    || HasPrefix(w, "persistence") || HasPrefix(w, "include") || HasPrefix(w, "log_dest")
    || HasSuffix(w, "file") || HasSuffix(w, "path") || HasSuffix(w, "dir")
  }

  /** The guarded directives of a configuration, in order. */
  function Guards(ds: seq<seq<string>>): seq<seq<string>> {
    if ds == [] then []
    else (if ds[0] != [] && Guarded(ds[0][0]) then [ds[0]] else []) + Guards(ds[1..])
  }

  /** The broker of this file listens on its one port, with the certificate and key of the
      TLS Secret if it has one; it admits nobody without a login, under no client ID but
      the username; and it takes its logins and grants from the two rendered files, through
      the two plugins, and from nothing else. */
  ghost predicate Closed(text: string, tls: bool) {
    Guards(DirectivesOf(text)) ==
      [["log_dest", "stdout"]] +
      [["persistence", "true"], ["persistence_location", "/mosquitto/data/"]] +
      [["plugin_load", "pwfile", "/usr/lib" + "/mosquitto_" + "password_file.so"],
       ["plugin_opt_" + "password_file", "/mosquitto" + "/auth" + "/" + Files.PASSWD_KEY],
       ["plugin_load", "aclfile", "/usr/lib" + "/mosquitto_" + "acl_file.so"],
       ["plugin_opt_" + "acl_file", "/mosquitto" + "/auth" + "/" + Files.ACL_KEY]] +
      (if tls then
         [["listener", "8883"], ["certfile", "/mosquitto" + "/tls" + "/tls.crt"], ["keyfile", "/mosquitto" + "/tls" + "/tls.key"]]
       else [["listener", "1883"]]) +
      [["listener_allow_" + "anonymous", "false"], ["use_username_" + "as_clientid", "true"],
       ["plugin_use", "pwfile"], ["plugin_use", "aclfile"]]
  }

  /** What tells guarded words from those of the allowlist, in characters. */
  predicate LooksGuarded(w: string) { BeginsGuarded(w) || EndsGuarded(w) }

  predicate BeginsGuarded(w: string) {
    var n := |w|;
    || (n > 1 && w[0] == 'l' && w[1] == 'i') || (n > 1 && w[0] == 'p' && (w[1] == 'o' || w[1] == 'l'))
    || (n > 1 && w[0] == 'b') || (n > 3 && w[0] == 'p' && w[3] == '_') || (n > 7 && w[0] == 'g' && w[7] == 'p')
    || (n > 3 && w[0] == 'a' && (w[3] == 'h' || w[1] == 'l' || w[1] == 'd')) || (n > 1 && w[0] == 'u' && w[1] == 's')
    || (n > 1 && w[0] == 'c' && w[1] == 'l') || (n == 10 && w[0] == 'c') || (n > 9 && w[0] == 'p' && w[9] == 'c')
    || (n > 1 && w[0] == 'i') || (n > 4 && w[0] == 'l' && w[4] == 'd')
  }

  predicate EndsGuarded(w: string) {
    var n := |w|;
    || (n > 3 && w[n - 1] == 'e' && w[n - 4] == 'f') || (n > 3 && w[n - 1] == 'h')
    || (n > 2 && w[n - 1] == 'r' && w[n - 2] == 'i')
  }

  lemma PrefixAt(s: string, prefix: string, k: nat)
    requires k < |prefix| && HasPrefix(s, prefix)
    ensures |s| >= |prefix| && s[k] == prefix[k]
  {
  }

  lemma SuffixAt(s: string, suffix: string, k: nat)
    requires k < |suffix| && HasSuffix(s, suffix)
    ensures |s| >= |suffix| && s[|s| - |suffix| + k] == suffix[k]
  {
  }

  lemma NoTuningBegins()
    ensures forall w :: w in ALLOWED ==> !BeginsGuarded(w)
  {
  }

  lemma NoTuningEnds()
    ensures forall w :: w in ALLOWED ==> !EndsGuarded(w)
  {
  }

  lemma GuardedLooks(w: string)
    requires Guarded(w)
    ensures LooksGuarded(w)
  {
    if HasPrefix(w, "listener") {
      PrefixAt(w, "listener", 0);
      PrefixAt(w, "listener", 1);
    } else if HasPrefix(w, "port") {
      PrefixAt(w, "port", 0);
      PrefixAt(w, "port", 1);
    } else if HasPrefix(w, "bind_") {
      PrefixAt(w, "bind_", 0);
    } else if HasPrefix(w, "per_") {
      PrefixAt(w, "per_", 0);
      PrefixAt(w, "per_", 3);
    } else if HasPrefix(w, "plugin") {
      PrefixAt(w, "plugin", 0);
      PrefixAt(w, "plugin", 1);
    } else if HasPrefix(w, "global_plugin") {
      PrefixAt(w, "global_plugin", 0);
      PrefixAt(w, "global_plugin", 7);
    } else if HasPrefix(w, "auth_") {
      PrefixAt(w, "auth_", 0);
      PrefixAt(w, "auth_", 3);
    } else if HasPrefix(w, "allow_") {
      PrefixAt(w, "allow_", 0);
      PrefixAt(w, "allow_", 1);
    } else if HasPrefix(w, "use") {
      PrefixAt(w, "use", 0);
      PrefixAt(w, "use", 1);
    } else {
      GuardedLooksOn(w);
    }
  }

  lemma GuardedLooksOn(w: string)
    requires HasPrefix(w, "clientid") || w == "connection" || HasPrefix(w, "bridge_") || HasPrefix(w, "address") ||
             HasPrefix(w, "persistence") || HasPrefix(w, "include") || HasPrefix(w, "log_dest") ||
             HasSuffix(w, "file") || HasSuffix(w, "path") || HasSuffix(w, "dir")
    ensures LooksGuarded(w)
  {
    if HasPrefix(w, "clientid") {
      PrefixAt(w, "clientid", 0);
      PrefixAt(w, "clientid", 1);
    } else if HasPrefix(w, "bridge_") {
      PrefixAt(w, "bridge_", 0);
    } else if HasPrefix(w, "address") {
      PrefixAt(w, "address", 0);
      PrefixAt(w, "address", 1);
    } else if HasPrefix(w, "persistence") {
      PrefixAt(w, "persistence", 0);
      PrefixAt(w, "persistence", 9);
    } else if HasPrefix(w, "include") {
      PrefixAt(w, "include", 0);
    } else if HasPrefix(w, "log_dest") {
      PrefixAt(w, "log_dest", 0);
      PrefixAt(w, "log_dest", 4);
    } else if HasSuffix(w, "file") {
      SuffixAt(w, "file", 0);
      SuffixAt(w, "file", 3);
    } else if HasSuffix(w, "path") {
      SuffixAt(w, "path", 3);
    } else if HasSuffix(w, "dir") {
      SuffixAt(w, "dir", 1);
      SuffixAt(w, "dir", 2);
    } else {
      assert w == "connection";
    }
  }

  /** No directive of the allowlist is a guarded one: spec.config can neither open a
      listener, load a plugin, admit anonymous clients, touch identities, set up a bridge,
      nor name a file. */
  lemma NoTuningIsGuarded(w: string)
    requires w in ALLOWED
    ensures !Guarded(w)
  {
    NoTuningBegins();
    NoTuningEnds();
    if Guarded(w) { GuardedLooks(w); }
  }

  // the guarded ones among the fixed lines

  lemma {:induction false} GuardsAppend(a: seq<seq<string>>, b: seq<seq<string>>)
    ensures Guards(a + b) == Guards(a) + Guards(b)
  {
    if a == [] {
      assert a + b == b;
    } else {
      assert (a + b)[1..] == a[1..] + b;
      GuardsAppend(a[1..], b);
    }
  }

  lemma {:induction false} TuningGuardsNothing(ds: seq<seq<string>>)
    requires forall d :: d in ds ==> Tunes(d)
    ensures Guards(ds) == []
  {
    if ds != [] {
      assert ds[0] in ds;
      NoTuningIsGuarded(ds[0][0]);
      forall d | d in ds[1..] ensures Tunes(d) { assert d in ds; }
      TuningGuardsNothing(ds[1..]);
    }
  }

  function GuardedLine(l: Line): seq<seq<string>> {
    if l.Say? && l.words != [] && Guarded(l.words[0]) then [l.words] else []
  }

  function GuardedLines(lines: seq<Line>): seq<seq<string>> {
    if lines == [] then [] else GuardedLine(lines[0]) + GuardedLines(lines[1..])
  }

  lemma {:induction false} GuardsOfSaid(lines: seq<Line>)
    ensures Guards(Said(lines)) == GuardedLines(lines)
  {
    if lines != [] {
      GuardsOfSaid(lines[1..]);
      var l := lines[0];
      if l.Say? {
        assert Said(lines) == [l.words] + Said(lines[1..]);
        GuardsAppend([l.words], Said(lines[1..]));
        assert Guards([l.words]) == GuardedLine(l) by { assert [l.words][1..] == []; }
      } else {
        assert Said(lines) == Said(lines[1..]);
      }
    }
  }

  lemma {:induction false} GuardedLinesAppend(a: seq<Line>, b: seq<Line>)
    ensures GuardedLines(a + b) == GuardedLines(a) + GuardedLines(b)
  {
    if a == [] {
      assert a + b == b;
    } else {
      assert (a + b)[1..] == a[1..] + b;
      GuardedLinesAppend(a[1..], b);
    }
  }

  predicate Unguarded(l: Line) { l.Say? ==> l.words != [] && l.words[0] in ALLOWED }

  lemma {:induction false} UnguardedLines(lines: seq<Line>)
    requires forall l :: l in lines ==> Unguarded(l)
    ensures GuardedLines(lines) == []
  {
    if lines != [] {
      assert lines[0] in lines;
      if lines[0].Say? { NoTuningIsGuarded(lines[0].words[0]); }
      forall l | l in lines[1..] ensures Unguarded(l) { assert l in lines; }
      UnguardedLines(lines[1..]);
    }
  }

  predicate GuardedSay(l: Line) { l.Say? && l.words != [] && Guarded(l.words[0]) }

  lemma GuardedOne(l: Line)
    requires GuardedSay(l)
    ensures GuardedLines([l]) == [l.words]
  {
    assert [l][1..] == [];
  }

  /** A few guarded lines between unguarded ones. */
  lemma GuardedAmong(before: seq<Line>, l: Line, after: seq<Line>)
    requires (forall x :: x in before ==> Unguarded(x)) && GuardedSay(l)
    ensures GuardedLines(before + [l] + after) == [l.words] + GuardedLines(after)
  {
    GuardedLinesAppend(before + [l], after);
    GuardedLinesAppend(before, [l]);
    UnguardedLines(before);
    GuardedOne(l);
  }

  lemma PrefixOn(a: string, b: string, prefix: string)
    requires HasPrefix(a, prefix)
    ensures HasPrefix(a + b, prefix)
  {
    assert (a + b)[..|prefix|] == a[..|prefix|];
  }

  lemma StoreWordsGuarded()
    ensures Guarded("log_dest") && Guarded("persistence") && Guarded("persistence_location")
  {
    assert "persistence_location"[..11] == "persistence";
  }

  lemma PluginWordsGuarded()
    ensures Guarded("plugin_load") && Guarded("plugin_use")
  {
    assert "plugin_load"[..6] == "plugin";
    assert "plugin_use"[..6] == "plugin";
  }

  lemma ListenerWordsGuarded()
    ensures Guarded("listener") && Guarded("certfile") && Guarded("keyfile")
  {
    assert "certfile"[4..] == "file";
    assert "keyfile"[3..] == "file";
  }

  lemma LongWordsGuarded()
    ensures Guarded("plugin_opt_" + "password_file") && Guarded("plugin_opt_" + "acl_file")
    ensures Guarded("listener_allow_" + "anonymous") && Guarded("use_username_" + "as_clientid")
  {
    assert "plugin_opt_"[..6] == "plugin";
    assert "listener_allow_"[..8] == "listener";
    assert "use_username_"[..3] == "use";
    PrefixOn("plugin_opt_", "password_file", "plugin");
    PrefixOn("plugin_opt_", "acl_file", "plugin");
    PrefixOn("listener_allow_", "anonymous", "listener");
    PrefixOn("use_username_", "as_clientid", "use");
  }

  lemma RestOfHead()
    ensures forall l :: l in HEAD[..4] ==> Unguarded(l)
    ensures forall l :: l in HEAD[5..] ==> Unguarded(l)
  {
    assert HEAD[..4] == [Note(0), Note(1), Blank, Note(2)];
    assert HEAD[5..] == [Say(["log_type", "error"]), Say(["log_type", "warning"]), Say(["log_type", "notice"]),
                         Say(["log_type", "information"]), Blank];
  }

  lemma HeadGuards()
    ensures GuardedLines(HEAD) == [["log_dest", "stdout"]]
  {
    StoreWordsGuarded();
    RestOfHead();
    var l := Say(["log_dest", "stdout"]);
    assert HEAD == HEAD[..4] + [l] + HEAD[5..];
    GuardedAmong(HEAD[..4], l, HEAD[5..]);
    UnguardedLines(HEAD[5..]);
  }

  lemma LimitsTune()
    ensures Unguarded(Say(["sys_interval", "10"])) && Unguarded(Say(["max_packet_size", "2000000"]))
  {
  }

  lemma RestOfStore()
    ensures forall l :: l in STORE[4..] ==> Unguarded(l)
  {
    LimitsTune();
    assert STORE[4..] == [Blank, Note(5), Note(6), Note(7), Say(["sys_interval", "10"]), Say(["max_packet_size", "2000000"]), Blank];
  }

  lemma StoreGuards()
    ensures GuardedLines(STORE) == [["persistence", "true"], ["persistence_location", "/mosquitto/data/"]]
  {
    StoreWordsGuarded();
    var l, m := Say(["persistence", "true"]), Say(["persistence_location", "/mosquitto/data/"]);
    assert STORE == STORE[..2] + [l] + STORE[3..];
    assert STORE[3..] == [] + [m] + STORE[4..];
    assert STORE[..2] == [Note(3), Note(4)];
    RestOfStore();
    GuardedAmong(STORE[..2], l, STORE[3..]);
    GuardedAmong([], m, STORE[4..]);
    UnguardedLines(STORE[4..]);
  }

  lemma FourGuarded(before: seq<Line>, a: Line, b: Line, c: Line, d: Line, after: seq<Line>)
    requires (forall x :: x in before ==> Unguarded(x)) && (forall x :: x in after ==> Unguarded(x))
    requires GuardedSay(a) && GuardedSay(b) && GuardedSay(c) && GuardedSay(d)
    ensures GuardedLines(before + [a, b, c, d] + after) == [a.words, b.words, c.words, d.words]
  {
    GuardedAmong(before, a, [b, c, d] + after);
    assert before + [a, b, c, d] + after == before + [a] + ([b, c, d] + after);
    GuardedAmong([], b, [c, d] + after);
    assert [b, c, d] + after == [] + [b] + ([c, d] + after);
    GuardedAmong([], c, [d] + after);
    assert [c, d] + after == [] + [c] + ([d] + after);
    GuardedAmong([], d, after);
    assert [d] + after == [] + [d] + after;
    UnguardedLines(after);
  }

  lemma UsersGuards()
    ensures GuardedLines(USERS) ==
            [["plugin_load", "pwfile", PASSWORD_PLUGIN], ["plugin_opt_" + "password_file", AUTH_MOUNT + "/passwd"],
             ["plugin_load", "aclfile", ACL_PLUGIN], ["plugin_opt_" + "acl_file", AUTH_MOUNT + "/acl"]]
  {
    PluginWordsGuarded();
    LongWordsGuarded();
    FourGuarded(USERS[..3], USERS[3], USERS[4], USERS[5], USERS[6], USERS[7..]);
    assert USERS == USERS[..3] + [USERS[3], USERS[4], USERS[5], USERS[6]] + USERS[7..];
  }

  lemma ListenerGuards(tls: bool)
    ensures GuardedLines(if tls then TLS_LISTENER else PLAIN_LISTENER) ==
            if tls then [["listener", "8883"], ["certfile", TLS_MOUNT + "/tls.crt"], ["keyfile", TLS_MOUNT + "/tls.key"]]
            else [["listener", "1883"]]
  {
    ListenerWordsGuarded();
    if tls {
      var a, b, c := TLS_LISTENER[2], TLS_LISTENER[3], TLS_LISTENER[4];
      assert TLS_LISTENER == TLS_LISTENER[..2] + [a] + TLS_LISTENER[3..];
      assert TLS_LISTENER[3..] == [] + [b] + [c];
      GuardedAmong(TLS_LISTENER[..2], a, TLS_LISTENER[3..]);
      GuardedAmong([], b, [c]);
      GuardedOne(c);
    } else {
      assert PLAIN_LISTENER == [Note(13)] + [PLAIN_LISTENER[1]] + [];
      GuardedAmong([Note(13)], PLAIN_LISTENER[1], []);
    }
  }

  lemma AccessTailGuards()
    ensures GuardedLines(ACCESS[3..]) ==
            [["use_username_" + "as_clientid", "true"], ["plugin_use", "pwfile"], ["plugin_use", "aclfile"]]
  {
    PluginWordsGuarded();
    LongWordsGuarded();
    var b, c, d := ACCESS[3], ACCESS[4], ACCESS[5];
    assert ACCESS[3..] == [] + [b] + [c, d, Blank];
    assert [c, d, Blank] == [] + [c] + [d, Blank];
    assert [d, Blank] == [] + [d] + [Blank];
    GuardedAmong([], b, [c, d, Blank]);
    GuardedAmong([], c, [d, Blank]);
    GuardedAmong([], d, [Blank]);
    UnguardedLines([Blank]);
  }

  lemma AccessGuards()
    ensures GuardedLines(ACCESS) ==
            [["listener_allow_" + "anonymous", "false"], ["use_username_" + "as_clientid", "true"],
             ["plugin_use", "pwfile"], ["plugin_use", "aclfile"]]
  {
    LongWordsGuarded();
    AccessTailGuards();
    var a := ACCESS[0];
    assert ACCESS == [] + [a] + ACCESS[1..];
    GuardedAmong([], a, ACCESS[1..]);
    assert ACCESS[1..] == [Note(14), Note(15)] + ACCESS[3..];
    GuardedLinesAppend([Note(14), Note(15)], ACCESS[3..]);
    UnguardedLines([Note(14), Note(15)]);
  }

  lemma KeyPaths()
    ensures AUTH_MOUNT + "/passwd" == "/mosquitto" + "/auth" + "/" + Files.PASSWD_KEY
    ensures AUTH_MOUNT + "/acl" == "/mosquitto" + "/auth" + "/" + Files.ACL_KEY
  {
    assert "/passwd" == "/" + Files.PASSWD_KEY;
    assert "/acl" == "/" + Files.ACL_KEY;
  }

  lemma FiveParts(a: seq<Line>, b: seq<Line>, c: seq<Line>, d: seq<Line>, f: seq<Line>)
    ensures Guards(Said(a + b + c + d + f)) ==
            GuardedLines(a) + GuardedLines(b) + GuardedLines(c) + GuardedLines(d) + GuardedLines(f)
  {
    GuardsOfSaid(a + b + c + d + f);
    GuardedLinesAppend(a + b + c + d, f);
    GuardedLinesAppend(a + b + c, d);
    GuardedLinesAppend(a + b, c);
    GuardedLinesAppend(a, b);
  }

  lemma ClosedBy(text: string, tls: bool)
    requires Guards(DirectivesOf(text)) ==
             GuardedLines(HEAD) + GuardedLines(STORE) + GuardedLines(USERS) +
             GuardedLines(if tls then TLS_LISTENER else PLAIN_LISTENER) + GuardedLines(ACCESS)
    ensures Closed(text, tls)
  {
    HeadGuards();
    StoreGuards();
    UsersGuards();
    ListenerGuards(tls);
    AccessGuards();
    KeyPaths();
  }

  /** Every file generated for an accepted spec.config is closed: what it says in guarded
      directives is fixed, whatever spec.config is and however the comments are worded. */
  lemma AcceptedConfigIsClosed(tls: bool, config: string, wording: Wording)
    requires OneLine(wording)
    requires ValidateSpecConfig(config) == None
    ensures Closed(Conf(tls, config, wording), tls)
  {
    ConfSays(tls, config, wording);
    FirstRefusedIsFirst(Split(config, '\n'), 0);
    AllowedLines(Split(config, '\n'));
    TuningGuardsNothing(DirectivesOf(config));
    GuardsAppend(Said(Fixed(tls)), DirectivesOf(config));
    FiveParts(HEAD, STORE, USERS, if tls then TLS_LISTENER else PLAIN_LISTENER, ACCESS);
    ClosedBy(Conf(tls, config, wording), tls);
  }
}
