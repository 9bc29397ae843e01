/** The metrics exporter: the mapping of $SYS messages to series, and the collector
    that holds the last value of each. */
module Exporter {
  import opened Text
  import VersionLabel

  const SYS_PREFIX := "$SYS/broker/"
  const VERSION_METRIC := "mosquitto_version_info"
  const LOAD_PREFIX := "mosquitto_load_"

  datatype Kind = Counter | Gauge

  datatype Metric = Metric(name: string, kind: Kind)

  /** One series value; number is a float64 by its bits. */
  datatype Sample = Sample(metric: Metric, tag: string, number: int)

  /** strconv.ParseFloat. */
  type ParseFloat = string -> Option<int>

  // ----------------------------------------------------------------- the mapping

  function M(tail: string, kind: Kind): Metric { Metric("mosquitto_" + tail, kind) }

  /** clients/.... */
  const CLIENT_TOPICS: map<string, Metric> := map[
    "clients/active" := M("clients_active", Gauge),
    "clients/connected" := M("clients_connected", Gauge),
    "clients/disconnected" := M("clients_disconnected", Gauge),
    "clients/expired" := M("clients_expired", Gauge),
    "clients/inactive" := M("clients_inactive", Gauge),
    "clients/maximum" := M("clients_maximum", Gauge),
    "clients/total" := M("clients_total", Gauge)
  ]

  /** bytes/..., messages/... and packet/.... */
  const TRAFFIC_TOPICS: map<string, Metric> := map[
    "bytes/received" := M("bytes_received_total", Counter),
    "bytes/sent" := M("bytes_sent_total", Counter),
    "messages/received" := M("messages_received_total", Counter),
    "messages/sent" := M("messages_sent_total", Counter),
    "messages/stored" := M("messages_stored", Gauge),
    "packet/out/bytes" := M("packet_out_bytes", Gauge),
    "packet/out/count" := M("packet_out_count", Gauge)
  ]

  /** publish/.... */
  const PUBLISH_TOPICS: map<string, Metric> := map[
    "publish/bytes/received" := M("publish_bytes_received_total", Counter),
    "publish/bytes/sent" := M("publish_bytes_sent_total", Counter),
    "publish/messages/dropped" := M("publish_messages_dropped_total", Counter),
    "publish/messages/received" := M("publish_messages_received_total", Counter),
    "publish/messages/sent" := M("publish_messages_sent_total", Counter)
  ]

  /** Connections, memory, stores, subscriptions and uptime. */
  const BROKER_TOPICS: map<string, Metric> := map[
    "connections/socket/count" := M("connections_socket_count", Gauge),
    "heap/current" := M("heap_current_bytes", Gauge),
    "heap/maximum" := M("heap_maximum_bytes", Gauge),
    "retained messages/count" := M("retained_messages", Gauge),
    "shared_subscriptions/count" := M("shared_subscriptions", Gauge),
    "store/messages/bytes" := M("store_messages_bytes", Gauge),
    "store/messages/count" := M("store_messages", Gauge),
    "subscriptions/count" := M("subscriptions", Gauge),
    "uptime" := M("uptime_seconds", Gauge)
  ]

  /** The topics below the prefix that are mapped by name. */
  const TABLE: map<string, Metric> := CLIENT_TOPICS + TRAFFIC_TOPICS + PUBLISH_TOPICS + BROKER_TOPICS

  predicate IsWindow(s: string) { s == "1min" || s == "5min" || s == "15min" }

  function CutPrefix(s: string, prefix: string): Option<string> {
    if HasPrefix(s, prefix) then Some(s[|prefix|..]) else None
  }

  function TrimPrefix(s: string, prefix: string): string {
    if HasPrefix(s, prefix) then s[|prefix|..] else s
  }

  function TrimSuffix(s: string, suffix: string): string {
    if |suffix| <= |s| && s[|s| - |suffix|..] == suffix then s[..|s| - |suffix|] else s
  }

  /** strings.ReplaceAll(s, "/", "_"). */
  function Underscored(s: string): string {
    if s == "" then "" else [if s[0] == '/' then '_' else s[0]] + Underscored(s[1..])
  }

  /** parse. */
  function Parse(float: ParseFloat, topic: string, payload: string): Option<Sample> {
    match CutPrefix(topic, SYS_PREFIX)
    case None => None
    case Some(path) =>
      var text := TrimSpace(payload);
      if path == "version" then
        var version := TrimPrefix(text, "mosquitto version ");
        if version == "" then None else Some(Sample(Metric(VERSION_METRIC, Gauge), version, 1))
      else match CutPrefix(path, "load/")
        case Some(what) =>
          var i := VersionLabel.LastIndex(what, '/');
          if i <= 0 || !IsWindow(what[i + 1..]) then None
          else (match float(text)
            case None => None
            case Some(n) => Some(Sample(Metric(LOAD_PREFIX + Underscored(what[..i]), Gauge), what[i + 1..], n)))
        case None =>
          if path !in TABLE then None
          else match float(if path == "uptime" then TrimSuffix(text, " seconds") else text)
            case None => None
            case Some(n) => Some(Sample(TABLE[path], "", n))
  }

  /** The key a sample is held under. */
  function KeyOf(s: Sample): string {
    if s.metric.name == VERSION_METRIC then s.metric.name else s.metric.name + "/" + s.tag
  }

  /** A Prometheus series: its name and its one label, if it has one. */
  datatype Series = Series(name: string, labels: Option<Pair<string, string>>)

  /** constMetric. */
  function SeriesOf(s: Sample): Series {
    if s.metric.name == VERSION_METRIC then Series(s.metric.name, Some(Pair("version", s.tag)))
    else if s.tag != "" then Series(s.metric.name, Some(Pair("window", s.tag)))
    else Series(s.metric.name, None)
  }

  // --------------------------------------------------------------- the collector

  /** parse as the collector calls it. */
  type Mapping = (string, string) -> Option<Sample>

  function SysMapping(float: ParseFloat): Mapping { (topic, payload) => Parse(float, topic, payload) }

  datatype Op = Observe(topic: string, payload: string) | Connected | Lost

  class Collector {
    const mapping: Mapping
    var samples: map<string, Sample>
    var connected: bool

    constructor (mapping: Mapping)
      ensures this.mapping == mapping && samples == map[] && !connected
    {
      this.mapping := mapping;
      samples, connected := map[], false;
    }

    method Observe(topic: string, payload: string) returns (mapped: bool)
      modifies this
      ensures mapped == mapping(topic, payload).Some?
      ensures connected == old(connected)
      ensures samples == if mapped then
                           var s := mapping(topic, payload).value; old(samples)[KeyOf(s) := s]
                         else old(samples)
    {
      var parsed := mapping(topic, payload);
      if parsed.None? {
        return false;
      }
      var s := parsed.value;
      var key := s.metric.name;
      if s.metric.name != VERSION_METRIC {
        key := key + "/" + s.tag;
      }
      samples := samples[key := s];
      return true;
    }

    method SetConnected()
      modifies this
      ensures connected && samples == old(samples)
    {
      connected := true;
    }

    method SetLost()
      modifies this
      ensures !connected && samples == map[]
    {
      connected := false;
      samples := map[];
    }

    /** Collect: the connection state, then every sample held. */
    method Collect() returns (state: bool, sent: seq<Sample>)
      ensures state == connected
      ensures forall s :: s in sent <==> exists k :: k in samples && samples[k] == s
      ensures |sent| == |samples|
    {
      state := connected;
      sent := [];
      var todo := samples.Keys;
      while todo != {}
        invariant todo <= samples.Keys
        invariant forall s :: s in sent <==> exists k :: k in samples && k !in todo && samples[k] == s
        invariant |sent| + |todo| == |samples|
        decreases todo
      {
        var k :| k in todo;
        ghost var before := todo;
        ghost var sentBefore := sent;
        sent := sent + [samples[k]];
        todo := todo - {k};
        forall s ensures s in sent <==> exists j :: j in samples && j !in todo && samples[j] == s {
          if j :| j in samples && j !in todo && samples[j] == s {
            if j != k { assert j !in before; assert s in sentBefore; }
          }
          if s in sentBefore {
            var j :| j in samples && j !in before && samples[j] == s;
            assert j !in todo;
          }
        }
      }
    }

    /** Any sequence of calls. */
    method Replay(ops: seq<Op>)
      modifies this
      ensures samples == Held(mapping, old(samples), ops)
      ensures connected == Session(old(connected), ops)
    {
      for i := 0 to |ops|
        invariant samples == Held(mapping, old(samples), ops[..i])
        invariant connected == Session(old(connected), ops[..i])
      {
        assert ops[..i + 1][..i] == ops[..i];
        match ops[i] {
          case Observe(t, p) => var _ := Observe(t, p);
          case Connected => SetConnected();
          case Lost => SetLost();
        }
      }
      assert ops[..|ops|] == ops;
    }
  }

  function Held(mapping: Mapping, start: map<string, Sample>, ops: seq<Op>): map<string, Sample> {
    if ops == [] then start
    else
      var before := Held(mapping, start, ops[..|ops| - 1]);
      match ops[|ops| - 1]
      case Observe(t, p) =>
        (match mapping(t, p)
         case None => before
         case Some(s) => before[KeyOf(s) := s])
      case Connected => before
      case Lost => map[]
  }

  function Session(start: bool, ops: seq<Op>): bool {
    if ops == [] then start
    else match ops[|ops| - 1]
      case Observe(_, _) => Session(start, ops[..|ops| - 1])
      case Connected => true
      case Lost => false
  }

  // ------------------------------------------------------- the collector's log

  /** Message i of the log was mapped to a sample of this key. */
  predicate Says(mapping: Mapping, ops: seq<Op>, i: nat, key: string)
    requires i < |ops|
  {
    && ops[i].Observe?
    && mapping(ops[i].topic, ops[i].payload).Some?
    && KeyOf(mapping(ops[i].topic, ops[i].payload).value) == key
  }

  /** Message i is the latest of its key, and the session was not lost since. */
  ghost predicate LatestOf(mapping: Mapping, ops: seq<Op>, i: int, key: string) {
    && 0 <= i < |ops| && Says(mapping, ops, i, key)
    && forall j :: i < j < |ops| ==> ops[j] != Lost && !Says(mapping, ops, j, key)
  }

  lemma LatestInit(mapping: Mapping, ops: seq<Op>, i: int, key: string)
    requires ops != []
    ensures i < |ops| - 1 ==>
              (LatestOf(mapping, ops, i, key) <==>
                LatestOf(mapping, ops[..|ops| - 1], i, key) && ops[|ops| - 1] != Lost && !Says(mapping, ops, |ops| - 1, key))
  {
    var init := ops[..|ops| - 1];
    if i < |ops| - 1 {
      assert forall j :: 0 <= j < |init| ==> init[j] == ops[j];
      assert forall j :: 0 <= j < |init| ==> (Says(mapping, init, j, key) <==> Says(mapping, ops, j, key));
    }
  }

  /** Over every run from an empty collector, what is held under a key is the sample of
      the latest mapped message of that key since the session was last lost, and
      nothing is held without such a message. */
  lemma {:induction false} HeldIsTheLog(mapping: Mapping, ops: seq<Op>, key: string)
    ensures var held := Held(mapping, map[], ops);
            && (key in held <==> exists i :: LatestOf(mapping, ops, i, key))
            && forall i :: LatestOf(mapping, ops, i, key) ==>
                 key in held && Some(held[key]) == mapping(ops[i].topic, ops[i].payload)
  {
    if ops != [] {
      var init, n := ops[..|ops| - 1], |ops| - 1;
      var held := Held(mapping, map[], ops);
      HeldIsTheLog(mapping, init, key);
      forall i ensures i < n ==>
          (LatestOf(mapping, ops, i, key) <==>
            LatestOf(mapping, init, i, key) && ops[n] != Lost && !Says(mapping, ops, n, key))
      {
        LatestInit(mapping, ops, i, key);
      }
      if key in held {
        if Says(mapping, ops, n, key) {
          assert LatestOf(mapping, ops, n, key);
        } else {
          var i :| LatestOf(mapping, init, i, key);
          assert LatestOf(mapping, ops, i, key);
        }
      }
      forall i | LatestOf(mapping, ops, i, key)
        ensures key in held && Some(held[key]) == mapping(ops[i].topic, ops[i].payload)
      {
        if i < n { assert LatestOf(mapping, init, i, key); }
      }
    }
  }

  ghost predicate WellKept(held: map<string, Sample>) { forall k :: k in held ==> KeyOf(held[k]) == k }

  lemma {:induction false} HeldWellKept(mapping: Mapping, ops: seq<Op>)
    ensures WellKept(Held(mapping, map[], ops))
  {
    if ops != [] { HeldWellKept(mapping, ops[..|ops| - 1]); }
  }

  /** A scrape never holds two samples of one series, at any point of any run. */
  lemma OneSamplePerSeries(mapping: Mapping, ops: seq<Op>, a: string, b: string)
    requires a in Held(mapping, map[], ops) && b in Held(mapping, map[], ops)
    requires SeriesOf(Held(mapping, map[], ops)[a]) == SeriesOf(Held(mapping, map[], ops)[b])
    ensures a == b
  {
    HeldWellKept(mapping, ops);
  }

  lemma {:induction false} UnderscoredPlain(s: string)
    ensures '/' !in Underscored(s)
  {
    if s != "" { UnderscoredPlain(s[1..]); }
  }

  ghost predicate NamesPlain(t: map<string, Metric>) { forall path :: path in t ==> '/' !in t[path].name }

  lemma MPlain(tail: string, kind: Kind)
    requires '/' !in tail
    ensures '/' !in M(tail, kind).name
  {
  }

  lemma ClientsPlain()
    ensures NamesPlain(CLIENT_TOPICS)
  {
    MPlain("clients_active", Gauge);
    MPlain("clients_connected", Gauge);
    MPlain("clients_disconnected", Gauge);
    MPlain("clients_expired", Gauge);
    MPlain("clients_inactive", Gauge);
    MPlain("clients_maximum", Gauge);
    MPlain("clients_total", Gauge);
  }

  lemma TrafficPlain()
    ensures NamesPlain(TRAFFIC_TOPICS)
  {
    MPlain("bytes_received_total", Counter);
    MPlain("bytes_sent_total", Counter);
    MPlain("messages_received_total", Counter);
    MPlain("messages_sent_total", Counter);
    MPlain("messages_stored", Gauge);
    MPlain("packet_out_bytes", Gauge);
    MPlain("packet_out_count", Gauge);
  }

  lemma PublishPlain()
    ensures NamesPlain(PUBLISH_TOPICS)
  {
    MPlain("publish_bytes_received_total", Counter);
    MPlain("publish_bytes_sent_total", Counter);
    MPlain("publish_messages_dropped_total", Counter);
    MPlain("publish_messages_received_total", Counter);
    MPlain("publish_messages_sent_total", Counter);
  }

  lemma BrokerPlain()
    ensures NamesPlain(BROKER_TOPICS)
  {
    MPlain("connections_socket_count", Gauge);
    MPlain("heap_current_bytes", Gauge);
    MPlain("heap_maximum_bytes", Gauge);
    MPlain("retained_messages", Gauge);
    MPlain("shared_subscriptions", Gauge);
    MPlain("store_messages_bytes", Gauge);
    MPlain("store_messages", Gauge);
    MPlain("subscriptions", Gauge);
    MPlain("uptime_seconds", Gauge);
  }

  lemma TableNamesPlain()
    ensures NamesPlain(TABLE)
  {
    ClientsPlain();
    TrafficPlain();
    PublishPlain();
    BrokerPlain();
  }

  /** No mapped series name holds a separator, so a key stands for one series only. */
  lemma ParsedNamePlain(float: ParseFloat, topic: string, payload: string)
    ensures Parse(float, topic, payload).Some? ==> '/' !in Parse(float, topic, payload).value.metric.name
  {
    TableNamesPlain();
    assert '/' !in VERSION_METRIC;
    assert '/' !in LOAD_PREFIX;
    if Parse(float, topic, payload).Some? {
      var path := CutPrefix(topic, SYS_PREFIX).value;
      if path != "version" && CutPrefix(path, "load/").Some? {
        var what := CutPrefix(path, "load/").value;
        UnderscoredPlain(what[..VersionLabel.LastIndex(what, '/')]);
      }
    }
  }

  /** The samples are values of one series; the series of the version is one whatever
      version it names. */
  predicate SameSeries(a: Sample, b: Sample) {
    a.metric.name == b.metric.name && (a.metric.name == VERSION_METRIC || a.tag == b.tag)
  }

  /** Two messages share a key exactly when they set the same series; the version
      series is one series whatever version it names. */
  lemma KeysAreSeries(float: ParseFloat, t1: string, p1: string, t2: string, p2: string)
    requires Parse(float, t1, p1).Some? && Parse(float, t2, p2).Some?
    ensures var a, b := Parse(float, t1, p1).value, Parse(float, t2, p2).value;
            KeyOf(a) == KeyOf(b) <==> SameSeries(a, b)
  {
    var a, b := Parse(float, t1, p1).value, Parse(float, t2, p2).value;
    ParsedNamePlain(float, t1, p1);
    ParsedNamePlain(float, t2, p2);
    CutGlues(a.metric.name, '/');
    CutGlues(b.metric.name, '/');
    if a.metric.name != VERSION_METRIC {
      assert KeyOf(a) == a.metric.name + ['/'] + a.tag;
      CutAt(a.metric.name, a.tag, '/');
    }
    if b.metric.name != VERSION_METRIC {
      assert KeyOf(b) == b.metric.name + ['/'] + b.tag;
      CutAt(b.metric.name, b.tag, '/');
    }
  }

  /** Message i set this sample, and since then the session was not lost and no message
      set its series again. */
  ghost predicate LatestOfSeries(float: ParseFloat, ops: seq<Op>, i: int, s: Sample) {
    && 0 <= i < |ops| && ops[i].Observe? && Parse(float, ops[i].topic, ops[i].payload) == Some(s)
    && forall j :: i < j < |ops| ==> ops[j] != Lost && !Resets(float, ops[j], s)
  }

  predicate Resets(float: ParseFloat, op: Op, s: Sample) {
    && op.Observe? && Parse(float, op.topic, op.payload).Some?
    && SameSeries(Parse(float, op.topic, op.payload).value, s)
  }

  lemma LatestBySeries(float: ParseFloat, ops: seq<Op>, i: int, s: Sample)
    requires 0 <= i < |ops| && ops[i].Observe? && Parse(float, ops[i].topic, ops[i].payload) == Some(s)
    ensures LatestOf(SysMapping(float), ops, i, KeyOf(s)) <==> LatestOfSeries(float, ops, i, s)
  {
    forall j | i < j < |ops| ensures Says(SysMapping(float), ops, j, KeyOf(s)) <==> Resets(float, ops[j], s) {
      if ops[j].Observe? && Parse(float, ops[j].topic, ops[j].payload).Some? {
        KeysAreSeries(float, ops[j].topic, ops[j].payload, ops[i].topic, ops[i].payload);
      }
    }
  }

  /** Over every run, a scrape serves exactly the latest value of each series since the
      session was last lost, over the whole topic mapping. */
  lemma ScrapeIsTheLog(float: ParseFloat, ops: seq<Op>, s: Sample)
    ensures var held := Held(SysMapping(float), map[], ops);
            (exists k :: k in held && held[k] == s) <==> exists i :: LatestOfSeries(float, ops, i, s)
  {
    var mapping := SysMapping(float);
    var held := Held(mapping, map[], ops);
    HeldWellKept(mapping, ops);
    HeldIsTheLog(mapping, ops, KeyOf(s));
    if k :| k in held && held[k] == s {
      var i :| LatestOf(mapping, ops, i, KeyOf(s));
      LatestBySeries(float, ops, i, s);
    }
    if i :| LatestOfSeries(float, ops, i, s) {
      LatestBySeries(float, ops, i, s);
      assert KeyOf(s) in held;
    }
  }

  /** The calls since the session was last lost. */
  function SinceLost(ops: seq<Op>): seq<Op> {
    if ops == [] || ops[|ops| - 1] == Lost then []
    else SinceLost(ops[..|ops| - 1]) + [ops[|ops| - 1]]
  }

  predicate Mapped(mapping: Mapping, o: Op) { o.Observe? && mapping(o.topic, o.payload).Some? }

  /** "No session, no values" is not an invariant: it fails exactly when, since the
      session was last lost, a mapped message came and no session was established. */
  lemma {:induction false} ValuesWithoutSession(mapping: Mapping, ops: seq<Op>)
    ensures Session(false, ops) <==> Connected in SinceLost(ops)
    ensures Held(mapping, map[], ops) == map[] <==> forall o :: o in SinceLost(ops) ==> !Mapped(mapping, o)
  {
    if ops != [] {
      ValuesWithoutSession(mapping, ops[..|ops| - 1]);
      var last := ops[|ops| - 1];
      if last != Lost {
        assert SinceLost(ops) == SinceLost(ops[..|ops| - 1]) + [last];
        if Mapped(mapping, last) {
          assert last in SinceLost(ops);
          assert KeyOf(mapping(last.topic, last.payload).value) in Held(mapping, map[], ops);
        } else {
          assert Held(mapping, map[], ops) == Held(mapping, map[], ops[..|ops| - 1]);
          if forall o :: o in SinceLost(ops) ==> !Mapped(mapping, o) {
            forall o | o in SinceLost(ops[..|ops| - 1]) ensures !Mapped(mapping, o) { assert o in SinceLost(ops); }
          }
        }
      }
    }
  }

  /** It does fail: a message delivered before the session is reported established. */
  lemma MessageBeforeSession(mapping: Mapping, topic: string, payload: string)
    requires mapping(topic, payload).Some?
    ensures !Session(false, [Observe(topic, payload)])
    ensures Held(mapping, map[], [Observe(topic, payload)]) != map[]
  {
    var ops := [Observe(topic, payload)];
    assert ops[..0] == [];
    ValuesWithoutSession(mapping, ops);
    assert SinceLost(ops) == ops;
    assert Mapped(mapping, ops[0]) && ops[0] in SinceLost(ops);
  }

  // ------------------------------------------------------- one series, one topic

  /** The topic whose series has this name, told by its length and a letter or two. */
  function PathOf(tail: string): string {
    match |tail|
    case 12 => "version"
    case 13 => if tail[0] == 'c' then "clients/total" else "subscriptions/count"
    case 14 => if tail[0] == 'c' then "clients/active" else if tail[0] == 's' then "store/messages/count" else "uptime"
    case 15 => if tail[0] == 'm' then "messages/stored" else if tail[8] == 'e' then "clients/expired" else "clients/maximum"
    case 16 =>
      if tail[0] == 'b' then "bytes/sent" else if tail[0] == 'c' then "clients/inactive"
      else if tail[11] == 'b' then "packet/out/bytes" else "packet/out/count"
    case 17 => if tail[0] == 'c' then "clients/connected" else "retained messages/count"
    case 18 => if tail[5] == 'c' then "heap/current" else "heap/maximum"
    case 19 => "messages/sent"
    case 20 =>
      if tail[0] == 'b' then "bytes/received" else if tail[0] == 'c' then "clients/disconnected"
      else if tail[1] == 'h' then "shared_subscriptions/count" else "store/messages/bytes"
    case 23 => "messages/received"
    case 24 => if tail[0] == 'c' then "connections/socket/count" else "publish/bytes/sent"
    case 27 => "publish/messages/sent"
    case 28 => "publish/bytes/received"
    case 30 => "publish/messages/dropped"
    case 31 => "publish/messages/received"
    case _ => ""
  }

  ghost predicate NamedAfter(name: string, path: string) { exists tail :: name == "mosquitto_" + tail && PathOf(tail) == path }

  ghost predicate TellsTopics(t: map<string, Metric>) { forall path :: path in t ==> NamedAfter(t[path].name, path) }

  lemma MTells(tail: string, kind: Kind, path: string)
    requires PathOf(tail) == path
    ensures NamedAfter(M(tail, kind).name, path)
  {
  }

  lemma ClientsTell()
    ensures TellsTopics(CLIENT_TOPICS)
  {
    MTells("clients_active", Gauge, "clients/active");
    MTells("clients_connected", Gauge, "clients/connected");
    MTells("clients_disconnected", Gauge, "clients/disconnected");
    MTells("clients_expired", Gauge, "clients/expired");
    MTells("clients_inactive", Gauge, "clients/inactive");
    MTells("clients_maximum", Gauge, "clients/maximum");
    MTells("clients_total", Gauge, "clients/total");
  }

  lemma TrafficTell()
    ensures TellsTopics(TRAFFIC_TOPICS)
  {
    MTells("bytes_received_total", Counter, "bytes/received");
    MTells("bytes_sent_total", Counter, "bytes/sent");
    MTells("messages_received_total", Counter, "messages/received");
    MTells("messages_sent_total", Counter, "messages/sent");
    MTells("messages_stored", Gauge, "messages/stored");
    MTells("packet_out_bytes", Gauge, "packet/out/bytes");
    MTells("packet_out_count", Gauge, "packet/out/count");
  }

  lemma PublishTell()
    ensures TellsTopics(PUBLISH_TOPICS)
  {
    MTells("publish_bytes_received_total", Counter, "publish/bytes/received");
    MTells("publish_bytes_sent_total", Counter, "publish/bytes/sent");
    MTells("publish_messages_dropped_total", Counter, "publish/messages/dropped");
    MTells("publish_messages_received_total", Counter, "publish/messages/received");
    MTells("publish_messages_sent_total", Counter, "publish/messages/sent");
  }

  lemma CountsHaveNames()
    ensures PathOf("connections_socket_count") == "connections/socket/count"
    ensures PathOf("retained_messages") == "retained messages/count"
    ensures PathOf("shared_subscriptions") == "shared_subscriptions/count"
    ensures PathOf("store_messages") == "store/messages/count"
    ensures PathOf("subscriptions") == "subscriptions/count"
  {
  }

  lemma SizesHaveNames()
    ensures PathOf("heap_current_bytes") == "heap/current" && PathOf("heap_maximum_bytes") == "heap/maximum"
    ensures PathOf("store_messages_bytes") == "store/messages/bytes" && PathOf("uptime_seconds") == "uptime"
  {
  }

  lemma BrokerTell()
    ensures TellsTopics(BROKER_TOPICS)
  {
    CountsHaveNames();
    SizesHaveNames();
    MTells("connections_socket_count", Gauge, "connections/socket/count");
    MTells("heap_current_bytes", Gauge, "heap/current");
    MTells("heap_maximum_bytes", Gauge, "heap/maximum");
    MTells("retained_messages", Gauge, "retained messages/count");
    MTells("shared_subscriptions", Gauge, "shared_subscriptions/count");
    MTells("store_messages_bytes", Gauge, "store/messages/bytes");
    MTells("store_messages", Gauge, "store/messages/count");
    MTells("subscriptions", Gauge, "subscriptions/count");
    MTells("uptime_seconds", Gauge, "uptime");
  }

  lemma NamedOnce(name: string, p: string, q: string)
    requires NamedAfter(name, p) && NamedAfter(name, q)
    ensures p == q
  {
    var a :| name == "mosquitto_" + a && PathOf(a) == p;
    var b :| name == "mosquitto_" + b && PathOf(b) == q;
    assert name[|"mosquitto_"|..] == a && name[|"mosquitto_"|..] == b;
  }

  lemma TableTells()
    ensures TellsTopics(TABLE)
  {
    ClientsTell();
    TrafficTell();
    PublishTell();
    BrokerTell();
  }

  lemma VersionTells()
    ensures NamedAfter(VERSION_METRIC, "version")
  {
    assert VERSION_METRIC == "mosquitto_" + "version_info";
    assert |"version_info"| == 12;
  }

  /** The topics of load averages. */
  predicate IsLoad(topic: string) { CutPrefix(topic, SYS_PREFIX).Some? && HasPrefix(topic[|SYS_PREFIX|..], "load/") }

  lemma LoadIsNoVersion(tail: string)
    ensures LOAD_PREFIX + tail != VERSION_METRIC
  {
    assert (LOAD_PREFIX + tail)[10] == 'l' && VERSION_METRIC[10] == 'v';
  }

  lemma SameTopic(t1: string, t2: string)
    requires CutPrefix(t1, SYS_PREFIX).Some? && CutPrefix(t1, SYS_PREFIX) == CutPrefix(t2, SYS_PREFIX)
    ensures t1 == t2
  {
    assert t1 == t1[..|SYS_PREFIX|] + t1[|SYS_PREFIX|..] && t2 == t2[..|SYS_PREFIX|] + t2[|SYS_PREFIX|..];
  }

  /** No topic begins like the version or the load averages. */
  ghost predicate BeginOtherwise(t: map<string, Metric>) {
    forall path :: path in t ==> path != "" && path[0] != 'v' && path[0] != 'l'
  }

  lemma FirstTopicsBegin()
    ensures BeginOtherwise(CLIENT_TOPICS) && BeginOtherwise(TRAFFIC_TOPICS)
  {
  }

  lemma OtherTopicsBegin()
    ensures BeginOtherwise(PUBLISH_TOPICS) && BeginOtherwise(BROKER_TOPICS)
  {
  }

  lemma TableIsNoLoad(path: string)
    requires path in TABLE
    ensures path != "version" && CutPrefix(path, "load/").None?
  {
    FirstTopicsBegin();
    OtherTopicsBegin();
    assert BeginOtherwise(TABLE);
    BeginsOtherwise(path);
  }

  lemma BeginsOtherwise(path: string)
    requires path != "" && path[0] != 'l'
    ensures !HasPrefix(path, "load/")
  {
    assert |path| >= 5 ==> path[..5][0] == path[0];
  }

  /** What the series of a topic tells about it. */
  lemma ParsedTells(float: ParseFloat, topic: string, payload: string)
    requires Parse(float, topic, payload).Some?
    ensures var s := Parse(float, topic, payload).value;
            && CutPrefix(topic, SYS_PREFIX).Some?
            && (IsLoad(topic) ==> s.tag != "" && s.metric.name != VERSION_METRIC)
            && (!IsLoad(topic) ==>
                 NamedAfter(s.metric.name, CutPrefix(topic, SYS_PREFIX).value) && (s.tag == "" || s.metric.name == VERSION_METRIC))
  {
    var path := CutPrefix(topic, SYS_PREFIX).value;
    var s := Parse(float, topic, payload).value;
    if path == "version" {
      VersionTells();
      BeginsOtherwise(path);
    } else if CutPrefix(path, "load/").Some? {
      var what := CutPrefix(path, "load/").value;
      LoadIsNoVersion(Underscored(what[..VersionLabel.LastIndex(what, '/')]));
      assert s.tag == what[VersionLabel.LastIndex(what, '/') + 1..] && IsWindow(s.tag);
    } else {
      TableTells();
    }
  }

  /** Apart from load averages no two topics set one series. */
  lemma TopicsHaveTheirSeries(float: ParseFloat, t1: string, p1: string, t2: string, p2: string)
    requires Parse(float, t1, p1).Some? && Parse(float, t2, p2).Some?
    requires !IsLoad(t1) || !IsLoad(t2)
    ensures SameSeries(Parse(float, t1, p1).value, Parse(float, t2, p2).value) <==> t1 == t2
  {
    var a, b := Parse(float, t1, p1).value, Parse(float, t2, p2).value;
    ParsedTells(float, t1, p1);
    ParsedTells(float, t2, p2);
    if SameSeries(a, b) {
      NamedOnce(a.metric.name, CutPrefix(t1, SYS_PREFIX).value, CutPrefix(t2, SYS_PREFIX).value);
      SameTopic(t1, t2);
    }
    if t1 == t2 { SameTag(float, t1, p1, p2); }
  }

  lemma SameTag(float: ParseFloat, topic: string, p1: string, p2: string)
    requires Parse(float, topic, p1).Some? && Parse(float, topic, p2).Some?
    ensures SameSeries(Parse(float, topic, p1).value, Parse(float, topic, p2).value)
  {
  }

  // ------------------------------------------------------------- what is counted

  lemma {:induction false} UnderscoredAt(s: string)
    ensures |Underscored(s)| == |s|
    ensures forall i :: 0 <= i < |s| ==> Underscored(s)[i] == if s[i] == '/' then '_' else s[i]
  {
    if s != "" { UnderscoredAt(s[1..]); }
  }

  /** A counter, its name character by character: the topic, its slashes underscores, and the
      word total. */
  ghost predicate Totals(path: string, m: Metric) {
    && m.kind == Counter && |m.name| == |path| + 16 && m.name[..10] == "mosquitto_" && m.name[|path| + 10..] == "_total"
    && forall i :: 0 <= i < |path| ==> m.name[10 + i] == if path[i] == '/' then '_' else path[i]
  }

  /** A gauge whose name has another length, or ends otherwise. */
  ghost predicate Gauges(path: string, m: Metric) {
    m.kind == Gauge && (|m.name| != |path| + 16 || m.name[|path| + 11] != 't')
  }

  ghost predicate Kinds(t: map<string, Metric>) { forall path :: path in t ==> Totals(path, t[path]) || Gauges(path, t[path]) }

  lemma TotalIsNamed(path: string, m: Metric)
    ensures Totals(path, m) ==> m.name == "mosquitto_" + Underscored(path) + "_total"
    ensures Gauges(path, m) ==> m.name != "mosquitto_" + Underscored(path) + "_total"
  {
    UnderscoredAt(path);
    var total := "mosquitto_" + Underscored(path) + "_total";
    assert |"mosquitto_"| == 10 && |"_total"| == 6 && |total| == |path| + 16;
    assert total[|path| + 11] == "_total"[1] == 't';
    if Totals(path, m) {
      assert m.name == m.name[..10] + m.name[10..10 + |path|] + m.name[10 + |path|..];
      assert m.name[10..10 + |path|] == Underscored(path);
    }
  }

  lemma ClientKinds()
    ensures Kinds(CLIENT_TOPICS)
  {
  }

  lemma BytesTotal()
    ensures Totals("bytes/received", M("bytes_received_total", Counter))
    ensures Totals("bytes/sent", M("bytes_sent_total", Counter))
  {
  }

  lemma MessagesTotal()
    ensures Totals("messages/received", M("messages_received_total", Counter))
    ensures Totals("messages/sent", M("messages_sent_total", Counter))
  {
  }

  lemma TrafficKinds()
    ensures Kinds(TRAFFIC_TOPICS)
  {
    BytesTotal();
    MessagesTotal();
  }

  lemma PublishedBytesTotal()
    ensures Totals("publish/bytes/received", M("publish_bytes_received_total", Counter))
    ensures Totals("publish/bytes/sent", M("publish_bytes_sent_total", Counter))
  {
  }

  lemma DroppedMessagesTotal()
    ensures Totals("publish/messages/dropped", M("publish_messages_dropped_total", Counter))
  {
  }

  lemma DeliveredMessagesTotal()
    ensures Totals("publish/messages/received", M("publish_messages_received_total", Counter))
    ensures Totals("publish/messages/sent", M("publish_messages_sent_total", Counter))
  {
  }

  lemma PublishKinds()
    ensures Kinds(PUBLISH_TOPICS)
  {
    PublishedBytesTotal();
    DroppedMessagesTotal();
    DeliveredMessagesTotal();
  }

  lemma BrokerKinds()
    ensures Kinds(BROKER_TOPICS)
  {
  }

  lemma TableKinds()
    ensures Kinds(TABLE)
  {
    ClientKinds();
    TrafficKinds();
    PublishKinds();
    BrokerKinds();
  }

  /** Over the whole table, a series is a counter exactly when its name is its topic with
      underscores and the word total. */
  lemma CountersAreTheTotals(path: string)
    requires path in TABLE
    ensures TABLE[path].kind == Counter <==> TABLE[path].name == "mosquitto_" + Underscored(path) + "_total"
  {
    TableKinds();
    TotalIsNamed(path, TABLE[path]);
  }

  // ------------------------------------------------------ what messages are read as

  /** A load average: the series is named after the topic, the window is its label. */
  lemma LoadIsRead(float: ParseFloat, what: string, window: string, payload: string)
    requires what != "" && (window == "1min" || window == "5min" || window == "15min")
    ensures Parse(float, "$SYS/broker/load/" + what + "/" + window, payload) ==
            match float(TrimSpace(payload))
            case None => None
            case Some(n) => Some(Sample(Metric("mosquitto_load_" + Underscored(what), Gauge), window, n))
  {
    LoadCuts(what, window);
    WindowCuts(what, window);
  }

  lemma LoadCuts(what: string, window: string)
    ensures var path := "load/" + (what + "/" + window);
            && CutPrefix("$SYS/broker/load/" + what + "/" + window, SYS_PREFIX) == Some(path)
            && path != "version" && CutPrefix(path, "load/") == Some(what + "/" + window)
  {
    var path := "load/" + (what + "/" + window);
    assert "$SYS/broker/load/" + what + "/" + window == SYS_PREFIX + path;
    HasPrefixConcat(SYS_PREFIX, path);
    HasPrefixConcat("load/", what + "/" + window);
    assert path[0] == 'l' && "version"[0] == 'v';
  }

  lemma WindowCuts(what: string, window: string)
    requires IsWindow(window)
    ensures var rest := what + "/" + window;
            VersionLabel.LastIndex(rest, '/') == |what| && rest[..|what|] == what && rest[|what| + 1..] == window
  {
    assert what + "/" + window == what + ['/'] + window;
    assert '/' !in window;
    VersionLabel.LastIndexAt(what, window, '/');
  }

  /** Two load averages share a series exactly when they have the window, and up to the
      difference of slash and underscore the topic in common. */
  lemma LoadsShareSeries(float: ParseFloat, w1: string, n1: string, p1: string, w2: string, n2: string, p2: string)
    requires w1 != "" && w2 != "" && IsWindow(n1) && IsWindow(n2)
    requires float(TrimSpace(p1)).Some? && float(TrimSpace(p2)).Some?
    ensures var a := Parse(float, "$SYS/broker/load/" + w1 + "/" + n1, p1);
            var b := Parse(float, "$SYS/broker/load/" + w2 + "/" + n2, p2);
            && a.Some? && b.Some?
            && (SameSeries(a.value, b.value) <==> Underscored(w1) == Underscored(w2) && n1 == n2)
  {
    LoadIsRead(float, w1, n1, p1);
    LoadIsRead(float, w2, n2, p2);
    var u1, u2 := Underscored(w1), Underscored(w2);
    LoadIsNoVersion(u1);
    assert ("mosquitto_load_" + u1)[|"mosquitto_load_"|..] == u1 && ("mosquitto_load_" + u2)[|"mosquitto_load_"|..] == u2;
  }

  /** The version is what follows the words "mosquitto version". */
  lemma VersionIsRead(float: ParseFloat, version: string)
    requires version != "" && TrimSpace("mosquitto version " + version) == "mosquitto version " + version
    ensures Parse(float, "$SYS/broker/version", "mosquitto version " + version) ==
            Some(Sample(Metric("mosquitto_version_info", Gauge), version, 1))
  {
    HasPrefixConcat(SYS_PREFIX, "version");
    assert "$SYS/broker/version" == SYS_PREFIX + "version";
    HasPrefixConcat("mosquitto version ", version);
  }

  /** Everything else in the table is the number in the payload; that of uptime is in
      front of the word seconds. */
  lemma NumberIsRead(float: ParseFloat, path: string, text: string)
    requires path in TABLE && TrimSpace(text) == text
    requires path == "uptime" ==> TrimSpace(text + " seconds") == text + " seconds"
    ensures Parse(float, "$SYS/broker/" + path, if path == "uptime" then text + " seconds" else text) ==
            match float(text)
            case None => None
            case Some(n) => Some(Sample(TABLE[path], "", n))
  {
    HasPrefixConcat(SYS_PREFIX, path);
    TableIsNoLoad(path);
    if path == "uptime" { assert (text + " seconds")[|text|..] == " seconds" && (text + " seconds")[..|text|] == text; }
  }
}
