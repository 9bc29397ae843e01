/** What the reloader promises over every interleaving with the kubelet and the
    broker. */
module ReloaderTheorems {
  import opened Text
  import opened Mounts
  import opened Disk
  import opened Rounds

  // ------------------------------------------------------------ never half applied

  /** A running broker that works with anything but its copies has a signal coming. */
  predicate SignalDue(w: World, pending: bool) { UpToDate(w) || pending }

  /** A Sync that fails after it has replaced a copy. */
  predicate Torn(sync: SyncEnd) { sync.failed && sync.changed }

  lemma {:induction false} ReadKeeps(w: World, base: Base, names: seq<string>, env: seq<Moment>, i: nat, got: Files)
    requires i <= |names|
    ensures var r := ReadFrom(w, base, names, env, i, got);
            r.world.copies == w.copies && (UpToDate(w) ==> UpToDate(r.world))
    decreases |names| - i
  {
    if i < |names| {
      var w' := HappenAll(w, At(env, i).events);
      EventsKeep(w, At(env, i).events);
      var data := if At(env, i).fails then None else ReadAt(w'.source, base, names[i]);
      if data.Some? { ReadKeeps(w', base, names, env, i + 1, got[names[i] := data.value]); }
    }
  }

  lemma SourceReadKeeps(w: World, names: seq<string>, env: RoundEnv)
    ensures ReadSource(w, names, env).world.copies == w.copies
    ensures UpToDate(w) ==> UpToDate(ReadSource(w, names, env).world)
  {
    var w' := HappenAll(w, env.link.events);
    EventsKeep(w, env.link.events);
    ReadKeeps(w', Resolve(w'.source, env.link.fails), names, env.fileReads, 0, map[]);
  }

  /** The broker falls behind its copies only by a replacement, which sets changed. */
  lemma {:induction false} CopyKeeps(w: World, names: seq<string>, files: Files, env: RoundEnv, i: nat, changed: bool)
    requires i <= |names| && forall n :: n in names ==> n in files
    requires UpToDate(w) || changed
    ensures var r := CopyFrom(w, names, files, env, i, changed); UpToDate(r.world) || r.changed
    ensures changed ==> CopyFrom(w, names, files, env, i, changed).changed
    decreases |names| - i
  {
    if i < |names| {
      var w1 := HappenAll(w, At(env.copyReads, i).events);
      EventsKeep(w, At(env.copyReads, i).events);
      if !At(env.copyReads, i).fails {
        if names[i] in w1.copies && w1.copies[names[i]] == files[names[i]] {
          CopyKeeps(w1, names, files, env, i + 1, changed);
        } else {
          var w2 := HappenAll(w1, WriteAt(env.writes, i).events);
          EventsKeep(w1, WriteAt(env.writes, i).events);
          if Replaces(w2.copies, names[i], WriteAt(env.writes, i)) {
            CopyKeeps(w2.(copies := w2.copies[names[i] := files[names[i]]]), names, files, env, i + 1, true);
          }
        }
      }
    }
  }

  lemma SyncKeeps(w: World, names: seq<string>, env: RoundEnv)
    requires UpToDate(w)
    ensures var r := Sync(w, names, env); UpToDate(r.world) || r.changed
  {
    SourceReadKeeps(w, names, env);
    var read := ReadSource(w, names, env);
    if read.files.Some? {
      SyncCopies(w, names, env);
      CopyKeeps(read.world, names, read.files.value, env, 0, false);
    }
  }

  /** Sync as its two halves. */
  lemma SyncCopies(w: World, names: seq<string>, env: RoundEnv)
    requires ReadSource(w, names, env).files.Some?
    ensures forall n :: n in names ==> n in ReadSource(w, names, env).files.value
    ensures Sync(w, names, env) ==
            CopyFrom(ReadSource(w, names, env).world, names, ReadSource(w, names, env).files.value, env, 0, false)
  {
    var w' := HappenAll(w, env.link.events);
    ReadsEveryName(w', Resolve(w'.source, env.link.fails), names, env.fileReads, 0, map[]);
  }

  lemma TlsKeeps(w: World, env: RoundEnv)
    ensures ReadTls(w, env).fst.copies == w.copies
    ensures UpToDate(w) ==> UpToDate(ReadTls(w, env).fst)
    ensures w.Valid() ==> ReadTls(w, env).fst.Valid()
  {
    var w1 := HappenAll(w, env.tlsLink.events);
    EventsKeep(w, env.tlsLink.events);
    var w2 := HappenAll(w1, env.crt.events);
    EventsKeep(w1, env.crt.events);
    EventsKeep(w2, env.key.events);
  }

  lemma FinishKeeps(w: World, s: State, sync: SyncEnd, read: TlsRead, news: bool, env: RoundEnv)
    requires SignalDue(w, s.pending)
    ensures var r := Finish(w, s, sync, read, news, env); SignalDue(r.world, r.state.pending)
  {
  }

  /** No round leaves a change half applied and forgotten, whatever happens around
      its operations, unless its Sync is torn. */
  lemma RoundKeepsSignalDue(w: World, s: State, cfg: Config, t: Tools, env: RoundEnv)
    requires SignalDue(w, s.pending)
    requires !Torn(Sync(w, cfg.files, env))
    ensures var r := Once(w, s, cfg, t, env); SignalDue(r.world, r.state.pending)
  {
    if UpToDate(w) { SyncKeeps(w, cfg.files, env); }
    var sync := Sync(w, cfg.files, env);
    var news := !sync.failed && sync.changed;
    assert SignalDue(sync.world, s.pending || news);
    if cfg.tls {
      TlsKeeps(sync.world, env);
      var Pair(w1, read) := ReadTls(sync.world, env);
      var check := CheckTls(t, s.tls, read);
      var news' := news || (check.changed && !check.failed);
      FinishKeeps(w1, State(s.pending || news', check.state), sync, read, news', env);
    } else {
      FinishKeeps(sync.world, State(s.pending || news, s.tls), sync, None, news, env);
    }
  }

  /** The same over whole runs, with anything at all happening between the polls. */
  lemma {:induction false} NeverHalfApplied(w: World, s: State, cfg: Config, t: Tools, envs: seq<RoundEnv>)
    requires SignalDue(w, s.pending)
    requires forall r :: r in Run(w, s, cfg, t, envs) ==> !Torn(r.sync)
    ensures forall r :: r in Run(w, s, cfg, t, envs) ==> SignalDue(r.world, r.state.pending)
    decreases |envs|
  {
    if envs != [] {
      var r := Once(w, s, cfg, t, envs[0]);
      var rest := Run(r.world, r.state, cfg, t, envs[1..]);
      assert Run(w, s, cfg, t, envs) == [r] + rest;
      assert r in Run(w, s, cfg, t, envs);
      OnceReportsSync(w, s, cfg, t, envs[0]);
      RoundKeepsSignalDue(w, s, cfg, t, envs[0]);
      forall x | x in rest ensures x in Run(w, s, cfg, t, envs) {
        assert x in [r] + rest;
      }
      NeverHalfApplied(r.world, r.state, cfg, t, envs[1..]);
    }
  }

  lemma OnceReportsSync(w: World, s: State, cfg: Config, t: Tools, env: RoundEnv)
    ensures Once(w, s, cfg, t, env).sync == Sync(w, cfg.files, env)
  {
  }

  // --------------------------------------------- exactly when a round forgets

  /** The kubelet may do anything; the broker neither starts nor stops. */
  predicate NoRestart(es: seq<Event>) { forall e :: e in es ==> e.SourceStep? || e.TlsStep? }

  /** No restart of the broker around any operation of a round. */
  predicate Steady(env: RoundEnv) {
    && NoRestart(env.link.events) && NoRestart(env.tlsLink.events) && NoRestart(env.crt.events)
    && NoRestart(env.key.events) && NoRestart(env.signal.events)
    && (forall m :: m in env.fileReads ==> NoRestart(m.events))
    && (forall m :: m in env.copyReads ==> NoRestart(m.events))
    && (forall m :: m in env.writes ==> NoRestart(m.events))
  }

  lemma {:induction false} SteadyEvents(w: World, es: seq<Event>)
    requires NoRestart(es)
    ensures HappenAll(w, es).broker == w.broker && HappenAll(w, es).copies == w.copies
    decreases |es|
  {
    if es != [] {
      assert es[0] in es;
      SteadyEvents(Happen(w, es[0]), es[1..]);
    }
  }

  lemma {:induction false} SteadyRead(w: World, base: Base, names: seq<string>, env: seq<Moment>, i: nat, got: Files)
    requires i <= |names| && forall m :: m in env ==> NoRestart(m.events)
    ensures var r := ReadFrom(w, base, names, env, i, got); r.world.broker == w.broker && r.world.copies == w.copies
    decreases |names| - i
  {
    if i < |names| {
      var w' := HappenAll(w, At(env, i).events);
      SteadyEvents(w, At(env, i).events);
      var data := if At(env, i).fails then None else ReadAt(w'.source, base, names[i]);
      if data.Some? { SteadyRead(w', base, names, env, i + 1, got[names[i] := data.value]); }
    }
  }

  /** Without a restart Sync leaves the broker as it was, and reports a change exactly
      when it made one. */
  lemma {:induction false} SteadyCopy(w: World, names: seq<string>, files: Files, env: RoundEnv, i: nat, changed: bool)
    requires i <= |names| && (forall n :: n in names ==> n in files) && Steady(env)
    ensures var r := CopyFrom(w, names, files, env, i, changed);
            && r.world.broker == w.broker
            && (r.changed <==> changed || r.world.copies != w.copies)
            && (forall n :: n in names && n in w.copies && w.copies[n] == files[n] ==>
                 n in r.world.copies && r.world.copies[n] == files[n])
    decreases |names| - i
  {
    if i < |names| {
      var name := names[i];
      var w1 := HappenAll(w, At(env.copyReads, i).events);
      SteadyEvents(w, At(env.copyReads, i).events);
      if !At(env.copyReads, i).fails {
        if name in w1.copies && w1.copies[name] == files[name] {
          SteadyCopy(w1, names, files, env, i + 1, changed);
        } else {
          var w2 := HappenAll(w1, WriteAt(env.writes, i).events);
          SteadyEvents(w1, WriteAt(env.writes, i).events);
          if Replaces(w2.copies, name, WriteAt(env.writes, i)) {
            var w3 := w2.(copies := w2.copies[name := files[name]]);
            SteadyCopy(w3, names, files, env, i + 1, true);
            var r := CopyFrom(w3, names, files, env, i + 1, true);
            assert r.world.copies[name] == files[name];
          }
        }
      }
    }
  }

  /** A torn Sync leaves a broker that was up to date behind its copies. */
  lemma TornFallsBehind(w: World, names: seq<string>, env: RoundEnv)
    requires Steady(env) && w.broker == Some(w.copies)
    ensures Sync(w, names, env).world.broker == w.broker
    ensures Sync(w, names, env).changed ==> !UpToDate(Sync(w, names, env).world)
  {
    var w' := HappenAll(w, env.link.events);
    SteadyEvents(w, env.link.events);
    SteadyRead(w', Resolve(w'.source, env.link.fails), names, env.fileReads, 0, map[]);
    var read := ReadSource(w, names, env);
    if read.files.Some? {
      SyncCopies(w, names, env);
      SteadyCopy(read.world, names, read.files.value, env, 0, false);
    }
  }

  /** The round reads a usable TLS pair whose digests are not those seen before. */
  predicate Renewed(w: World, s: State, cfg: Config, t: Tools, env: RoundEnv) {
    cfg.tls && s.tls.seen &&
    var read := ReadTls(Sync(w, cfg.files, env).world, env).snd;
    Usable(t, read) && (t.sum(Crt(read)) != s.tls.crt || t.sum(Key(read)) != s.tls.key)
  }

  /** Over everything the kubelet may do during a round in which the broker runs on,
      the promise fails exactly when Sync fails after it has replaced a copy and
      neither an older change nor a renewed certificate has a signal coming anyway. */
  lemma ForgetsExactlyWhenTorn(w: World, s: State, cfg: Config, t: Tools, env: RoundEnv)
    requires Steady(env)
    requires w.broker.Some? && SignalDue(w, s.pending)
    ensures var r := Once(w, s, cfg, t, env);
            SignalDue(r.world, r.state.pending) <==>
              !Torn(Sync(w, cfg.files, env)) || s.pending || Renewed(w, s, cfg, t, env)
  {
    var sync := Sync(w, cfg.files, env);
    if !Torn(sync) {
      RoundKeepsSignalDue(w, s, cfg, t, env);
    } else if s.pending || Renewed(w, s, cfg, t, env) {
      SignalledOrPending(w, s, cfg, t, env);
    } else {
      TornFallsBehind(w, cfg.files, env);
      var w1 := sync.world;
      SteadyEvents(w1, env.tlsLink.events);
      var w2 := HappenAll(w1, env.tlsLink.events);
      SteadyEvents(w2, env.crt.events);
      SteadyEvents(HappenAll(w2, env.crt.events), env.key.events);
    }
  }

  /** Once a signal is due it is sent in the round, or stays due. */
  lemma SignalledOrPending(w: World, s: State, cfg: Config, t: Tools, env: RoundEnv)
    requires s.pending || Renewed(w, s, cfg, t, env)
    ensures var r := Once(w, s, cfg, t, env); SignalDue(r.world, r.state.pending)
  {
  }

  function TornWorld(): World {
    World(Mount(Some("v2"), map["v2" := map["passwd" := "new", "acl" := "same"]], {"v2"}, map[]),
          Mount(None, map[], {}, map[]),
          map["passwd" := "old", "acl" := "same"],
          Some(map["passwd" := "old", "acl" := "same"]))
  }

  function TornEnv(): RoundEnv {
    QUIET_ROUND.(copyReads := [QUIET, Moment([], true)])
  }

  /** The torn case is real and does not heal: passwd is replaced, reading the copy
      of acl fails once, and because that copy was right all along no later healthy
      round, however many there are, finds anything to signal. The broker keeps
      refusing the new user. */
  lemma TornSyncIsNeverSignalled(t: Tools, n: nat)
    ensures var cfg := Config(["passwd", "acl"], false);
            var first := Once(TornWorld(), STARTED, cfg, t, TornEnv());
            && Torn(first.sync)
            && first.world.copies["passwd"] == "new"
            && first.world.broker.value["passwd"] == "old"
            && forall r :: r in Run(first.world, first.state, cfg, t, seq(n, _ => QUIET_ROUND)) ==>
                 r.world == first.world && !r.sync.failed && !r.signalled && !r.state.pending
  {
    var names := ["passwd", "acl"];
    var w := TornWorld();
    var env := TornEnv();
    var files := map["passwd" := "new", "acl" := "same"];
    ReadTwo(w, env);
    SyncCopies(w, names, env);
    var w' := w.(copies := w.copies["passwd" := "new"]);
    assert At(env.copyReads, 0) == QUIET && At(env.copyReads, 1) == Moment([], true);
    assert Replaces(w.copies, "passwd", WriteAt(env.writes, 0)) by {
      assert TempName("passwd", "")[0] == '.';
    }
    assert CopyFrom(w', names, files, env, 1, true) == SyncEnd(w', true, true);
    assert CopyFrom(w, names, files, env, 0, false) == SyncEnd(w', true, true);
    var cfg := Config(names, false);
    assert Once(w, STARTED, cfg, t, env).world == w' && Once(w, STARTED, cfg, t, env).state == STARTED;
    assert Healthy(w', cfg, t) by {
      forall n | n in names ensures TempName(n, "")[0] == '.' {}
    }
    ThenSilence(w', STARTED, cfg, t, n);
  }

  lemma ReadTwo(w: World, env: RoundEnv)
    requires w.source == TornWorld().source && env.link == QUIET && env.fileReads == []
    ensures ReadSource(w, ["passwd", "acl"], env) == ReadEnd(w, Some(map["passwd" := "new", "acl" := "same"]))
  {
  }

  // ---------------------------------------------------- one version, whole files

  /** The set read is the version ..data names: for each name, that version's contents. */
  ghost predicate IsVersion(m: Mount, names: seq<string>, files: Files) {
    && m.link.Some? && m.link.value in m.dirs
    && var version := m.dirs[m.link.value];
       forall n :: n in names ==> n in version && n in files && files[n] == version[n]
  }

  /** However often the kubelet swaps the link while the set is read, a set read
      through one resolved link is the version that link named. */
  lemma OneVersion(w: World, names: seq<string>, env: RoundEnv)
    requires w.Valid() && w.source.link.Some? && !env.link.fails
    requires ReadSource(w, names, env).files.Some?
    ensures IsVersion(HappenAll(w, env.link.events).source, names, ReadSource(w, names, env).files.value)
  {
    EventsKeep(w, env.link.events);
    StaysLinked(w, env.link.events, OfUsers);
    var w' := HappenAll(w, env.link.events);
    var v := w'.source.link.value;
    OneVersionFrom(w', v, w'.source.dirs[v], names, env.fileReads, 0, map[]);
  }

  lemma {:induction false} OneVersionFrom(w: World, v: string, version: Files, names: seq<string>,
                                          env: seq<Moment>, i: nat, got: Files)
    requires i <= |names| && w.Valid()
    requires v in w.source.used && (v in w.source.dirs ==> w.source.dirs[v] == version)
    requires forall j :: 0 <= j < i ==> names[j] in version && names[j] in got && got[names[j]] == version[names[j]]
    requires ReadFrom(w, Version(v), names, env, i, got).files.Some?
    ensures var files := ReadFrom(w, Version(v), names, env, i, got).files.value;
            forall n :: n in names ==> n in version && n in files && files[n] == version[n]
    decreases |names| - i
  {
    if i < |names| {
      var w' := HappenAll(w, At(env, i).events);
      EventsKeep(w, At(env, i).events);
      VersionsNeverChange(w, At(env, i).events, OfUsers, v);
      var data := ReadAt(w'.source, Version(v), names[i]).value;
      OneVersionFrom(w', v, version, names, env, i + 1, got[names[i] := data]);
    }
  }

  /** The world as file i is read. */
  function AtRead(w: World, env: RoundEnv, i: nat): World {
    var before := if i == 0 then HappenAll(w, env.link.events) else AtRead(w, env, i - 1);
    HappenAll(before, At(env.fileReads, i).events)
  }

  /** If the set was read at all, it is the version that ..data named when the link was
      read, or when one of the files was. */
  ghost predicate ReadsOneVersion(w: World, names: seq<string>, env: RoundEnv) {
    ReadSource(w, names, env).files.Some? ==>
      var files := ReadSource(w, names, env).files.value;
      || IsVersion(HappenAll(w, env.link.events).source, names, files)
      || exists i :: 0 <= i < |names| && IsVersion(AtRead(w, env, i).source, names, files)
  }

  /** Over every interleaving with the kubelet a set of several files is one published
      version, if and only if the ..data link could be read. */
  lemma OneVersionExactlyWhenLinkRead(w: World, names: seq<string>, fails: bool)
    requires w.Valid() && w.source.link.Some?
    requires exists a, b :: a in names && b in names && a != b
    ensures (forall env: RoundEnv :: env.link.fails == fails ==> ReadsOneVersion(w, names, env)) <==> !fails
  {
    if fails {
      var env := MixingRound(w, names);
      UnreadableLinkMixes(w, names, env);
      assert !ReadsOneVersion(w, names, env);
    } else {
      forall env: RoundEnv | !env.link.fails ensures ReadsOneVersion(w, names, env) {
        if ReadSource(w, names, env).files.Some? { OneVersion(w, names, env); }
      }
    }
  }

  /** A name longer than all of a set. */
  lemma {:induction false} FreshName(used: set<string>) returns (v: string)
    ensures v != "" && forall u :: u in used ==> |u| < |v|
  {
    if used == {} {
      v := "v";
    } else {
      var u :| u in used;
      var rest := FreshName(used - {u});
      v := rest + u;
      forall x | x in used ensures |x| < |v| {
        if x != u { assert x in used - {u}; }
      }
    }
  }

  function AllSay(names: seq<string>, data: string): Files { map n | n in names :: data }

  function Published(w: World, side: Side, v: string, files: Files): World {
    if side.OfUsers? then w.(source := Step(w.source, Publish(v, files))) else w.(tls := Step(w.tls, Publish(v, files)))
  }

  lemma PublishHappens(w: World, side: Side, v: string, files: Files)
    ensures HappenAll(w, [if side.OfUsers? then SourceStep(Publish(v, files)) else TlsStep(Publish(v, files))]) ==
            Published(w, side, v, files)
  {
    var e := if side.OfUsers? then SourceStep(Publish(v, files)) else TlsStep(Publish(v, files));
    assert [e][1..] == [];
    assert HappenAll(Happen(w, e), []) == Happen(w, e);
  }

  /** The link cannot be read; all files say x until just before the last one is read,
      and then all say y. */
  ghost predicate Mixes(w: World, names: seq<string>, env: RoundEnv, v1: string, v2: string) {
    && names != [] && v1 !in w.source.used && v2 !in w.source.used && v1 != v2
    && env.link == Moment([SourceStep(Publish(v1, AllSay(names, "x")))], true)
    && env.fileReads == seq(|names| - 1, _ => QUIET) + [Moment([SourceStep(Publish(v2, AllSay(names, "y")))], false)]
  }

  lemma MixingRound(w: World, names: seq<string>) returns (env: RoundEnv)
    requires names != []
    ensures exists v1, v2 :: Mixes(w, names, env, v1, v2)
  {
    var v1 := FreshName(w.source.used);
    var v2 := FreshName(w.source.used + {v1});
    env := QUIET_ROUND.(
      link := Moment([SourceStep(Publish(v1, AllSay(names, "x")))], true),
      fileReads := seq(|names| - 1, _ => QUIET) + [Moment([SourceStep(Publish(v2, AllSay(names, "y")))], false)]);
    assert Mixes(w, names, env, v1, v2);
  }

  /** Then the last name says y and all others say x. */
  lemma UnreadableLinkMixes(w: World, names: seq<string>, env: RoundEnv)
    requires exists a, b :: a in names && b in names && a != b
    requires exists v1, v2 :: Mixes(w, names, env, v1, v2)
    ensures ReadSource(w, names, env).files.Some?
    ensures !ReadsOneVersion(w, names, env)
  {
    var v1, v2 :| Mixes(w, names, env, v1, v2);
    var w1 := Published(w, OfUsers, v1, AllSay(names, "x"));
    var w2 := Published(w1, OfUsers, v2, AllSay(names, "y"));
    PublishHappens(w, OfUsers, v1, AllSay(names, "x"));
    PublishHappens(w1, OfUsers, v2, AllSay(names, "y"));
    MixedRead(w1, w2, names, env.fileReads, 0, map[]);
    var files := ReadSource(w, names, env).files.value;
    var last := names[|names| - 1];
    var a, b :| a in names && b in names && a != b;
    var other := if a == last then b else a;
    assert files[last] == "y" && files[other] == "x";
    assert !IsVersion(w1.source, names, files);
    assert !IsVersion(w2.source, names, files) by { assert AllSay(names, "y")[other] == "y"; }
    forall i | 0 <= i < |names| ensures !IsVersion(AtRead(w, env, i).source, names, files) {
      MixedWorlds(w, w1, w2, names, env, i);
    }
  }

  lemma {:induction false} MixedWorlds(w: World, w1: World, w2: World, names: seq<string>, env: RoundEnv, i: nat)
    requires i < |names| && |env.fileReads| == |names|
    requires HappenAll(w, env.link.events) == w1 && HappenAll(w1, env.fileReads[|names| - 1].events) == w2
    requires forall k :: 0 <= k < |names| - 1 ==> env.fileReads[k] == QUIET
    ensures AtRead(w, env, i) == if i < |names| - 1 then w1 else w2
  {
    if i > 0 { MixedWorlds(w, w1, w2, names, env, i - 1); }
  }

  lemma {:induction false} MixedRead(w1: World, w2: World, names: seq<string>, env: seq<Moment>, i: nat, got: Files)
    requires i < |names| && |env| == |names|
    requires w1.source.link.Some? && w1.source.link.value in w1.source.dirs
    requires w1.source.dirs[w1.source.link.value] == AllSay(names, "x")
    requires w2.source.link.Some? && w2.source.link.value in w2.source.dirs
    requires w2.source.dirs[w2.source.link.value] == AllSay(names, "y")
    requires forall k :: 0 <= k < |names| - 1 ==> env[k] == QUIET
    requires HappenAll(w1, env[|names| - 1].events) == w2 && !env[|names| - 1].fails
    requires forall k :: 0 <= k < i ==> names[k] in got && got[names[k]] == "x"
    ensures var r := ReadFrom(w1, Mountpoint, names, env, i, got).files;
            r.Some? && forall n :: n in names ==> n in r.value && r.value[n] == if n == names[|names| - 1] then "y" else "x"
    decreases |names| - i
  {
    if i < |names| - 1 {
      MixedRead(w1, w2, names, env, i + 1, got[names[i] := "x"]);
    } else {
      var all := got[names[i] := "y"];
      assert ReadAt(w2.source, Mountpoint, names[i]) == Some("y");
      assert ReadFrom(w2, Mountpoint, names, env, i + 1, all).files == Some(all);
    }
  }

  /** The certificate and the key are those of the version ..data names. */
  ghost predicate IsPair(m: Mount, pair: Pair<string, string>) {
    && m.link.Some? && m.link.value in m.dirs
    && var version := m.dirs[m.link.value];
       "tls.crt" in version && "tls.key" in version && pair == Pair(version["tls.crt"], version["tls.key"])
  }

  /** The worlds as the TLS link, the certificate and the key are read. */
  function AtTlsRead(w: World, env: RoundEnv, i: nat): World {
    var w1 := HappenAll(w, env.tlsLink.events);
    var w2 := HappenAll(w1, env.crt.events);
    if i == 0 then w1 else if i == 1 then w2 else HappenAll(w2, env.key.events)
  }

  ghost predicate ReadsOnePair(w: World, env: RoundEnv) {
    var read := ReadTls(w, env).snd;
    read.Some? ==> exists i :: 0 <= i <= 2 && IsPair(AtTlsRead(w, env, i).tls, read.value)
  }

  lemma OnePair(w: World, env: RoundEnv)
    requires w.Valid() && w.tls.link.Some? && !env.tlsLink.fails
    requires ReadTls(w, env).snd.Some?
    ensures IsPair(AtTlsRead(w, env, 0).tls, ReadTls(w, env).snd.value)
  {
    var w1 := AtTlsRead(w, env, 0);
    var w2 := AtTlsRead(w, env, 1);
    EventsKeep(w, env.tlsLink.events);
    EventsKeep(w1, env.crt.events);
    StaysLinked(w, env.tlsLink.events, OfTls);
    var v := w1.tls.link.value;
    VersionsNeverChange(w1, env.crt.events, OfTls, v);
    VersionsNeverChange(w2, env.key.events, OfTls, v);
  }

  /** The same for the TLS pair: certificate and key come from one published version over
      every interleaving, if and only if the ..data link could be read. */
  lemma OnePairExactlyWhenLinkRead(w: World, fails: bool)
    requires w.Valid() && w.tls.link.Some?
    ensures (forall env: RoundEnv :: env.tlsLink.fails == fails ==> ReadsOnePair(w, env)) <==> !fails
  {
    if fails {
      var env := MixedPair(w);
      assert !ReadsOnePair(w, env);
    } else {
      forall env: RoundEnv | !env.tlsLink.fails ensures ReadsOnePair(w, env) {
        if ReadTls(w, env).snd.Some? { OnePair(w, env); }
      }
    }
  }

  lemma MixedPair(w: World) returns (env: RoundEnv)
    ensures env.tlsLink.fails && !ReadsOnePair(w, env)
  {
    var names := ["tls.crt", "tls.key"];
    var v1 := FreshName(w.tls.used);
    var v2 := FreshName(w.tls.used + {v1});
    var x, y := AllSay(names, "x"), AllSay(names, "y");
    var w1 := Published(w, OfTls, v1, x);
    var w2 := Published(w1, OfTls, v2, y);
    PublishHappens(w, OfTls, v1, x);
    PublishHappens(w1, OfTls, v2, y);
    env := QUIET_ROUND.(tlsLink := Moment([TlsStep(Publish(v1, x))], true), key := Moment([TlsStep(Publish(v2, y))], false));
    assert "tls.crt" == names[0] && "tls.key" == names[1];
    assert ReadAt(w1.tls, Mountpoint, "tls.crt") == Some("x");
    assert ReadAt(w2.tls, Mountpoint, "tls.key") == Some("y");
    assert ReadTls(w, env).snd == Some(Pair("x", "y"));
    assert AtTlsRead(w, env, 0) == w1 && AtTlsRead(w, env, 1) == w1 && AtTlsRead(w, env, 2) == w2;
  }

  // ------------------------------------------------------------ never half written

  lemma TempIsHidden(name: string, suffix: string)
    ensures TempName(name, suffix) != "" && TempName(name, suffix)[0] == '.'
    ensures TempName(name, suffix) != name
  {
    assert |TempName(name, suffix)| > |name|;
  }

  /** The states a write leads through after its first two operations. */
  lemma Written(copies: Files, temp: string, data: string, ops: seq<FileOp>)
    requires |ops| >= 2 && ops[0] == Create(temp) && ops[1] == Append(temp, data)
    ensures Replay(copies, ops[..0]) == copies
    ensures Replay(copies, ops[..1]) == copies[temp := ""]
    ensures Replay(copies, ops[..2]) == copies[temp := data]
  {
    ReplayNext(copies, ops, 0);
    ReplayNext(copies, ops, 1);
    assert "" + data == data;
  }

  /** A write that fails takes its temporary file away again. */
  lemma FailedWrite(copies: Files, name: string, temp: string, data: string, part: string)
    requires temp !in copies && temp != "" && temp[0] == '.'
    ensures var ops := [Create(temp), Append(temp, part), Remove(temp)];
            Replay(copies, ops) == copies && AlwaysWhole(copies, copies[name := data], copies, ops)
  {
    var ops := [Create(temp), Append(temp, part), Remove(temp)];
    Written(copies, temp, part, ops);
    ReplayNext(copies, ops, 2);
    assert ops[..3] == ops;
    assert copies[temp := part] - {temp} == copies;
  }

  lemma FinishedStates(copies: Files, name: string, temp: string, data: string, ops: seq<FileOp>)
    requires ops == [Create(temp), Append(temp, data), Rename(temp, name), Remove(temp)]
    requires temp !in copies && temp != name
    ensures Replay(copies, ops[..3]) == copies[name := data]
    ensures Replay(copies, ops) == copies[name := data]
  {
    Written(copies, temp, data, ops);
    ReplayNext(copies, ops, 2);
    assert copies[temp := data] - {temp} == copies;
    ReplayNext(copies, ops, 3);
    assert copies[name := data] - {temp} == copies[name := data];
    assert ops[..4] == ops;
  }

  lemma FinishedWrite(copies: Files, name: string, temp: string, data: string)
    requires temp !in copies && temp != "" && temp[0] == '.' && temp != name
    ensures var ops := [Create(temp), Append(temp, data), Rename(temp, name), Remove(temp)];
            Replay(copies, ops) == copies[name := data] && AlwaysWhole(copies, copies[name := data], copies, ops)
  {
    var ops := [Create(temp), Append(temp, data), Rename(temp, name), Remove(temp)];
    Written(copies, temp, data, ops);
    FinishedStates(copies, name, temp, data, ops);
    forall k | 0 <= k <= |ops| ensures Whole(copies, copies[name := data], Replay(copies, ops[..k])) {
      if k == 4 { assert ops[..k] == ops; }
    }
  }

  /** writeAtomic replaces the copy or leaves everything as it was, and leads only
      through states in which every file is whole. */
  lemma WriteIsAtomic(copies: Files, name: string, data: string, m: WriteMoment)
    ensures var ops := WriteOps(copies, name, data, m);
            && Replay(copies, ops) == (if Replaces(copies, name, m) then copies[name := data] else copies)
            && AlwaysWhole(copies, copies[name := data], copies, ops)
  {
    var ops := WriteOps(copies, name, data, m);
    var temp := TempName(name, m.suffix);
    TempIsHidden(name, m.suffix);
    if |ops| == 4 {
      FinishedWrite(copies, name, temp, data);
    } else if |ops| == 3 {
      FailedWrite(copies, name, temp, data, ops[1].data);
    }
  }

  lemma ReplayNext(d: Files, ops: seq<FileOp>, k: nat)
    requires k < |ops|
    ensures Replay(d, ops[..k + 1]) == Apply(Replay(d, ops[..k]), ops[k])
  {
    assert ops[..k + 1][..k] == ops[..k];
  }

  /** The operations of Sync lead to the copies Sync ends with. */
  lemma {:induction false} CopyOpsLand(w: World, names: seq<string>, files: Files, env: RoundEnv, i: nat, changed: bool)
    requires i <= |names| && forall n :: n in names ==> n in files
    ensures Replay(w.copies, CopyOps(w, names, files, env, i)) == CopyFrom(w, names, files, env, i, changed).world.copies
    decreases |names| - i
  {
    if i < |names| {
      var name := names[i];
      var w1 := HappenAll(w, At(env.copyReads, i).events);
      EventsKeep(w, At(env.copyReads, i).events);
      if !At(env.copyReads, i).fails {
        if name in w1.copies && w1.copies[name] == files[name] {
          CopyOpsLand(w1, names, files, env, i + 1, changed);
        } else {
          var w2 := HappenAll(w1, WriteAt(env.writes, i).events);
          EventsKeep(w1, WriteAt(env.writes, i).events);
          WriteIsAtomic(w2.copies, name, files[name], WriteAt(env.writes, i));
          if Replaces(w2.copies, name, WriteAt(env.writes, i)) {
            var w3 := w2.(copies := w2.copies[name := files[name]]);
            CopyOpsLand(w3, names, files, env, i + 1, true);
            ReplayOn(w.copies, WriteOps(w2.copies, name, files[name], WriteAt(env.writes, i)),
                     CopyOps(w3, names, files, env, i + 1));
          }
        }
      }
    }
  }

  /** A replacement within a directory that is whole stays whole. */
  lemma WriteStaysWhole(before: Files, files: Files, copies: Files, name: string, m: WriteMoment)
    requires name in files && Whole(before, files, copies)
    ensures AlwaysWhole(before, files, copies, WriteOps(copies, name, files[name], m))
    ensures Whole(before, files, copies[name := files[name]])
  {
    WriteIsAtomic(copies, name, files[name], m);
    var ops := WriteOps(copies, name, files[name], m);
    forall k | 0 <= k <= |ops| ensures Whole(before, files, Replay(copies, ops[..k])) {
      assert Whole(copies, copies[name := files[name]], Replay(copies, ops[..k]));
    }
  }

  lemma {:induction false} CopyStaysWhole(before: Files, w: World, names: seq<string>, files: Files, env: RoundEnv, i: nat)
    requires i <= |names| && forall n :: n in names ==> n in files
    requires Whole(before, files, w.copies)
    ensures AlwaysWhole(before, files, w.copies, CopyOps(w, names, files, env, i))
    decreases |names| - i
  {
    if i < |names| {
      var name := names[i];
      var w1 := HappenAll(w, At(env.copyReads, i).events);
      EventsKeep(w, At(env.copyReads, i).events);
      if !At(env.copyReads, i).fails {
        if name in w1.copies && w1.copies[name] == files[name] {
          CopyStaysWhole(before, w1, names, files, env, i + 1);
        } else {
          var w2 := HappenAll(w1, WriteAt(env.writes, i).events);
          EventsKeep(w1, WriteAt(env.writes, i).events);
          var ops := WriteOps(w2.copies, name, files[name], WriteAt(env.writes, i));
          WriteStaysWhole(before, files, w2.copies, name, WriteAt(env.writes, i));
          if Replaces(w2.copies, name, WriteAt(env.writes, i)) {
            var w3 := w2.(copies := w2.copies[name := files[name]]);
            CopyStaysWhole(before, w3, names, files, env, i + 1);
            WriteIsAtomic(w2.copies, name, files[name], WriteAt(env.writes, i));
            AlwaysWholeOn(before, files, w2.copies, ops, CopyOps(w3, names, files, env, i + 1));
          }
        }
      }
    }
  }

  /** Sync, operation by operation: it ends with the copies it should, and in every state
      in between, whatever fails and whatever happens around it, each copy is entirely the
      old one or entirely the one just read. */
  lemma NeverHalfWritten(w: World, names: seq<string>, env: RoundEnv)
    ensures Replay(w.copies, SyncOps(w, names, env)) == Sync(w, names, env).world.copies
    ensures match ReadSource(w, names, env).files
            case None => SyncOps(w, names, env) == []
            case Some(files) => AlwaysWhole(w.copies, files, w.copies, SyncOps(w, names, env))
  {
    SourceReadKeeps(w, names, env);
    var read := ReadSource(w, names, env);
    if read.files.Some? {
      SyncCopies(w, names, env);
      CopyOpsLand(read.world, names, read.files.value, env, 0, false);
      CopyStaysWhole(w.copies, read.world, names, read.files.value, env, 0);
    }
  }

  /** A Sync that could not read its source has replaced nothing. */
  lemma UnreadSourceChangesNothing(w: World, names: seq<string>, env: RoundEnv)
    ensures ReadSource(w, names, env).files.None? ==>
              Sync(w, names, env).failed && !Sync(w, names, env).changed && Sync(w, names, env).world.copies == w.copies
  {
    SourceReadKeeps(w, names, env);
  }

  /** Whatever happens around it, a successful Sync leaves every copy equal to the set
      it read, and reports a change exactly when some copy differed before. */
  lemma SyncSucceeds(w: World, names: seq<string>, env: RoundEnv)
    requires !Sync(w, names, env).failed
    ensures var r := Sync(w, names, env);
            && ReadSource(w, names, env).files.Some?
            && (forall n :: n in names ==>
                 n in ReadSource(w, names, env).files.value && n in r.world.copies &&
                 r.world.copies[n] == ReadSource(w, names, env).files.value[n])
            && (forall n :: n !in names ==> SameAt(r.world.copies, w.copies, n))
            && (r.changed <==> exists n :: n in names && !SameAt(w.copies, ReadSource(w, names, env).files.value, n))
  {
    SourceReadKeeps(w, names, env);
    SyncCopies(w, names, env);
    var read := ReadSource(w, names, env);
    CopySucceeds(read.world, names, read.files.value, env, 0, false);
  }

  lemma {:induction false} CopySucceeds(w: World, names: seq<string>, files: Files, env: RoundEnv, i: nat, changed: bool)
    requires i <= |names| && forall n :: n in names ==> n in files
    requires forall j :: 0 <= j < i ==> names[j] in w.copies && w.copies[names[j]] == files[names[j]]
    requires !CopyFrom(w, names, files, env, i, changed).failed
    ensures var r := CopyFrom(w, names, files, env, i, changed);
            && (forall n :: n in names ==> n in r.world.copies && r.world.copies[n] == files[n])
            && (forall n :: n !in names ==> SameAt(r.world.copies, w.copies, n))
            && (r.changed <==> changed || exists n :: n in names && !SameAt(w.copies, files, n))
    decreases |names| - i
  {
    if i < |names| {
      var name := names[i];
      var w1 := HappenAll(w, At(env.copyReads, i).events);
      EventsKeep(w, At(env.copyReads, i).events);
      if name in w1.copies && w1.copies[name] == files[name] {
        CopySucceeds(w1, names, files, env, i + 1, changed);
      } else {
        var w2 := HappenAll(w1, WriteAt(env.writes, i).events);
        EventsKeep(w1, WriteAt(env.writes, i).events);
        assert name in names && !SameAt(w.copies, files, name);
        CopySucceeds(w2.(copies := w2.copies[name := files[name]]), names, files, env, i + 1, true);
      }
    } else {
      forall n | n in names ensures n in w.copies && w.copies[n] == files[n] {
        var j :| 0 <= j < |names| && names[j] == n;
      }
    }
  }

  // ------------------------------------------------------------------- TLS cache

  /** Among these contents, equal digests mean equal contents. */
  ghost predicate TellsApart(t: Tools, contents: set<string>) {
    forall a, b :: a in contents && b in contents && t.sum(a) == t.sum(b) ==> a == b
  }

  ghost predicate Among(read: TlsRead, contents: set<string>) { Crt(read) in contents && Key(read) in contents }

  /** The cache holds the digests and the validity of a pair that was read. */
  ghost predicate Remembers(t: Tools, s: TlsState, read: TlsRead) {
    s.seen && s.crt == t.sum(Crt(read)) && s.key == t.sum(Key(read)) && s.valid == Usable(t, read)
  }

  /** After every check the cached validity is that of the pair just read, as if it
      had been validated afresh; a pair that cannot be read counts as invalid. A change is
      reported when the pair is another than the last one, and an error when the pair is
      new and not usable: a broken pair is reported once. */
  lemma CacheRefinesChecking(t: Tools, s: TlsState, last: TlsRead, read: TlsRead, contents: set<string>)
    requires !t.pairs("", "")
    requires TellsApart(t, contents) && Among(last, contents) && Among(read, contents)
    requires s.seen ==> Remembers(t, s, last)
    ensures Remembers(t, CheckTls(t, s, read).state, read)
    ensures CheckTls(t, s, read).changed <==> s.seen && (Crt(read) != Crt(last) || Key(read) != Key(last))
    ensures CheckTls(t, s, read).failed <==>
              (!s.seen || Crt(read) != Crt(last) || Key(read) != Key(last)) && !Usable(t, read)
  {
  }

  /** Over any run a signal is sent only in a round whose own read of the TLS mount
      was a matching pair. */
  lemma {:induction false} SignalsOnlyOverValidPairs(w: World, s: State, cfg: Config, t: Tools, envs: seq<RoundEnv>,
                                                     last: TlsRead, contents: set<string>)
    requires cfg.tls && !t.pairs("", "")
    requires TellsApart(t, contents) && Among(last, contents)
    requires s.tls.seen ==> Remembers(t, s.tls, last)
    requires forall r :: r in Run(w, s, cfg, t, envs) ==> Among(r.read, contents)
    ensures forall r :: r in Run(w, s, cfg, t, envs) ==>
              r.state.tls.valid == Usable(t, r.read) && (r.signalled ==> Usable(t, r.read))
    decreases |envs|
  {
    if envs != [] {
      var r := Once(w, s, cfg, t, envs[0]);
      var rest := Run(r.world, r.state, cfg, t, envs[1..]);
      assert Run(w, s, cfg, t, envs) == [r] + rest;
      assert r in Run(w, s, cfg, t, envs);
      forall x | x in rest ensures x in Run(w, s, cfg, t, envs) {
        assert x in [r] + rest;
      }
      CacheRefinesChecking(t, s.tls, last, r.read, contents);
      SignalsOnlyOverValidPairs(r.world, r.state, cfg, t, envs[1..], r.read, contents);
    }
  }

  // ------------------------------------------------------ convergence, quiescence

  /** All that a round needs to finish its work. */
  ghost predicate Healthy(w: World, cfg: Config, t: Tools) {
    && w.broker.Some?
    && (forall n :: n in cfg.files ==> ReadAt(w.source, Resolve(w.source, false), n).Some?)
    && (forall n :: n in cfg.files ==> TempName(n, "") !in w.copies && TempName(n, "") !in cfg.files)
    && (cfg.tls ==> Usable(t, ReadTls(w, QUIET_ROUND).snd))
  }

  /** Every copy equals the file of the Secret. */
  ghost predicate Copied(w: World, cfg: Config) {
    forall n :: n in cfg.files ==> (n in w.copies && Some(w.copies[n]) == ReadAt(w.source, Resolve(w.source, false), n))
  }

  lemma {:induction false} HealthyRead(w: World, names: seq<string>, i: nat, got: Files)
    requires i <= |names|
    requires forall n :: n in names ==> ReadAt(w.source, Resolve(w.source, false), n).Some?
    requires forall j :: 0 <= j < i ==>
               names[j] in got && Some(got[names[j]]) == ReadAt(w.source, Resolve(w.source, false), names[j])
    ensures var r := ReadFrom(w, Resolve(w.source, false), names, [], i, got);
            r.world == w && r.files.Some? && forall n :: n in names ==>
              n in r.files.value && Some(r.files.value[n]) == ReadAt(w.source, Resolve(w.source, false), n)
    decreases |names| - i
  {
    if i < |names| {
      assert names[i] in names;
      var data := ReadAt(w.source, Resolve(w.source, false), names[i]).value;
      HealthyRead(w, names, i + 1, got[names[i] := data]);
    }
  }

  lemma {:induction false} HealthyCopy(w: World, names: seq<string>, files: Files, i: nat, changed: bool)
    requires i <= |names| && forall n :: n in names ==> n in files
    requires forall n :: n in names ==> TempName(n, "") !in w.copies && TempName(n, "") !in names
    ensures var r := CopyFrom(w, names, files, QUIET_ROUND, i, changed);
            !r.failed && r.world == w.(copies := r.world.copies)
    decreases |names| - i
  {
    if i < |names| {
      var name := names[i];
      assert name in names;
      if name in w.copies && w.copies[name] == files[name] {
        HealthyCopy(w, names, files, i + 1, changed);
      } else {
        var w3 := w.(copies := w.copies[name := files[name]]);
        forall n | n in names ensures TempName(n, "") !in w3.copies {
          assert TempName(n, "") != name;
        }
        HealthyCopy(w3, names, files, i + 1, true);
      }
    }
  }

  lemma HealthySync(w: World, names: seq<string>)
    requires forall n :: n in names ==> ReadAt(w.source, Resolve(w.source, false), n).Some?
    requires forall n :: n in names ==> TempName(n, "") !in w.copies && TempName(n, "") !in names
    ensures var r := Sync(w, names, QUIET_ROUND);
            && !r.failed
            && r.world == w.(copies := r.world.copies)
            && (r.changed <==> r.world.copies != w.copies)
            && (forall n :: n in names ==>
                 n in r.world.copies && Some(r.world.copies[n]) == ReadAt(w.source, Resolve(w.source, false), n))
            && (forall n :: n !in names ==> SameAt(r.world.copies, w.copies, n))
  {
    HealthyRead(w, names, 0, map[]);
    SyncCopies(w, names, QUIET_ROUND);
    var files := ReadSource(w, names, QUIET_ROUND).files.value;
    HealthyCopy(w, names, files, 0, false);
    CopySucceeds(w, names, files, QUIET_ROUND, 0, false);
    SteadyCopy(w, names, files, QUIET_ROUND, 0, false);
  }

  /** No new version of the Secret is published. */
  predicate NoPublish(es: seq<Event>) { forall e :: e in es ==> !(e.SourceStep? && e.step.Publish?) }

  /** No operation of the round fails, and after its first no new version of the Secret is
      published; the broker may come and go, and versions be retired. */
  ghost predicate Calm(env: RoundEnv) {
    && !env.link.fails && !env.signal.fails
    && (forall m :: m in env.fileReads ==> !m.fails && NoPublish(m.events))
    && (forall m :: m in env.copyReads ==> !m.fails && NoPublish(m.events))
    && (forall m :: m in env.writes ==> m.fault.NoFault? && NoPublish(m.events))
    && NoPublish(env.tlsLink.events) && NoPublish(env.crt.events) && NoPublish(env.key.events)
    && NoPublish(env.signal.events)
  }

  /** What the Secret says now under a name. */
  function Current(w: World, name: string): Option<string> { ReadAt(w.source, Resolve(w.source, false), name) }

  /** No temporary name of the round is taken. */
  ghost predicate TempsFree(copies: Files, names: seq<string>, env: RoundEnv, from: nat) {
    forall i :: from <= i < |names| ==>
      var temp := TempName(names[i], WriteAt(env.writes, i).suffix); temp !in copies && temp !in names
  }

  lemma {:induction false} CurrentStays(w: World, es: seq<Event>)
    requires NoPublish(es)
    ensures var w' := HappenAll(w, es);
            && Resolve(w'.source, false) == Resolve(w.source, false)
            && forall n :: Current(w', n) == Current(w, n)
    decreases |es|
  {
    if es != [] {
      assert es[0] in es;
      CurrentStays(Happen(w, es[0]), es[1..]);
    }
  }

  lemma {:induction false} CalmRead(w: World, names: seq<string>, env: seq<Moment>, i: nat, got: Files)
    requires i <= |names| && forall m :: m in env ==> !m.fails && NoPublish(m.events)
    requires forall n :: n in names ==> Current(w, n).Some?
    requires forall j :: 0 <= j < i ==> names[j] in got && Some(got[names[j]]) == Current(w, names[j])
    ensures var r := ReadFrom(w, Resolve(w.source, false), names, env, i, got);
            && r.files.Some?
            && (forall n :: n in names ==> n in r.files.value && Some(r.files.value[n]) == Current(w, n))
            && forall n :: Current(r.world, n) == Current(w, n)
    decreases |names| - i
  {
    if i < |names| {
      var w' := HappenAll(w, At(env, i).events);
      CurrentStays(w, At(env, i).events);
      assert names[i] in names;
      CalmRead(w', names, env, i + 1, got[names[i] := Current(w, names[i]).value]);
    }
  }

  lemma {:induction false} CalmCopy(w: World, names: seq<string>, files: Files, env: RoundEnv, i: nat, changed: bool)
    requires i <= |names| && (forall n :: n in names ==> n in files)
    requires Calm(env) && TempsFree(w.copies, names, env, i)
    ensures var r := CopyFrom(w, names, files, env, i, changed);
            !r.failed && forall n :: Current(r.world, n) == Current(w, n)
    decreases |names| - i
  {
    if i < |names| {
      var name := names[i];
      var w1 := HappenAll(w, At(env.copyReads, i).events);
      CurrentStays(w, At(env.copyReads, i).events);
      EventsKeep(w, At(env.copyReads, i).events);
      if name in w1.copies && w1.copies[name] == files[name] {
        CalmCopy(w1, names, files, env, i + 1, changed);
      } else {
        var w2 := HappenAll(w1, WriteAt(env.writes, i).events);
        CurrentStays(w1, WriteAt(env.writes, i).events);
        EventsKeep(w1, WriteAt(env.writes, i).events);
        assert Replaces(w2.copies, name, WriteAt(env.writes, i));
        CalmCopy(w2.(copies := w2.copies[name := files[name]]), names, files, env, i + 1, true);
      }
    }
  }

  /** In a calm round Sync succeeds, and leaves the copies equal to the Secret as it was
      when the link was read and still is. */
  lemma CalmSync(w: World, names: seq<string>, env: RoundEnv)
    requires Calm(env) && TempsFree(w.copies, names, env, 0)
    requires forall n :: n in names ==> Current(HappenAll(w, env.link.events), n).Some?
    ensures var r := Sync(w, names, env);
            && !r.failed
            && (forall n :: n in names ==> n in r.world.copies && Some(r.world.copies[n]) == Current(r.world, n))
            && forall n :: Current(r.world, n) == Current(HappenAll(w, env.link.events), n)
  {
    var w' := HappenAll(w, env.link.events);
    EventsKeep(w, env.link.events);
    CalmRead(w', names, env.fileReads, 0, map[]);
    SourceReadKeeps(w, names, env);
    SyncCopies(w, names, env);
    var read := ReadSource(w, names, env);
    CalmCopy(read.world, names, read.files.value, env, 0, false);
    SyncSucceeds(w, names, env);
  }

  /** What a calm round needs besides: a Secret that has the files, free temporary names,
      and a TLS pair that is found to match. */
  ghost predicate Converging(w: World, cfg: Config, t: Tools, env: RoundEnv) {
    && Calm(env) && TempsFree(w.copies, cfg.files, env, 0)
    && (forall n :: n in cfg.files ==> Current(HappenAll(w, env.link.events), n).Some?)
    && (cfg.tls ==> Usable(t, ReadTls(Sync(w, cfg.files, env).world, env).snd))
  }

  lemma CalmTls(w: World, env: RoundEnv)
    requires Calm(env)
    ensures forall n :: Current(ReadTls(w, env).fst, n) == Current(w, n)
  {
    var w1 := HappenAll(w, env.tlsLink.events);
    var w2 := HappenAll(w1, env.crt.events);
    CurrentStays(w, env.tlsLink.events);
    CurrentStays(w1, env.crt.events);
    CurrentStays(w2, env.key.events);
  }

  /** The end of a calm round over copies that are right. */
  lemma CalmFinish(w: World, s: State, cfg: Config, sync: SyncEnd, read: TlsRead, news: bool, env: RoundEnv)
    requires Calm(env) && SignalDue(w, s.pending)
    requires forall n :: n in cfg.files ==> n in w.copies && Some(w.copies[n]) == Current(w, n)
    ensures var r := Finish(w, s, sync, read, news, env);
            && Copied(r.world, cfg)
            && (r.world.broker.Some? ==> r.world.broker == Some(r.world.copies) && !r.state.pending)
            && forall n :: Current(r.world, n) == Current(w, n)
  {
    EventsKeep(w, env.signal.events);
    CurrentStays(w, env.signal.events);
  }

  /** One calm round, whatever went before it without a torn Sync, and while the broker may
      start and stop at any moment: the copies equal the Secret as its link was read, and a
      broker that runs has loaded them, with nothing pending. */
  lemma RoundConverges(w: World, s: State, cfg: Config, t: Tools, env: RoundEnv, last: TlsRead, contents: set<string>)
    requires Converging(w, cfg, t, env) && SignalDue(w, s.pending)
    requires !t.pairs("", "") && TellsApart(t, contents)
    requires Among(last, contents) && Among(ReadTls(Sync(w, cfg.files, env).world, env).snd, contents)
    requires s.tls.seen ==> Remembers(t, s.tls, last)
    ensures var r := Once(w, s, cfg, t, env);
            && Copied(r.world, cfg)
            && (r.world.broker.Some? ==> r.world.broker == Some(r.world.copies) && !r.state.pending)
            && forall n :: Current(r.world, n) == Current(HappenAll(w, env.link.events), n)
  {
    CalmSync(w, cfg.files, env);
    var sync := Sync(w, cfg.files, env);
    if UpToDate(w) { SyncKeeps(w, cfg.files, env); }
    var news := sync.changed;
    if cfg.tls {
      var Pair(w1, read) := ReadTls(sync.world, env);
      CalmTls(sync.world, env);
      TlsKeeps(sync.world, env);
      CacheRefinesChecking(t, s.tls, last, read, contents);
      var check := CheckTls(t, s.tls, read);
      var news' := news || (check.changed && !check.failed);
      CalmFinish(w1, State(s.pending || news', check.state), cfg, sync, read, news', env);
    } else {
      CalmFinish(sync.world, State(s.pending || news, s.tls), cfg, sync, None, news, env);
    }
  }

  /** When nothing at all happens around a round with a running broker, it leaves a world
      that needs nothing more. */
  lemma QuietRoundConverges(w: World, s: State, cfg: Config, t: Tools, last: TlsRead, contents: set<string>)
    requires Healthy(w, cfg, t) && SignalDue(w, s.pending)
    requires !t.pairs("", "") && TellsApart(t, contents)
    requires Among(last, contents) && Among(ReadTls(w, QUIET_ROUND).snd, contents)
    requires s.tls.seen ==> Remembers(t, s.tls, last)
    ensures var r := Once(w, s, cfg, t, QUIET_ROUND);
            && Copied(r.world, cfg)
            && r.world.broker == Some(r.world.copies)
            && !r.state.pending
            && r.world.source == w.source && r.world.tls == w.tls
            && Healthy(r.world, cfg, t)
            && (cfg.tls ==> Remembers(t, r.state.tls, ReadTls(w, QUIET_ROUND).snd))
  {
    HealthySync(w, cfg.files);
    var sync := Sync(w, cfg.files, QUIET_ROUND);
    var read := ReadTls(w, QUIET_ROUND).snd;
    assert ReadTls(sync.world, QUIET_ROUND) == Pair(sync.world, read);
    CacheRefinesChecking(t, s.tls, last, read, contents);
    var r := Once(w, s, cfg, t, QUIET_ROUND);
    assert HappenAll(sync.world, []) == sync.world;
    assert r.world.copies == sync.world.copies;
    assert ReadTls(r.world, QUIET_ROUND).snd == read;
  }

  /** Once the copies equal the Secret and nothing is pending, no further round over
      unchanged mounts does anything at all, whether the broker has loaded them or not. */
  lemma {:induction false} ThenSilence(w: World, s: State, cfg: Config, t: Tools, n: nat)
    requires Healthy(w, cfg, t) && Copied(w, cfg) && !s.pending
    requires cfg.tls ==> Remembers(t, s.tls, ReadTls(w, QUIET_ROUND).snd)
    ensures forall r :: r in Run(w, s, cfg, t, seq(n, _ => QUIET_ROUND)) ==>
              r.world == w && r.state == s && !r.sync.failed && !r.signalled && !r.news
    decreases n
  {
    if n > 0 {
      var r := Once(w, s, cfg, t, QUIET_ROUND);
      SilentRound(w, s, cfg, t);
      var envs := seq(n, _ => QUIET_ROUND);
      assert envs[1..] == seq(n - 1, _ => QUIET_ROUND);
      ThenSilence(w, s, cfg, t, n - 1);
      assert Run(w, s, cfg, t, envs) == [r] + Run(w, s, cfg, t, envs[1..]);
    }
  }

  lemma SilentRound(w: World, s: State, cfg: Config, t: Tools)
    requires Healthy(w, cfg, t) && Copied(w, cfg) && !s.pending
    requires cfg.tls && s.tls.seen ==> Remembers(t, s.tls, ReadTls(w, QUIET_ROUND).snd)
    ensures var r := Once(w, s, cfg, t, QUIET_ROUND);
            && r.world == w && !r.state.pending && !r.sync.failed && !r.signalled && !r.news
            && (cfg.tls ==> Remembers(t, r.state.tls, ReadTls(w, QUIET_ROUND).snd))
            && (!cfg.tls || s.tls.seen ==> r.state == s)
  {
    HealthySync(w, cfg.files);
    var sync := Sync(w, cfg.files, QUIET_ROUND);
    assert sync.world.copies == w.copies;
    assert sync.world == w;
  }

  // ------------------------------------------------- every signal has its change

  /** Round j saw a change, and no signal was sent from j up to k. */
  ghost predicate Owes(reports: seq<Report>, j: int, k: int) {
    0 <= j <= k < |reports| && reports[j].news && forall m :: j <= m < k ==> !reports[m].signalled
  }

  /** Every signal of a run answers a change of the credentials or of the TLS pair
      seen since the signal before it, except a signal owed from before the run. */
  lemma {:induction false} EverySignalHasItsChange(w: World, s: State, cfg: Config, t: Tools, envs: seq<RoundEnv>, k: nat)
    requires k < |envs| && Run(w, s, cfg, t, envs)[k].signalled
    ensures var reports := Run(w, s, cfg, t, envs);
            || (exists j :: Owes(reports, j, k))
            || (s.pending && forall m :: 0 <= m < k ==> !reports[m].signalled)
    decreases |envs|
  {
    var reports := Run(w, s, cfg, t, envs);
    var r := Once(w, s, cfg, t, envs[0]);
    var rest := Run(r.world, r.state, cfg, t, envs[1..]);
    assert reports == [r] + rest;
    if k == 0 {
      assert r.signalled ==> s.pending || r.news;
      if r.news { assert Owes(reports, 0, 0); }
    } else {
      var k' := k - 1;
      assert rest[k'] == reports[k];
      EverySignalHasItsChange(r.world, r.state, cfg, t, envs[1..], k');
      if j :| Owes(rest, j, k') {
        assert reports[j + 1] == rest[j];
        forall m | j + 1 <= m < k ensures !reports[m].signalled { assert reports[m] == rest[m - 1]; }
        assert Owes(reports, j + 1, k);
      } else {
        assert r.state.pending;
        assert !r.signalled;
        forall m | 0 <= m < k ensures !reports[m].signalled {
          if m > 0 { assert reports[m] == rest[m - 1]; }
        }
        if r.news { assert Owes(reports, 0, k); }
      }
    }
  }

  // ------------------------------------------------ every change has its signal

  /** Once a signal is pending, it is sent, or is still pending, however many rounds later. */
  lemma {:induction false} PendingLasts(w: World, s: State, cfg: Config, t: Tools, envs: seq<RoundEnv>, m: nat)
    requires m < |envs| && s.pending
    ensures var reports := Run(w, s, cfg, t, envs);
            (exists j :: 0 <= j <= m && reports[j].signalled) || reports[m].state.pending
    decreases |envs|
  {
    var reports := Run(w, s, cfg, t, envs);
    var r := Once(w, s, cfg, t, envs[0]);
    assert reports == [r] + Run(r.world, r.state, cfg, t, envs[1..]);
    assert reports[0].signalled || r.state.pending;
    if m > 0 && !reports[0].signalled {
      var rest := Run(r.world, r.state, cfg, t, envs[1..]);
      PendingLasts(r.world, r.state, cfg, t, envs[1..], m - 1);
      assert reports[m] == rest[m - 1];
      if j :| 0 <= j <= m - 1 && rest[j].signalled { assert reports[j + 1].signalled; }
    }
  }

  /** A change that a round sees is signalled in that round, or stays pending until a round
      that signals. */
  lemma {:induction false} NewsIsSignalled(w: World, s: State, cfg: Config, t: Tools, envs: seq<RoundEnv>, k: nat, m: nat)
    requires k <= m < |envs| && Run(w, s, cfg, t, envs)[k].news
    ensures var reports := Run(w, s, cfg, t, envs);
            (exists j :: k <= j <= m && reports[j].signalled) || reports[m].state.pending
    decreases |envs|
  {
    var reports := Run(w, s, cfg, t, envs);
    var r := Once(w, s, cfg, t, envs[0]);
    var rest := Run(r.world, r.state, cfg, t, envs[1..]);
    assert reports == [r] + rest;
    if k > 0 {
      assert rest[k - 1] == reports[k];
      NewsIsSignalled(r.world, r.state, cfg, t, envs[1..], k - 1, m - 1);
      assert reports[m] == rest[m - 1];
      if j :| k - 1 <= j <= m - 1 && rest[j].signalled { assert reports[j + 1].signalled; }
    } else {
      assert reports[0].signalled || r.state.pending;
      if m > 0 && !reports[0].signalled {
        PendingLasts(r.world, r.state, cfg, t, envs[1..], m - 1);
        assert reports[m] == rest[m - 1];
        if j :| 0 <= j <= m - 1 && rest[j].signalled { assert reports[j + 1].signalled; }
      }
    }
  }

  /** What was read of the TLS mount before round k, if anything was. */
  function ReadBefore(s: State, last: TlsRead, reports: seq<Report>, k: nat): Option<TlsRead>
    requires k <= |reports|
  {
    if k > 0 then Some(reports[k - 1].read) else if s.tls.seen then Some(last) else None
  }

  /** The round read a usable pair, and the read before gave another or none. */
  predicate NewPair(t: Tools, before: Option<TlsRead>, read: TlsRead) {
    Usable(t, read) && before.Some? && before.value != read
  }

  lemma RoundTellsNews(w: World, s: State, cfg: Config, t: Tools, env: RoundEnv, last: TlsRead, contents: set<string>)
    requires cfg.tls && !t.pairs("", "") && TellsApart(t, contents) && Among(last, contents)
    requires s.tls.seen ==> Remembers(t, s.tls, last)
    requires Among(Once(w, s, cfg, t, env).read, contents)
    ensures var r := Once(w, s, cfg, t, env);
            && Remembers(t, r.state.tls, r.read)
            && (r.news <==> (!r.sync.failed && r.sync.changed) || NewPair(t, ReadBefore(s, last, [], 0), r.read))
  {
    var r := Once(w, s, cfg, t, env);
    CacheRefinesChecking(t, s.tls, last, r.read, contents);
  }

  /** What a round of a run takes for a change: a Sync that succeeded and replaced a copy,
      or a usable TLS pair that is another than the one read before. */
  lemma {:induction false} NewsMeans(w: World, s: State, cfg: Config, t: Tools, envs: seq<RoundEnv>, k: nat,
                                     last: TlsRead, contents: set<string>)
    requires cfg.tls && !t.pairs("", "") && TellsApart(t, contents) && Among(last, contents)
    requires s.tls.seen ==> Remembers(t, s.tls, last)
    requires forall r :: r in Run(w, s, cfg, t, envs) ==> Among(r.read, contents)
    requires k < |envs|
    ensures var reports := Run(w, s, cfg, t, envs);
            reports[k].news <==> (!reports[k].sync.failed && reports[k].sync.changed) ||
                                 NewPair(t, ReadBefore(s, last, reports, k), reports[k].read)
    decreases |envs|
  {
    var reports := Run(w, s, cfg, t, envs);
    var r := Once(w, s, cfg, t, envs[0]);
    var rest := Run(r.world, r.state, cfg, t, envs[1..]);
    assert reports == [r] + rest && r in reports;
    RoundTellsNews(w, s, cfg, t, envs[0], last, contents);
    if k > 0 {
      forall x | x in rest ensures Among(x.read, contents) { assert x in reports; }
      NewsMeans(r.world, r.state, cfg, t, envs[1..], k - 1, r.read, contents);
      assert reports[k] == rest[k - 1];
      assert ReadBefore(r.state, r.read, rest, k - 1) == ReadBefore(s, last, reports, k);
    }
  }

  /** A renewed certificate reaches the broker. Over every run, a round that reads a usable
      pair other than the one read before it signals, or leaves a signal pending until a
      round that signals, whatever happens in between. */
  lemma RenewalIsSignalled(w: World, s: State, cfg: Config, t: Tools, envs: seq<RoundEnv>, k: nat, m: nat,
                           last: TlsRead, contents: set<string>)
    requires cfg.tls && !t.pairs("", "") && TellsApart(t, contents) && Among(last, contents)
    requires s.tls.seen ==> Remembers(t, s.tls, last)
    requires forall r :: r in Run(w, s, cfg, t, envs) ==> Among(r.read, contents)
    requires 0 < k <= m < |envs|
    requires var reports := Run(w, s, cfg, t, envs);
             Usable(t, reports[k].read) && reports[k - 1].read != reports[k].read
    ensures var reports := Run(w, s, cfg, t, envs);
            (exists j :: k <= j <= m && reports[j].signalled) || reports[m].state.pending
  {
    NewsMeans(w, s, cfg, t, envs, k, last, contents);
    NewsIsSignalled(w, s, cfg, t, envs, k, m);
  }
}
