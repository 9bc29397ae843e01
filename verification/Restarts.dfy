/** The reloader's process over its lives: it is restarted between polls, and killed in
    the middle of them. */
module Restarts {
  import opened Text
  import opened Mounts
  import opened Disk
  import opened Rounds
  import opened ReloaderTheorems

  // ------------------------------------------------------- a round, step by step

  /** What can happen at once while a round goes on: something outside, one file
      operation, or the signal. A process is killed between two of them. */
  datatype Step = Happens(event: Event) | Does(op: FileOp) | Signals

  function TakeStep(w: World, step: Step): World {
    match step
    case Happens(e) => Happen(w, e)
    case Does(op) => w.(copies := Apply(w.copies, op))
    case Signals => w.(broker := Some(w.copies))
  }

  function TakeSteps(w: World, steps: seq<Step>): World {
    if steps == [] then w else TakeStep(TakeSteps(w, steps[..|steps| - 1]), steps[|steps| - 1])
  }

  lemma {:induction false} TakeStepsOn(w: World, a: seq<Step>, b: seq<Step>)
    ensures TakeSteps(w, a + b) == TakeSteps(TakeSteps(w, a), b)
    decreases |b|
  {
    if b == [] {
      assert a + b == a;
    } else {
      var all, init := a + b, b[..|b| - 1];
      assert all[..|all| - 1] == a + init;
      TakeStepsOn(w, a, init);
    }
  }

  function Events(es: seq<Event>): (steps: seq<Step>)
    ensures |steps| == |es| && forall i :: 0 <= i < |es| ==> steps[i] == Happens(es[i])
  {
    if es == [] then [] else [Happens(es[0])] + Events(es[1..])
  }

  lemma {:induction false} EventsHappen(w: World, es: seq<Event>)
    ensures TakeSteps(w, Events(es)) == HappenAll(w, es)
    decreases |es|
  {
    if es != [] {
      TakeStepsOn(w, [Happens(es[0])], Events(es[1..]));
      assert [Happens(es[0])][..0] == [];
      assert TakeSteps(w, [Happens(es[0])]) == Happen(w, es[0]);
      EventsHappen(Happen(w, es[0]), es[1..]);
    }
  }

  /** What happens outside first, and then the rest. */
  lemma EventsThen(w: World, es: seq<Event>, rest: seq<Step>)
    ensures TakeSteps(w, Events(es) + rest) == TakeSteps(HappenAll(w, es), rest)
  {
    EventsHappen(w, es);
    TakeStepsOn(w, Events(es), rest);
  }

  function Operations(ops: seq<FileOp>): (steps: seq<Step>)
    ensures |steps| == |ops| && forall i :: 0 <= i < |ops| ==> steps[i] == Does(ops[i])
  {
    if ops == [] then [] else Operations(ops[..|ops| - 1]) + [Does(ops[|ops| - 1])]
  }

  lemma {:induction false} OperationsApply(w: World, ops: seq<FileOp>)
    ensures TakeSteps(w, Operations(ops)) == w.(copies := Replay(w.copies, ops))
  {
    if ops != [] {
      var steps := Operations(ops);
      assert steps[..|steps| - 1] == Operations(ops[..|ops| - 1]);
      OperationsApply(w, ops[..|ops| - 1]);
    }
  }

  function ReadSteps(w: World, base: Base, names: seq<string>, env: seq<Moment>, i: nat): seq<Step>
    requires i <= |names|
    decreases |names| - i
  {
    if i == |names| then []
    else
      var w' := HappenAll(w, At(env, i).events);
      Events(At(env, i).events) +
      (if At(env, i).fails || ReadAt(w'.source, base, names[i]).None? then [] else ReadSteps(w', base, names, env, i + 1))
  }

  lemma {:induction false} ReadStepsLand(w: World, base: Base, names: seq<string>, env: seq<Moment>, i: nat, got: Files)
    requires i <= |names|
    ensures TakeSteps(w, ReadSteps(w, base, names, env, i)) == ReadFrom(w, base, names, env, i, got).world
    decreases |names| - i
  {
    if i < |names| {
      var m := At(env, i);
      var w' := HappenAll(w, m.events);
      var data := if m.fails then None else ReadAt(w'.source, base, names[i]);
      if data.None? {
        EventsThen(w, m.events, []);
      } else {
        EventsThen(w, m.events, ReadSteps(w', base, names, env, i + 1));
        ReadStepsLand(w', base, names, env, i + 1, got[names[i] := data.value]);
      }
    }
  }

  function CopySteps(w: World, names: seq<string>, files: Files, env: RoundEnv, i: nat): seq<Step>
    requires i <= |names| && forall n :: n in names ==> n in files
    decreases |names| - i
  {
    if i == |names| then []
    else
      var name := names[i];
      var w1 := HappenAll(w, At(env.copyReads, i).events);
      Events(At(env.copyReads, i).events) +
      (if At(env.copyReads, i).fails then []
       else if name in w1.copies && w1.copies[name] == files[name] then CopySteps(w1, names, files, env, i + 1)
       else
         var w2 := HappenAll(w1, WriteAt(env.writes, i).events);
         Events(WriteAt(env.writes, i).events) +
         (Operations(WriteOps(w2.copies, name, files[name], WriteAt(env.writes, i))) +
          (if !Replaces(w2.copies, name, WriteAt(env.writes, i)) then []
           else CopySteps(w2.(copies := w2.copies[name := files[name]]), names, files, env, i + 1))))
  }

  /** One replacement, as steps. */
  lemma WriteStepsLand(w: World, name: string, data: string, m: WriteMoment, rest: seq<Step>)
    ensures var w' := HappenAll(w, m.events);
            TakeSteps(w, Events(m.events) + (Operations(WriteOps(w'.copies, name, data, m)) + rest)) ==
            TakeSteps(w'.(copies := if Replaces(w'.copies, name, m) then w'.copies[name := data] else w'.copies), rest)
  {
    var w' := HappenAll(w, m.events);
    var ops := WriteOps(w'.copies, name, data, m);
    EventsHappen(w, m.events);
    TakeStepsOn(w, Events(m.events), Operations(ops) + rest);
    TakeStepsOn(w', Operations(ops), rest);
    OperationsApply(w', ops);
    WriteIsAtomic(w'.copies, name, data, m);
  }

  lemma {:induction false} CopyStepsLand(w: World, names: seq<string>, files: Files, env: RoundEnv, i: nat, changed: bool)
    requires i <= |names| && forall n :: n in names ==> n in files
    ensures TakeSteps(w, CopySteps(w, names, files, env, i)) == CopyFrom(w, names, files, env, i, changed).world
    decreases |names| - i
  {
    if i < |names| {
      var name := names[i];
      var es, m := At(env.copyReads, i).events, WriteAt(env.writes, i);
      var w1 := HappenAll(w, es);
      if At(env.copyReads, i).fails {
        EventsThen(w, es, []);
      } else if name in w1.copies && w1.copies[name] == files[name] {
        EventsThen(w, es, CopySteps(w1, names, files, env, i + 1));
        CopyStepsLand(w1, names, files, env, i + 1, changed);
      } else {
        var w2 := HappenAll(w1, m.events);
        var w3 := w2.(copies := w2.copies[name := files[name]]);
        var rest := if Replaces(w2.copies, name, m) then CopySteps(w3, names, files, env, i + 1) else [];
        EventsThen(w, es, Events(m.events) + (Operations(WriteOps(w2.copies, name, files[name], m)) + rest));
        WriteStepsLand(w1, name, files[name], m, rest);
        if Replaces(w2.copies, name, m) { CopyStepsLand(w3, names, files, env, i + 1, true); }
      }
    }
  }

  function SyncSteps(w: World, names: seq<string>, env: RoundEnv): seq<Step> {
    var w' := HappenAll(w, env.link.events);
    var base := Resolve(w'.source, env.link.fails);
    var read := ReadSource(w, names, env);
    Events(env.link.events) +
    (ReadSteps(w', base, names, env.fileReads, 0) +
     (match read.files
      case None => []
      case Some(files) =>
        ReadsEveryName(w', base, names, env.fileReads, 0, map[]);
        CopySteps(read.world, names, files, env, 0)))
  }

  lemma SyncStepsLand(w: World, names: seq<string>, env: RoundEnv)
    ensures TakeSteps(w, SyncSteps(w, names, env)) == Sync(w, names, env).world
  {
    var w' := HappenAll(w, env.link.events);
    var base := Resolve(w'.source, env.link.fails);
    var read := ReadSource(w, names, env);
    var reading := ReadSteps(w', base, names, env.fileReads, 0);
    EventsHappen(w, env.link.events);
    ReadStepsLand(w', base, names, env.fileReads, 0, map[]);
    var rest: seq<Step> := [];
    if read.files.Some? {
      SyncCopies(w, names, env);
      rest := CopySteps(read.world, names, read.files.value, env, 0);
      CopyStepsLand(read.world, names, read.files.value, env, 0, false);
    }
    TakeStepsOn(w, Events(env.link.events), reading + rest);
    TakeStepsOn(w', reading, rest);
  }

  function TlsSteps(w: World, env: RoundEnv): seq<Step> {
    var w1 := HappenAll(w, env.tlsLink.events);
    var w2 := HappenAll(w1, env.crt.events);
    var crt := if env.crt.fails then None else ReadAt(w2.tls, Resolve(w1.tls, env.tlsLink.fails), "tls.crt");
    Events(env.tlsLink.events) + (Events(env.crt.events) + (if crt.None? then [] else Events(env.key.events)))
  }

  lemma TlsStepsLand(w: World, env: RoundEnv)
    ensures TakeSteps(w, TlsSteps(w, env)) == ReadTls(w, env).fst
  {
    var w1 := HappenAll(w, env.tlsLink.events);
    var w2 := HappenAll(w1, env.crt.events);
    var crt := if env.crt.fails then None else ReadAt(w2.tls, Resolve(w1.tls, env.tlsLink.fails), "tls.crt");
    var last := if crt.None? then [] else Events(env.key.events);
    EventsHappen(w, env.tlsLink.events);
    EventsHappen(w1, env.crt.events);
    EventsHappen(w2, env.key.events);
    TakeStepsOn(w, Events(env.tlsLink.events), Events(env.crt.events) + last);
    TakeStepsOn(w1, Events(env.crt.events), last);
  }

  /** The steps of a round but for the signal. */
  function QuietSteps(w: World, s: State, cfg: Config, t: Tools, env: RoundEnv): seq<Step> {
    var sync := Sync(w, cfg.files, env);
    var news := !sync.failed && sync.changed;
    SyncSteps(w, cfg.files, env) +
    (if cfg.tls then
       var check := CheckTls(t, s.tls, ReadTls(sync.world, env).snd);
       TlsSteps(sync.world, env) +
       (if check.state.valid && (s.pending || news || (check.changed && !check.failed)) then Events(env.signal.events) else [])
     else if s.pending || news then Events(env.signal.events) else [])
  }

  function RoundSteps(w: World, s: State, cfg: Config, t: Tools, env: RoundEnv): seq<Step> {
    QuietSteps(w, s, cfg, t, env) + (if Once(w, s, cfg, t, env).signalled then [Signals] else [])
  }

  lemma EndLands(w: World, s: State, sync: SyncEnd, read: TlsRead, news: bool, env: RoundEnv)
    ensures var r := Finish(w, s, sync, read, news, env);
            TakeSteps(w, (if s.pending then Events(env.signal.events) else []) + (if r.signalled then [Signals] else [])) == r.world
  {
    var r := Finish(w, s, sync, read, news, env);
    var es := if s.pending then Events(env.signal.events) else [];
    var last := if r.signalled then [Signals] else [];
    EventsHappen(w, env.signal.events);
    TakeStepsOn(w, es, last);
    assert [Signals][..0] == [];
  }

  lemma ThreeParts(w: World, a: seq<Step>, b: seq<Step>, c: seq<Step>)
    ensures TakeSteps(w, a + b + c) == TakeSteps(TakeSteps(TakeSteps(w, a), b), c)
  {
    TakeStepsOn(w, a + b, c);
    TakeStepsOn(w, a, b);
  }

  lemma PlainRoundIsItsSteps(w: World, s: State, cfg: Config, t: Tools, env: RoundEnv)
    requires !cfg.tls
    ensures TakeSteps(w, RoundSteps(w, s, cfg, t, env)) == Once(w, s, cfg, t, env).world
  {
    var sync := Sync(w, cfg.files, env);
    var news := !sync.failed && sync.changed;
    var s' := State(s.pending || news, s.tls);
    SyncStepsLand(w, cfg.files, env);
    EndLands(sync.world, s', sync, None, news, env);
    var end := if s'.pending then Events(env.signal.events) else [];
    var last := if Once(w, s, cfg, t, env).signalled then [Signals] else [];
    ThreeParts(w, SyncSteps(w, cfg.files, env), end, last);
    TakeStepsOn(sync.world, end, last);
  }

  lemma UntilSignalLands(w: World, names: seq<string>, env: RoundEnv)
    ensures var sync := Sync(w, names, env);
            TakeSteps(w, SyncSteps(w, names, env) + TlsSteps(sync.world, env)) == ReadTls(sync.world, env).fst
  {
    var sync := Sync(w, names, env);
    SyncStepsLand(w, names, env);
    TlsStepsLand(sync.world, env);
    TakeStepsOn(w, SyncSteps(w, names, env), TlsSteps(sync.world, env));
  }

  /** The state with which a round comes to its signal. */
  function Pressing(w: World, s: State, cfg: Config, t: Tools, env: RoundEnv): State
    requires cfg.tls
  {
    var sync := Sync(w, cfg.files, env);
    var check := CheckTls(t, s.tls, ReadTls(sync.world, env).snd);
    State(s.pending || (!sync.failed && sync.changed) || (check.changed && !check.failed), check.state)
  }

  lemma TlsRoundSteps(w: World, s: State, cfg: Config, t: Tools, env: RoundEnv)
    requires cfg.tls
    ensures var sync := Sync(w, cfg.files, env);
            var s' := Pressing(w, s, cfg, t, env);
            RoundSteps(w, s, cfg, t, env) ==
              (SyncSteps(w, cfg.files, env) + TlsSteps(sync.world, env)) +
              (if s'.tls.valid && s'.pending then Events(env.signal.events) else []) +
              (if Once(w, s, cfg, t, env).signalled then [Signals] else [])
  {
  }

  lemma TlsRoundIsItsSteps(w: World, s: State, cfg: Config, t: Tools, env: RoundEnv)
    requires cfg.tls
    ensures TakeSteps(w, RoundSteps(w, s, cfg, t, env)) == Once(w, s, cfg, t, env).world
  {
    var sync := Sync(w, cfg.files, env);
    var w1, read := ReadTls(sync.world, env).fst, ReadTls(sync.world, env).snd;
    var s' := Pressing(w, s, cfg, t, env);
    var news := (!sync.failed && sync.changed) || (CheckTls(t, s.tls, read).changed && !CheckTls(t, s.tls, read).failed);
    var end := if s'.tls.valid && s'.pending then Events(env.signal.events) else [];
    var last := if Once(w, s, cfg, t, env).signalled then [Signals] else [];
    TlsRoundSteps(w, s, cfg, t, env);
    UntilSignalLands(w, cfg.files, env);
    ThreeParts(w, SyncSteps(w, cfg.files, env) + TlsSteps(sync.world, env), end, last);
    TakeStepsOn(w1, end, last);
    if s'.tls.valid { EndLands(w1, s', sync, read, news, env); }
  }

  /** A round is its steps, taken one after the other. */
  lemma RoundIsItsSteps(w: World, s: State, cfg: Config, t: Tools, env: RoundEnv)
    ensures TakeSteps(w, RoundSteps(w, s, cfg, t, env)) == Once(w, s, cfg, t, env).world
  {
    if cfg.tls { TlsRoundIsItsSteps(w, s, cfg, t, env); } else { PlainRoundIsItsSteps(w, s, cfg, t, env); }
  }

  // ------------------------------------------------------------------------ lives

  /** What a life of the process is made of: polls, restarts between them, and polls in
      which it is killed after some of their steps and started again. */
  datatype Turn = Polls(env: RoundEnv) | Restarts(events: seq<Event>) | Dies(env: RoundEnv, after: nat)

  datatype Standing = Standing(world: World, state: State)

  function Killed(at: Standing, cfg: Config, t: Tools, env: RoundEnv, after: nat): World {
    var steps := RoundSteps(at.world, at.state, cfg, t, env);
    TakeSteps(at.world, steps[..if after < |steps| then after else |steps|])
  }

  function TakeTurn(at: Standing, cfg: Config, t: Tools, turn: Turn): Standing {
    match turn
    case Polls(env) =>
      var r := Once(at.world, at.state, cfg, t, env);
      Standing(r.world, r.state)
    case Restarts(events) => Standing(HappenAll(at.world, events), STARTED)
    case Dies(env, after) => Standing(Killed(at, cfg, t, env, after), STARTED)
  }

  function Live(at: Standing, cfg: Config, t: Tools, turns: seq<Turn>): Standing {
    if turns == [] then at else TakeTurn(Live(at, cfg, t, turns[..|turns| - 1]), cfg, t, turns[|turns| - 1])
  }

  /** A running broker works with the copies of these files as they stand. A temporary
      file that a killed process left behind is none of them. */
  predicate Works(w: World, names: seq<string>) {
    w.broker.Some? ==> forall n :: n in names ==> SameAt(w.broker.value, w.copies, n)
  }

  predicate Due(at: Standing, cfg: Config) { Works(at.world, cfg.files) || at.state.pending }

  /** Copies unchanged, and a broker as it was, gone, or started anew. */
  predicate OnlyRestarted(w: World, w': World) {
    w'.copies == w.copies && (w'.broker == w.broker || w'.broker == None || w'.broker == Some(w.copies))
  }

  lemma {:induction false} EventsOnlyRestart(w: World, es: seq<Event>)
    ensures OnlyRestarted(w, HappenAll(w, es))
    decreases |es|
  {
    if es != [] { EventsOnlyRestart(Happen(w, es[0]), es[1..]); }
  }

  lemma {:induction false} ReadOnlyRestarts(w: World, base: Base, names: seq<string>, env: seq<Moment>, i: nat, got: Files)
    requires i <= |names|
    ensures OnlyRestarted(w, ReadFrom(w, base, names, env, i, got).world)
    decreases |names| - i
  {
    if i < |names| {
      var w' := HappenAll(w, At(env, i).events);
      EventsOnlyRestart(w, At(env, i).events);
      var data := if At(env, i).fails then None else ReadAt(w'.source, base, names[i]);
      if data.Some? { ReadOnlyRestarts(w', base, names, env, i + 1, got[names[i] := data.value]); }
    }
  }

  lemma {:induction false} UnchangedOnlyRestarts(w: World, names: seq<string>, files: Files, env: RoundEnv, i: nat)
    requires i <= |names| && forall n :: n in names ==> n in files
    requires !CopyFrom(w, names, files, env, i, false).changed
    ensures OnlyRestarted(w, CopyFrom(w, names, files, env, i, false).world)
    decreases |names| - i
  {
    if i < |names| {
      var name := names[i];
      var w1 := HappenAll(w, At(env.copyReads, i).events);
      EventsOnlyRestart(w, At(env.copyReads, i).events);
      if !At(env.copyReads, i).fails {
        if name in w1.copies && w1.copies[name] == files[name] {
          UnchangedOnlyRestarts(w1, names, files, env, i + 1);
        } else {
          var w2 := HappenAll(w1, WriteAt(env.writes, i).events);
          EventsOnlyRestart(w1, WriteAt(env.writes, i).events);
          if Replaces(w2.copies, name, WriteAt(env.writes, i)) {
            CopyKeeps(w2.(copies := w2.copies[name := files[name]]), names, files, env, i + 1, true);
          }
        }
      }
    }
  }

  lemma SyncOnlyRestarts(w: World, names: seq<string>, env: RoundEnv)
    requires !Sync(w, names, env).changed
    ensures OnlyRestarted(w, Sync(w, names, env).world)
  {
    var w' := HappenAll(w, env.link.events);
    EventsOnlyRestart(w, env.link.events);
    ReadOnlyRestarts(w', Resolve(w'.source, env.link.fails), names, env.fileReads, 0, map[]);
    var read := ReadSource(w, names, env);
    if read.files.Some? {
      SyncCopies(w, names, env);
      UnchangedOnlyRestarts(read.world, names, read.files.value, env, 0);
    }
  }

  lemma TlsOnlyRestarts(w: World, env: RoundEnv)
    ensures OnlyRestarted(w, ReadTls(w, env).fst)
  {
    var w1 := HappenAll(w, env.tlsLink.events);
    var w2 := HappenAll(w1, env.crt.events);
    EventsOnlyRestart(w, env.tlsLink.events);
    EventsOnlyRestart(w1, env.crt.events);
    EventsOnlyRestart(w2, env.key.events);
  }

  /** A poll that is not torn keeps the promise. */
  lemma PollKeepsDue(at: Standing, cfg: Config, t: Tools, env: RoundEnv)
    requires Due(at, cfg) && !Torn(Sync(at.world, cfg.files, env))
    ensures Due(TakeTurn(at, cfg, t, Polls(env)), cfg)
  {
    var sync := Sync(at.world, cfg.files, env);
    var r := Once(at.world, at.state, cfg, t, env);
    if !r.state.pending && !r.signalled {
      SyncOnlyRestarts(at.world, cfg.files, env);
      TlsOnlyRestarts(sync.world, env);
    }
  }

  /** Over every life of the process in which no poll is torn, the promise stands all the
      time if and only if each restart, and each death in the middle of a poll, leaves the
      broker working with its copies: what is pending is not written down anywhere. */
  lemma RestartsForgetExactly(at: Standing, cfg: Config, t: Tools, turns: seq<Turn>)
    requires Due(at, cfg)
    requires forall i :: 0 <= i < |turns| && turns[i].Polls? ==>
               !Torn(Sync(Live(at, cfg, t, turns[..i]).world, cfg.files, turns[i].env))
    ensures (forall i :: 0 <= i <= |turns| ==> Due(Live(at, cfg, t, turns[..i]), cfg)) <==>
            (forall i :: 0 <= i < |turns| && !turns[i].Polls? ==> Works(Live(at, cfg, t, turns[..i + 1]).world, cfg.files))
  {
    if forall i :: 0 <= i < |turns| && !turns[i].Polls? ==> Works(Live(at, cfg, t, turns[..i + 1]).world, cfg.files) {
      forall i | 0 <= i <= |turns| ensures Due(Live(at, cfg, t, turns[..i]), cfg) { DueUntil(at, cfg, t, turns, i); }
    }
    forall i | 0 <= i < |turns| && !turns[i].Polls? ensures !Live(at, cfg, t, turns[..i + 1]).state.pending {
      assert turns[..i + 1][..i] == turns[..i];
    }
  }

  lemma {:induction false} DueUntil(at: Standing, cfg: Config, t: Tools, turns: seq<Turn>, i: nat)
    requires i <= |turns| && Due(at, cfg)
    requires forall k :: 0 <= k < |turns| && turns[k].Polls? ==>
               !Torn(Sync(Live(at, cfg, t, turns[..k]).world, cfg.files, turns[k].env))
    requires forall k :: 0 <= k < |turns| && !turns[k].Polls? ==> Works(Live(at, cfg, t, turns[..k + 1]).world, cfg.files)
    ensures Due(Live(at, cfg, t, turns[..i]), cfg)
  {
    if i > 0 {
      DueUntil(at, cfg, t, turns, i - 1);
      assert turns[..i][..i - 1] == turns[..i - 1];
      if turns[i - 1].Polls? { PollKeepsDue(Live(at, cfg, t, turns[..i - 1]), cfg, t, turns[i - 1].env); }
    }
  }

  // ------------------------------------------------------- dying in mid-round

  /** No step starts or stops the broker, or signals it. */
  predicate LeavesBroker(steps: seq<Step>) {
    forall i :: 0 <= i < |steps| ==> steps[i].Does? || (steps[i].Happens? && NoRestart([steps[i].event]))
  }

  lemma {:induction false} BrokerLeft(w: World, steps: seq<Step>)
    requires LeavesBroker(steps)
    ensures TakeSteps(w, steps).broker == w.broker
  {
    if steps != [] {
      BrokerLeft(w, steps[..|steps| - 1]);
      var last := steps[|steps| - 1];
      if last.Happens? { assert last.event in [last.event]; }
    }
  }

  lemma EventsLeave(es: seq<Event>)
    requires NoRestart(es)
    ensures LeavesBroker(Events(es))
  {
    forall i | 0 <= i < |es| ensures NoRestart([es[i]]) { assert es[i] in es; }
  }

  lemma LeavesOn(a: seq<Step>, b: seq<Step>)
    requires LeavesBroker(a) && LeavesBroker(b)
    ensures LeavesBroker(a + b)
  {
  }

  lemma {:induction false} ReadsLeave(w: World, base: Base, names: seq<string>, env: seq<Moment>, i: nat)
    requires i <= |names| && forall m :: m in env ==> NoRestart(m.events)
    ensures LeavesBroker(ReadSteps(w, base, names, env, i))
    decreases |names| - i
  {
    if i < |names| {
      var w' := HappenAll(w, At(env, i).events);
      EventsLeave(At(env, i).events);
      ReadsLeave(w', base, names, env, i + 1);
      LeavesOn(Events(At(env, i).events), []);
      LeavesOn(Events(At(env, i).events), ReadSteps(w', base, names, env, i + 1));
    }
  }

  lemma {:induction false} CopiesLeave(w: World, names: seq<string>, files: Files, env: RoundEnv, i: nat)
    requires i <= |names| && (forall n :: n in names ==> n in files) && Steady(env)
    ensures LeavesBroker(CopySteps(w, names, files, env, i))
    decreases |names| - i
  {
    if i < |names| {
      var name := names[i];
      var es, m := At(env.copyReads, i).events, WriteAt(env.writes, i);
      var w1 := HappenAll(w, es);
      EventsLeave(es);
      if At(env.copyReads, i).fails {
        LeavesOn(Events(es), []);
      } else if name in w1.copies && w1.copies[name] == files[name] {
        CopiesLeave(w1, names, files, env, i + 1);
        LeavesOn(Events(es), CopySteps(w1, names, files, env, i + 1));
      } else {
        var w2 := HappenAll(w1, m.events);
        var w3 := w2.(copies := w2.copies[name := files[name]]);
        var ops := Operations(WriteOps(w2.copies, name, files[name], m));
        var rest := if Replaces(w2.copies, name, m) then CopySteps(w3, names, files, env, i + 1) else [];
        EventsLeave(m.events);
        CopiesLeave(w3, names, files, env, i + 1);
        LeavesOn(ops, rest);
        LeavesOn(Events(m.events), ops + rest);
        LeavesOn(Events(es), Events(m.events) + (ops + rest));
      }
    }
  }

  lemma SyncLeaves(w: World, names: seq<string>, env: RoundEnv)
    requires Steady(env)
    ensures LeavesBroker(SyncSteps(w, names, env))
  {
    var w' := HappenAll(w, env.link.events);
    EventsLeave(env.link.events);
    ReadsLeave(w', Resolve(w'.source, env.link.fails), names, env.fileReads, 0);
    var read := ReadSource(w, names, env);
    if read.files.Some? {
      SyncCopies(w, names, env);
      CopiesLeave(read.world, names, read.files.value, env, 0);
    }
  }

  lemma TlsLeaves(w: World, env: RoundEnv)
    requires Steady(env)
    ensures LeavesBroker(TlsSteps(w, env))
  {
    EventsLeave(env.tlsLink.events);
    EventsLeave(env.crt.events);
    EventsLeave(env.key.events);
  }

  lemma QuietLeaves(w: World, s: State, cfg: Config, t: Tools, env: RoundEnv)
    requires Steady(env)
    ensures LeavesBroker(QuietSteps(w, s, cfg, t, env))
  {
    SyncLeaves(w, cfg.files, env);
    TlsLeaves(Sync(w, cfg.files, env).world, env);
    EventsLeave(env.signal.events);
  }

  /** A process killed in the middle of a round, while the broker runs on, leaves the broker
      behind exactly when some copy is another than before and the signal was not sent. */
  lemma KilledRoundForgetsExactly(at: Standing, cfg: Config, t: Tools, env: RoundEnv, after: nat)
    requires Steady(env) && at.world.broker.Some? && Works(at.world, cfg.files)
    ensures var w := Killed(at, cfg, t, env, after);
            Works(w, cfg.files) <==>
              || (forall n :: n in cfg.files ==> SameAt(w.copies, at.world.copies, n))
              || (Once(at.world, at.state, cfg, t, env).signalled && after >= |RoundSteps(at.world, at.state, cfg, t, env)|)
  {
    var quiet := QuietSteps(at.world, at.state, cfg, t, env);
    var steps := RoundSteps(at.world, at.state, cfg, t, env);
    var k := if after < |steps| then after else |steps|;
    QuietLeaves(at.world, at.state, cfg, t, env);
    if k <= |quiet| {
      assert steps[..k] == quiet[..k];
      BrokerLeft(at.world, quiet[..k]);
    } else {
      assert steps[..k] == steps && steps[..|steps| - 1] == quiet;
    }
  }

  /** And what a restart has forgotten stays forgotten: over unchanged mounts, and copies
      that are right, no later healthy round signals a broker that is behind. */
  lemma RestartIsNeverMadeUpFor(w: World, cfg: Config, t: Tools, n: nat)
    requires Healthy(w, cfg, t) && Copied(w, cfg) && !Works(w, cfg.files)
    ensures forall r :: r in Run(w, STARTED, cfg, t, seq(n, _ => QUIET_ROUND)) ==>
              r.world == w && !r.signalled && !Due(Standing(r.world, r.state), cfg)
  {
    if n > 0 {
      var first := Once(w, STARTED, cfg, t, QUIET_ROUND);
      SilentRound(w, STARTED, cfg, t);
      ThenSilence(first.world, first.state, cfg, t, n - 1);
      var envs := seq(n, _ => QUIET_ROUND);
      assert envs[1..] == seq(n - 1, _ => QUIET_ROUND);
      assert Run(w, STARTED, cfg, t, envs) == [first] + Run(first.world, first.state, cfg, t, envs[1..]);
    }
  }
}
