/** The reloader as it runs: an object whose polls update its state and the world
    around it, every method proved against the functions of Rounds. */
module Reloader {
  import opened Text
  import opened Mounts
  import opened Disk
  import opened Rounds
  import opened ReloaderTheorems

  class Process {
    const cfg: Config
    const tools: Tools
    const start: Files
    /** The directory of copies: how it began, and every operation on it since. Nothing
        else says what the directory holds. */
    var journal: seq<FileOp>
    var source: Mount
    var tls: Mount
    var broker: Option<Files>
    var state: State

    constructor (cfg: Config, tools: Tools, world: World)
      ensures this.cfg == cfg && this.tools == tools && Now() == world
      ensures state == STARTED && journal == []
    {
      this.cfg, this.tools, start := cfg, tools, world.copies;
      source, tls, broker := world.source, world.tls, world.broker;
      state, journal := STARTED, [];
    }

    function Now(): World
      reads this
    {
      World(source, tls, Replay(start, journal), broker)
    }

    /** What the kubelet and the broker do before the next operation. */
    method Meanwhile(events: seq<Event>)
      modifies this`source, this`tls, this`broker
      ensures Now() == HappenAll(old(Now()), events)
    {
      for i := 0 to |events|
        invariant HappenAll(old(Now()), events) == HappenAll(Now(), events[i..])
      {
        assert events[i..][1..] == events[i + 1..];
        var w := Happen(Now(), events[i]);
        source, tls, broker := w.source, w.tls, w.broker;
        assert Now() == w;
      }
    }

    /** One operation on the directory of copies. */
    method Perform(op: FileOp)
      modifies this`journal
      ensures journal == old(journal) + [op]
    {
      journal := journal + [op];
    }

    /** writeAtomic: a temporary file next to the copy, then a rename; the deferred
        removal takes the temporary file away, if it is still there. */
    method WriteAtomic(name: string, data: string, m: WriteMoment) returns (failed: bool)
      modifies this`journal
      ensures failed == !Replaces(old(Now()).copies, name, m)
      ensures journal == old(journal) + WriteOps(old(Now()).copies, name, data, m)
      ensures Now() == old(Now()).(copies := if failed then old(Now()).copies else old(Now()).copies[name := data])
    {
      ghost var before := Now().copies;
      WriteIsAtomic(before, name, data, m);
      ReplayOn(start, journal, WriteOps(before, name, data, m));
      var temp := TempName(name, m.suffix);
      if m.fault.CreateFails? || temp in Now().copies {
        return true;
      }
      Perform(Create(temp));
      if m.fault.WriteFails? {
        Perform(Append(temp, data[..if m.fault.written < |data| then m.fault.written else |data|]));
        Perform(Remove(temp));
        return true;
      }
      Perform(Append(temp, data));
      if m.fault.NoFault? {
        Perform(Rename(temp, name));
      }
      Perform(Remove(temp));
      failed := !m.fault.NoFault?;
    }

    /** readSource. */
    method ReadFiles(env: RoundEnv) returns (files: Option<Files>)
      modifies this`source, this`tls, this`broker
      ensures ReadEnd(Now(), files) == ReadSource(old(Now()), cfg.files, env)
    {
      Meanwhile(env.link.events);
      var base := Resolve(source, env.link.fails);
      var got: Files := map[];
      for i := 0 to |cfg.files|
        invariant ReadFrom(Now(), base, cfg.files, env.fileReads, i, got) == ReadSource(old(Now()), cfg.files, env)
      {
        var m := At(env.fileReads, i);
        Meanwhile(m.events);
        if m.fails {
          return None;
        }
        var data := ReadAt(source, base, cfg.files[i]);
        if data.None? {
          return None;
        }
        got := got[cfg.files[i] := data.value];
      }
      files := Some(got);
    }

    /** Sync: the end that it should have, by the operations that it should perform; so in
        every state the directory goes through, each copy is entirely the old one or
        entirely the one just read. */
    method SyncCopies(env: RoundEnv) returns (changed: bool, failed: bool)
      modifies this`source, this`tls, this`broker, this`journal
      ensures SyncEnd(Now(), changed, failed) == Sync(old(Now()), cfg.files, env)
      ensures journal == old(journal) + SyncOps(old(Now()), cfg.files, env)
      ensures match ReadSource(old(Now()), cfg.files, env).files
              case None => journal == old(journal)
              case Some(files) =>
                forall k :: |old(journal)| <= k <= |journal| ==>
                  Whole(old(Now()).copies, files, Replay(start, journal[..k]))
    {
      ghost var before := Now();
      ghost var ops := SyncOps(before, cfg.files, env);
      NeverHalfWritten(before, cfg.files, env);
      var read := ReadFiles(env);
      if read.None? {
        return false, true;
      }
      ReloaderTheorems.SyncCopies(before, cfg.files, env);
      changed, failed := CopyAll(read.value, env);
      JournalWhole(start, old(journal), journal, before.copies, read.value, ops);
    }

    /** The loop of Sync. */
    method CopyAll(files: Files, env: RoundEnv) returns (changed: bool, failed: bool)
      requires forall n :: n in cfg.files ==> n in files
      modifies this`source, this`tls, this`broker, this`journal
      ensures SyncEnd(Now(), changed, failed) == CopyFrom(old(Now()), cfg.files, files, env, 0, false)
      ensures journal == old(journal) + CopyOps(old(Now()), cfg.files, files, env, 0)
    {
      changed := false;
      for i := 0 to |cfg.files|
        invariant CopyFrom(Now(), cfg.files, files, env, i, changed) == CopyFrom(old(Now()), cfg.files, files, env, 0, false)
        invariant old(journal) + CopyOps(old(Now()), cfg.files, files, env, 0) ==
                  journal + CopyOps(Now(), cfg.files, files, env, i)
      {
        var name := cfg.files[i];
        Meanwhile(At(env.copyReads, i).events);
        if At(env.copyReads, i).fails {
          return changed, true;
        }
        var copies := Now().copies;
        if name in copies && copies[name] == files[name] {
          continue;
        }
        Meanwhile(WriteAt(env.writes, i).events);
        ghost var was := journal;
        ghost var ops := WriteOps(Now().copies, name, files[name], WriteAt(env.writes, i));
        var writeFailed := WriteAtomic(name, files[name], WriteAt(env.writes, i));
        if writeFailed {
          return changed, true;
        }
        changed := true;
        ghost var rest := CopyOps(Now(), cfg.files, files, env, i + 1);
        assert was + (ops + rest) == journal + rest;
      }
      failed := false;
    }

    /** readTLS. */
    method ReadPair(env: RoundEnv) returns (read: TlsRead)
      modifies this`source, this`tls, this`broker
      ensures Pair(Now(), read) == ReadTls(old(Now()), env)
    {
      Meanwhile(env.tlsLink.events);
      var base := Resolve(tls, env.tlsLink.fails);
      Meanwhile(env.crt.events);
      var crt := if env.crt.fails then None else ReadAt(tls, base, "tls.crt");
      if crt.None? {
        return None;
      }
      Meanwhile(env.key.events);
      var key := if env.key.fails then None else ReadAt(tls, base, "tls.key");
      read := if key.None? then None else Some(Pair(crt.value, key.value));
    }

    /** checkTLS. */
    method CheckPair(env: RoundEnv) returns (changed: bool, failed: bool, read: TlsRead)
      modifies this`source, this`tls, this`broker, this`state
      ensures Pair(Now(), read) == ReadTls(old(Now()), env)
      ensures TlsEnd(state.tls, changed, failed) == CheckTls(tools, old(state).tls, read)
      ensures state.pending == old(state).pending
    {
      read := ReadPair(env);
      var crt, key := tools.sum(Crt(read)), tools.sum(Key(read));
      if state.tls.seen && crt == state.tls.crt && key == state.tls.key {
        return false, false, read;
      }
      var first := !state.tls.seen;
      state := state.(tls := state.tls.(seen := true, crt := crt, key := key));
      var valid := read.Some? && tools.pairs(read.value.fst, read.value.snd);
      state := state.(tls := state.tls.(valid := valid));
      return !first, !valid, read;
    }

    /** signal. */
    method Signal(env: RoundEnv) returns (sent: bool)
      modifies this`source, this`tls, this`broker
      ensures Pair(Now(), sent) == SignalStep(old(Now()), old(state), env)
    {
      Meanwhile(env.signal.events);
      if broker.None? || env.signal.fails {
        return false;
      }
      broker := Some(Now().copies);
      return true;
    }

    /** once. */
    method Poll(env: RoundEnv) returns (report: Report)
      modifies this`source, this`tls, this`broker, this`state, this`journal
      ensures report == Once(old(Now()), old(state), cfg, tools, env)
      ensures Now() == report.world && state == report.state
      ensures journal == old(journal) + SyncOps(old(Now()), cfg.files, env)
    {
      var changed, failed := SyncCopies(env);
      var end := SyncEnd(Now(), changed, failed);
      var news := !failed && changed;
      if news {
        state := state.(pending := true);
      }
      var read: TlsRead := None;
      if cfg.tls {
        var tlsChanged, tlsFailed;
        tlsChanged, tlsFailed, read := CheckPair(env);
        if tlsChanged && !tlsFailed {
          news := true;
          state := state.(pending := true);
        }
        if !state.tls.valid {
          return Report(Now(), state, end, read, news, false);
        }
      }
      var sent := false;
      if state.pending {
        sent := Signal(env);
        if sent {
          state := state.(pending := false);
        }
      }
      report := Report(Now(), state, end, read, news, sent);
    }

    /** Run, for as many polls as it lives. */
    method PollAll(envs: seq<RoundEnv>) returns (reports: seq<Report>)
      modifies this`source, this`tls, this`broker, this`state, this`journal
      ensures reports == Run(old(Now()), old(state), cfg, tools, envs)
      ensures envs != [] ==> Now() == reports[|envs| - 1].world && state == reports[|envs| - 1].state
    {
      reports := [];
      for i := 0 to |envs|
        invariant |reports| == i
        invariant Run(old(Now()), old(state), cfg, tools, envs) == reports + Run(Now(), state, cfg, tools, envs[i..])
        invariant i > 0 ==> Now() == reports[i - 1].world && state == reports[i - 1].state
        invariant i == 0 ==> Now() == old(Now()) && state == old(state)
      {
        ghost var rest := Run(Now(), state, cfg, tools, envs[i..]);
        assert envs[i..][1..] == envs[i + 1..] && envs[i..][0] == envs[i];
        var report := Poll(envs[i]);
        assert rest == [report] + Run(Now(), state, cfg, tools, envs[i + 1..]);
        assert reports + rest == (reports + [report]) + Run(Now(), state, cfg, tools, envs[i + 1..]);
        reports := reports + [report];
      }
    }
  }

  /** A journal that has grown by the operations of a Sync. */
  lemma JournalWhole(start: Files, was: seq<FileOp>, journal: seq<FileOp>, before: Files, files: Files, ops: seq<FileOp>)
    requires journal == was + ops && before == Replay(start, was) && AlwaysWhole(before, files, before, ops)
    ensures forall k :: |was| <= k <= |journal| ==> Whole(before, files, Replay(start, journal[..k]))
  {
    forall k | |was| <= k <= |journal| ensures Whole(before, files, Replay(start, journal[..k])) {
      assert journal[..k] == was + ops[..k - |was|];
      ReplayOn(start, was, ops[..k - |was|]);
    }
  }
}
