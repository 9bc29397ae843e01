/** One poll of the reloader and runs of polls, as functions of everything outside
    the reloader's control: what happens before each of its operations, and which
    operations fail. */
module Rounds {
  import opened Text
  import opened Mounts
  import opened Disk

  /** What happens just before an operation, and whether the operation fails. */
  datatype Moment = Moment(events: seq<Event>, fails: bool)

  /** Where writeAtomic fails, if it does. */
  datatype Fault = NoFault | CreateFails | WriteFails(written: nat) | ChmodFails | CloseFails | RenameFails

  /** The same before a replacement of a copy; suffix is the random part of the
      temporary file's name. */
  datatype WriteMoment = WriteMoment(events: seq<Event>, suffix: string, fault: Fault)

  datatype RoundEnv = RoundEnv(
    link: Moment, fileReads: seq<Moment>, copyReads: seq<Moment>, writes: seq<WriteMoment>,
    tlsLink: Moment, crt: Moment, key: Moment, signal: Moment)

  const QUIET := Moment([], false)
  const QUIET_ROUND := RoundEnv(QUIET, [], [], [], QUIET, QUIET, QUIET, QUIET)

  function At(ms: seq<Moment>, i: nat): Moment { if i < |ms| then ms[i] else QUIET }

  function WriteAt(ms: seq<WriteMoment>, i: nat): WriteMoment {
    if i < |ms| then ms[i] else WriteMoment([], "", NoFault)
  }

  /** files are the keys to copy; tls says that there is a TLS mount. */
  datatype Config = Config(files: seq<string>, tls: bool)

  /** SHA-256 of a file's bytes, and tls.X509KeyPair. */
  datatype Tools = Tools(sum: string -> string, pairs: (string, string) -> bool)

  // ----------------------------------------------------------------- readSource

  datatype ReadEnd = ReadEnd(world: World, files: Option<Files>)

  function ReadFrom(w: World, base: Base, names: seq<string>, env: seq<Moment>, i: nat, got: Files): ReadEnd
    requires i <= |names|
    decreases |names| - i
  {
    if i == |names| then ReadEnd(w, Some(got))
    else
      var w' := HappenAll(w, At(env, i).events);
      var data := if At(env, i).fails then None else ReadAt(w'.source, base, names[i]);
      if data.None? then ReadEnd(w', None)
      else ReadFrom(w', base, names, env, i + 1, got[names[i] := data.value])
  }

  function ReadSource(w: World, names: seq<string>, env: RoundEnv): ReadEnd {
    var w' := HappenAll(w, env.link.events);
    ReadFrom(w', Resolve(w'.source, env.link.fails), names, env.fileReads, 0, map[])
  }

  // ----------------------------------------------------------------------- Sync

  datatype SyncEnd = SyncEnd(world: World, changed: bool, failed: bool)

  function TempName(name: string, suffix: string): string { "." + name + ".tmp-" + suffix }

  /** Whether writeAtomic gets to its rename and through it. */
  predicate Replaces(copies: Files, name: string, m: WriteMoment) {
    m.fault.NoFault? && TempName(name, m.suffix) !in copies
  }

  /** What writeAtomic does to the directory: a temporary file next to the copy, written
      and renamed over it. The deferred removal comes last, and after the rename it finds
      nothing to remove. */
  function WriteOps(copies: Files, name: string, data: string, m: WriteMoment): seq<FileOp> {
    var temp := TempName(name, m.suffix);
    if m.fault.CreateFails? || temp in copies then []
    else match m.fault
      case WriteFails(n) => [Create(temp), Append(temp, data[..if n < |data| then n else |data|]), Remove(temp)]
      case NoFault => [Create(temp), Append(temp, data), Rename(temp, name), Remove(temp)]
      case _ => [Create(temp), Append(temp, data), Remove(temp)]
  }

  function CopyFrom(w: World, names: seq<string>, files: Files, env: RoundEnv, i: nat, changed: bool): SyncEnd
    requires i <= |names| && forall n :: n in names ==> n in files
    decreases |names| - i
  {
    if i == |names| then SyncEnd(w, changed, false)
    else
      var name := names[i];
      var w1 := HappenAll(w, At(env.copyReads, i).events);
      if At(env.copyReads, i).fails then SyncEnd(w1, changed, true)
      else if name in w1.copies && w1.copies[name] == files[name] then CopyFrom(w1, names, files, env, i + 1, changed)
      else
        var w2 := HappenAll(w1, WriteAt(env.writes, i).events);
        if !Replaces(w2.copies, name, WriteAt(env.writes, i)) then SyncEnd(w2, changed, true)
        else CopyFrom(w2.(copies := w2.copies[name := files[name]]), names, files, env, i + 1, true)
  }

  /** What the loop of Sync does to the directory from name i on. */
  function CopyOps(w: World, names: seq<string>, files: Files, env: RoundEnv, i: nat): seq<FileOp>
    requires i <= |names| && forall n :: n in names ==> n in files
    decreases |names| - i
  {
    if i == |names| then []
    else
      var name := names[i];
      var w1 := HappenAll(w, At(env.copyReads, i).events);
      if At(env.copyReads, i).fails then []
      else if name in w1.copies && w1.copies[name] == files[name] then CopyOps(w1, names, files, env, i + 1)
      else
        var w2 := HappenAll(w1, WriteAt(env.writes, i).events);
        var ops := WriteOps(w2.copies, name, files[name], WriteAt(env.writes, i));
        if !Replaces(w2.copies, name, WriteAt(env.writes, i)) then ops
        else ops + CopyOps(w2.(copies := w2.copies[name := files[name]]), names, files, env, i + 1)
  }

  lemma {:induction false} ReadsEveryName(w: World, base: Base, names: seq<string>, env: seq<Moment>, i: nat, got: Files)
    requires i <= |names|
    requires forall j :: 0 <= j < i ==> names[j] in got
    ensures ReadFrom(w, base, names, env, i, got).files.Some? ==>
              forall n :: n in names ==> n in ReadFrom(w, base, names, env, i, got).files.value
    decreases |names| - i
  {
    if i < |names| {
      var w' := HappenAll(w, At(env, i).events);
      var data := if At(env, i).fails then None else ReadAt(w'.source, base, names[i]);
      if data.Some? { ReadsEveryName(w', base, names, env, i + 1, got[names[i] := data.value]); }
    }
  }

  function Sync(w: World, names: seq<string>, env: RoundEnv): SyncEnd {
    var read := ReadSource(w, names, env);
    match read.files
    case None => SyncEnd(read.world, false, true)
    case Some(files) =>
      var w' := HappenAll(w, env.link.events);
      ReadsEveryName(w', Resolve(w'.source, env.link.fails), names, env.fileReads, 0, map[]);
      CopyFrom(read.world, names, files, env, 0, false)
  }

  /** What Sync does to the directory, operation by operation. */
  function SyncOps(w: World, names: seq<string>, env: RoundEnv): seq<FileOp> {
    var read := ReadSource(w, names, env);
    match read.files
    case None => []
    case Some(files) =>
      var w' := HappenAll(w, env.link.events);
      ReadsEveryName(w', Resolve(w'.source, env.link.fails), names, env.fileReads, 0, map[]);
      CopyOps(read.world, names, files, env, 0)
  }

  // ------------------------------------------------------------------- checkTLS

  type TlsRead = Option<Pair<string, string>>

  function Crt(read: TlsRead): string { if read.Some? then read.value.fst else "" }

  function Key(read: TlsRead): string { if read.Some? then read.value.snd else "" }

  /** A fresh validation of what was read. */
  predicate Usable(t: Tools, read: TlsRead) { read.Some? && t.pairs(read.value.fst, read.value.snd) }

  datatype TlsState = TlsState(seen: bool, crt: string, key: string, valid: bool)

  const NOTHING_SEEN := TlsState(false, "", "", false)

  datatype TlsEnd = TlsEnd(state: TlsState, changed: bool, failed: bool)

  function ReadTls(w: World, env: RoundEnv): Pair<World, TlsRead> {
    var w1 := HappenAll(w, env.tlsLink.events);
    var base := Resolve(w1.tls, env.tlsLink.fails);
    var w2 := HappenAll(w1, env.crt.events);
    var crt := if env.crt.fails then None else ReadAt(w2.tls, base, "tls.crt");
    if crt.None? then Pair(w2, None)
    else
      var w3 := HappenAll(w2, env.key.events);
      var key := if env.key.fails then None else ReadAt(w3.tls, base, "tls.key");
      if key.None? then Pair(w3, None) else Pair(w3, Some(Pair(crt.value, key.value)))
  }

  /** checkTLS on what readTLS returned. */
  function CheckTls(t: Tools, s: TlsState, read: TlsRead): TlsEnd {
    var crt, key := t.sum(Crt(read)), t.sum(Key(read));
    if s.seen && crt == s.crt && key == s.key then TlsEnd(s, false, false)
    else
      var valid := Usable(t, read);
      TlsEnd(TlsState(true, crt, key, valid), s.seen, !valid)
  }

  // ----------------------------------------------------------------------- once

  datatype State = State(pending: bool, tls: TlsState)

  const STARTED := State(false, NOTHING_SEEN)

  /** One poll: the world and the state it leaves, what it saw, what it sent. */
  datatype Report = Report(world: World, state: State, sync: SyncEnd, read: TlsRead, news: bool, signalled: bool)

  function SignalStep(w: World, s: State, env: RoundEnv): Pair<World, bool> {
    var w' := HappenAll(w, env.signal.events);
    if w'.broker.None? || env.signal.fails then Pair(w', false)
    else Pair(w'.(broker := Some(w'.copies)), true)
  }

  function Once(w: World, s: State, cfg: Config, t: Tools, env: RoundEnv): Report {
    var sync := Sync(w, cfg.files, env);
    var news := !sync.failed && sync.changed;
    if cfg.tls then
      var Pair(w1, read) := ReadTls(sync.world, env);
      var check := CheckTls(t, s.tls, read);
      var news' := news || (check.changed && !check.failed);
      var s' := State(s.pending || news', check.state);
      if !check.state.valid then Report(w1, s', sync, read, news', false)
      else Finish(w1, s', sync, read, news', env)
    else
      Finish(sync.world, State(s.pending || news, s.tls), sync, None, news, env)
  }

  function Finish(w: World, s: State, sync: SyncEnd, read: TlsRead, news: bool, env: RoundEnv): Report {
    if !s.pending then Report(w, s, sync, read, news, false)
    else
      var Pair(w', sent) := SignalStep(w, s, env);
      Report(w', s.(pending := !sent), sync, read, news, sent)
  }

  /** Run: one poll after the other. */
  function Run(w: World, s: State, cfg: Config, t: Tools, envs: seq<RoundEnv>): (reports: seq<Report>)
    ensures |reports| == |envs|
    decreases |envs|
  {
    if envs == [] then []
    else
      var r := Once(w, s, cfg, t, envs[0]);
      [r] + Run(r.world, r.state, cfg, t, envs[1..])
  }
}
