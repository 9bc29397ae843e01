/** A Secret mount as the kubelet publishes it, the directory of copies, and the
    broker beside them: what can happen between two operations of the reloader. */
module Mounts {
  import opened Text

  type Files = map<string, string>

  /** link is the target of ..data; dirs are the published versions still there; used
      are all version names so far, none of which the kubelet gives out twice; plain
      are the files of a directory without ..data. */
  datatype Mount = Mount(link: Option<string>, dirs: map<string, Files>, used: set<string>, plain: Files)
  {
    ghost predicate Valid() {
      dirs.Keys <= used && (link.Some? ==> link.value in dirs)
    }
  }

  /** The kubelet writes a new version and swaps the link to it, or removes a version
      the link no longer names. */
  datatype KubeletStep = Publish(version: string, files: Files) | Retire(version: string)

  function Step(m: Mount, s: KubeletStep): Mount {
    match s
    case Publish(v, files) =>
      if v in m.used then m else Mount(Some(v), m.dirs[v := files], m.used + {v}, m.plain)
    case Retire(v) =>
      if m.link == Some(v) then m else m.(dirs := m.dirs - {v})
  }

  /** The directory a set of files is read from. */
  datatype Base = Version(name: string) | Mountpoint

  /** resolveData; the link may exist and still be unreadable. */
  function Resolve(m: Mount, unreadable: bool): Base {
    if unreadable || m.link.None? then Mountpoint else Version(m.link.value)
  }

  /** Reading one file; below the mount point every name leads through ..data. */
  function ReadAt(m: Mount, base: Base, name: string): Option<string> {
    var dir := match base
      case Version(v) => if v in m.dirs then m.dirs[v] else map[]
      case Mountpoint =>
        if m.link.None? then m.plain else if m.link.value in m.dirs then m.dirs[m.link.value] else map[];
    if name in dir then Some(dir[name]) else None
  }

  /** copies is the directory the broker reads; broker is what the running broker has
      loaded from it. */
  datatype World = World(source: Mount, tls: Mount, copies: Files, broker: Option<Files>)
  {
    ghost predicate Valid() { source.Valid() && tls.Valid() }
  }

  datatype Event = SourceStep(step: KubeletStep) | TlsStep(step: KubeletStep) | BrokerStarts | BrokerStops

  function Happen(w: World, e: Event): World {
    match e
    case SourceStep(s) => w.(source := Step(w.source, s))
    case TlsStep(s) => w.(tls := Step(w.tls, s))
    case BrokerStarts => w.(broker := Some(w.copies))
    case BrokerStops => w.(broker := None)
  }

  function HappenAll(w: World, es: seq<Event>): World
    decreases |es|
  {
    if es == [] then w else HappenAll(Happen(w, es[0]), es[1..])
  }

  /** The running broker works with the copies that are in its directory. */
  predicate UpToDate(w: World) { w.broker.Some? ==> w.broker.value == w.copies }

  lemma {:induction false} EventsKeep(w: World, es: seq<Event>)
    ensures HappenAll(w, es).copies == w.copies
    ensures UpToDate(w) ==> UpToDate(HappenAll(w, es))
    ensures w.Valid() ==> HappenAll(w, es).Valid()
    decreases |es|
  {
    if es != [] { EventsKeep(Happen(w, es[0]), es[1..]); }
  }

  /** The mount of the rendered Secret, and that of the TLS Secret. */
  datatype Side = OfUsers | OfTls

  function MountOf(w: World, side: Side): Mount { if side.OfUsers? then w.source else w.tls }

  /** A version, once published, is never seen with other contents. */
  lemma {:induction false} VersionsNeverChange(w: World, es: seq<Event>, side: Side, v: string)
    requires v in MountOf(w, side).used && w.Valid()
    ensures var before, now := MountOf(w, side), MountOf(HappenAll(w, es), side);
            v in now.used && (v in now.dirs ==> v in before.dirs && now.dirs[v] == before.dirs[v])
    decreases |es|
  {
    if es != [] { VersionsNeverChange(Happen(w, es[0]), es[1..], side, v); }
  }

  /** A mount that has a ..data link keeps having one. */
  lemma {:induction false} StaysLinked(w: World, es: seq<Event>, side: Side)
    requires MountOf(w, side).link.Some?
    ensures MountOf(HappenAll(w, es), side).link.Some?
    decreases |es|
  {
    if es != [] { StaysLinked(Happen(w, es[0]), es[1..], side); }
  }
}
