/** The directory the copies stand in, and the operations that change it. */
module Disk {
  import opened Mounts

  /** One file operation; all that a running broker or a crash can come between. */
  datatype FileOp = Create(name: string) | Append(name: string, data: string) | Remove(name: string)
    | Rename(from: string, to: string)

  function Apply(d: Files, op: FileOp): Files {
    match op
    case Create(n) => d[n := ""]
    case Append(n, data) => if n in d then d[n := d[n] + data] else d
    case Remove(n) => d - {n}
    case Rename(from, to) => if from in d then (d - {from})[to := d[from]] else d
  }

  /** The directory after a list of operations. */
  function Replay(d: Files, ops: seq<FileOp>): Files {
    if ops == [] then d else Apply(Replay(d, ops[..|ops| - 1]), ops[|ops| - 1])
  }

  lemma {:induction false} ReplayOn(d: Files, a: seq<FileOp>, b: seq<FileOp>)
    ensures Replay(d, a + b) == Replay(Replay(d, a), b)
    decreases |b|
  {
    if b == [] {
      assert a + b == a;
    } else {
      var all, init := a + b, b[..|b| - 1];
      assert all[..|all| - 1] == a + init;
      ReplayOn(d, a, init);
    }
  }

  predicate SameAt(a: Files, b: Files, n: string) {
    (n in a <==> n in b) && (n in a ==> a[n] == b[n])
  }

  /** The directory d holds every file entirely as before or entirely as in the set just
      read. Temporary files, whose names begin with a dot, do not count. */
  ghost predicate Whole(before: Files, files: Files, d: Files) {
    forall n :: n != "" && n[0] != '.' ==> SameAt(d, before, n) || SameAt(d, files, n)
  }

  /** In every state that the operations lead through, every file is whole. */
  ghost predicate AlwaysWhole(before: Files, files: Files, d: Files, ops: seq<FileOp>) {
    forall k :: 0 <= k <= |ops| ==> Whole(before, files, Replay(d, ops[..k]))
  }

  lemma AlwaysWholeOn(before: Files, files: Files, d: Files, a: seq<FileOp>, b: seq<FileOp>)
    requires AlwaysWhole(before, files, d, a) && AlwaysWhole(before, files, Replay(d, a), b)
    ensures AlwaysWhole(before, files, d, a + b)
  {
    forall k | 0 <= k <= |a + b| ensures Whole(before, files, Replay(d, (a + b)[..k])) {
      if k <= |a| {
        assert (a + b)[..k] == a[..k];
      } else {
        assert (a + b)[..k] == a + b[..k - |a|];
        ReplayOn(d, a, b[..k - |a|]);
      }
    }
  }
}
