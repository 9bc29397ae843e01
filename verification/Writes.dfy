/** The writes a pass sends to the API server, in order, and what they make of the
    cluster. */
module Writes {
  import opened Text
  import opened Credentials
  import opened Files
  import opened Cluster
  import opened PassModel

  /** A write sent to the API server; a failed one may have taken effect all the same. */
  datatype Write =
    | WroteSlot(slot: Slot, obj: Object, took: bool)
    | WroteUser(name: string, status: UserStatus, took: bool)
    | WroteStatus(own: BrokerStatus, took: bool)

  function Effect(w: World, x: Write): World {
    if !x.took then w
    else match x
      case WroteSlot(slot, obj, _) => w.(store := With(w.store, slot, obj))
      case WroteUser(name, status, _) => w.(statuses := w.statuses[name := status])
      case WroteStatus(own, _) => w.(status := own)
  }

  function Replayed(w: World, log: seq<Write>): World {
    if log == [] then w else Effect(Replayed(w, log[..|log| - 1]), log[|log| - 1])
  }

  /** The log has grown, and what is different about the cluster is what the new writes
      made different. */
  ghost predicate Reached(before: World, log: seq<Write>, after: World, log': seq<Write>) {
    log <= log' && after == Replayed(before, log'[|log|..])
  }

  lemma ReachedNow(w: World, log: seq<Write>)
    ensures Reached(w, log, w, log)
  {
  }

  lemma ReachedBy(before: World, log: seq<Write>, mid: World, log': seq<Write>, x: Write)
    requires Reached(before, log, mid, log')
    ensures Reached(before, log, Effect(mid, x), log' + [x])
  {
    var more := (log' + [x])[|log|..];
    assert more[..|more| - 1] == log'[|log|..];
  }

  lemma {:induction false} ReplayedOn(w: World, a: seq<Write>, b: seq<Write>)
    ensures Replayed(w, a + b) == Replayed(Replayed(w, a), b)
    decreases |b|
  {
    if b == [] {
      assert a + b == a;
    } else {
      var all, init := a + b, b[..|b| - 1];
      assert all[..|all| - 1] == a + init;
      ReplayedOn(w, a, init);
    }
  }

  lemma ReachedTrans(w0: World, a: seq<Write>, w1: World, b: seq<Write>, w2: World, c: seq<Write>)
    requires Reached(w0, a, w1, b) && Reached(w1, b, w2, c)
    ensures Reached(w0, a, w2, c)
  {
    ReplayedOn(w0, b[|a|..], c[|b|..]);
    assert c[|a|..] == b[|a|..] + c[|b|..];
  }

  // ------------------------------------------------------------------ their order

  /** The fixed order of the writes: the rendered Secret, then the statuses of its
      users, then the objects the pods need, then the StatefulSet, then the status. */
  function Rank(x: Write): nat {
    match x
    case WroteSlot(slot, _, _) => SlotRank(slot)
    case WroteUser(_, _, _) => 1
    case WroteStatus(_, _) => 6
  }

  function SlotRank(slot: Slot): nat {
    match slot
    case AuthSecret => 0
    case ConfigMap => 2
    case HeadlessService => 3
    case ClientService => 4
    case BrokerSet => 5
  }

  /** Between two states of the log, writes of ranks lo to hi were added, in order. */
  ghost predicate Adds(before: seq<Write>, after: seq<Write>, lo: nat, hi: nat) {
    && before <= after
    && (forall i :: |before| <= i < |after| ==> lo <= Rank(after[i]) <= hi)
    && forall i, j :: |before| <= i < j < |after| ==> Rank(after[i]) <= Rank(after[j])
  }

  lemma AddsTrans(a: seq<Write>, b: seq<Write>, c: seq<Write>, lo: nat, mid: nat, hi: nat)
    requires lo <= mid <= hi
    requires Adds(a, b, lo, mid) && Adds(b, c, mid, hi)
    ensures Adds(a, c, lo, hi)
  {
    assert forall i :: 0 <= i < |b| ==> c[i] == b[i];
  }

  /** The cluster has become what new writes of ranks lo to hi, in order, made of it. */
  ghost predicate Went(before: World, log: seq<Write>, after: World, log': seq<Write>, lo: nat, hi: nat) {
    Reached(before, log, after, log') && Adds(log, log', lo, hi)
  }

  lemma WentTrans(w0: World, a: seq<Write>, w1: World, b: seq<Write>, w2: World, c: seq<Write>, lo: nat, mid: nat, hi: nat)
    requires lo <= mid <= hi && Went(w0, a, w1, b, lo, mid) && Went(w1, b, w2, c, mid, hi)
    ensures Went(w0, a, w2, c, lo, hi)
  {
    ReachedTrans(w0, a, w1, b, w2, c);
    AddsTrans(a, b, c, lo, mid, hi);
  }

  lemma WentWider(w: World, a: seq<Write>, w': World, b: seq<Write>, lo: nat, hi: nat, lo': nat, hi': nat)
    requires Went(w, a, w', b, lo, hi) && lo' <= lo && hi <= hi'
    ensures Went(w, a, w', b, lo', hi')
  {
  }

  lemma WentNowhere(w: World, log: seq<Write>, lo: nat, hi: nat)
    ensures Went(w, log, w, log, lo, hi)
  {
    ReachedNow(w, log);
  }

  /** From the StatefulSet on, a pass writes nothing but it and the broker's status. */
  lemma {:induction false} OnlySetAndStatus(w: World, log: seq<Write>)
    requires forall i :: 0 <= i < |log| ==> 5 <= Rank(log[i])
    ensures Replayed(w, log).store.(set_ := None) == w.store.(set_ := None)
    ensures Replayed(w, log).statuses == w.statuses
  {
    if log != [] {
      OnlySetAndStatus(w, log[..|log| - 1]);
      assert Rank(log[|log| - 1]) >= 5;
    }
  }

  /** When the StatefulSet is written, everything its pods need already stands as the
      pass leaves it: the cluster at that moment differs from the final one in the
      StatefulSet and the broker's status only. */
  lemma SetComesLast(before: World, log: seq<Write>, after: World, log': seq<Write>, i: nat)
    requires Went(before, log, after, log', 0, 6)
    requires |log| <= i < |log'| && log'[i].WroteSlot? && log'[i].slot == BrokerSet
    ensures var mid := Replayed(before, log'[|log|..i]);
            mid.store.(set_ := None) == after.store.(set_ := None) && mid.statuses == after.statuses
  {
    var a, b := log'[|log|..i], log'[i..];
    assert log'[|log|..] == a + b;
    ReplayedOn(before, a, b);
    assert Rank(log'[i]) == 5;
    assert forall j :: 0 <= j < |b| ==> b[j] == log'[i + j];
    OnlySetAndStatus(Replayed(before, a), b);
  }

  // ------------------------------------------------------------- Ready statuses

  /** Every Ready status written between two states of the log is backed: w held the
      user's credentials when the pass read them, and the data holds its line. */
  ghost predicate ReadyBacked(e: Env, o: Options, w: World, data: Data, before: seq<Write>, after: seq<Write>) {
    forall i :: |before| <= i < |after| && after[i].WroteUser? && ReadyStatus(after[i].status) ==>
      Backed(e, o, w, data, after[i].name)
  }

  /** Nothing written between two states of the log marks a user Ready. */
  ghost predicate NoneReady(before: seq<Write>, after: seq<Write>) {
    forall i :: |before| <= i < |after| && after[i].WroteUser? ==> !ReadyStatus(after[i].status)
  }

  /** A user's status that is another than before is one that was written. */
  lemma {:induction false} StatusWasWritten(w: World, log: seq<Write>, name: string) returns (i: int)
    requires StatusOf(Replayed(w, log), name) != StatusOf(w, name)
    ensures 0 <= i < |log| && log[i] == WroteUser(name, StatusOf(Replayed(w, log), name), true)
  {
    var init, last := log[..|log| - 1], log[|log| - 1];
    if last.WroteUser? && last.took && last.name == name {
      i := |log| - 1;
    } else {
      i := StatusWasWritten(w, init, name);
    }
  }

  /** Whoever is Ready now and was not so before has a line in the stored Secret, with a
      hash that verifies the password the pass read. */
  ghost predicate ReadyStands(e: Env, o: Options, before: World, after: World, data: Data) {
    forall n :: ReadyStatus(StatusOf(after, n)) && StatusOf(after, n) != StatusOf(before, n) ==>
      Backed(e, o, before, data, n)
  }

  lemma BackedStands(e: Env, o: Options, before: World, log: seq<Write>, after: World, log': seq<Write>, data: Data)
    requires Reached(before, log, after, log')
    requires ReadyBacked(e, o, before, data, log, log')
    ensures ReadyStands(e, o, before, after, data)
  {
    forall n | ReadyStatus(StatusOf(after, n)) && StatusOf(after, n) != StatusOf(before, n)
      ensures Backed(e, o, before, data, n)
    {
      var i := StatusWasWritten(before, log'[|log|..], n);
      assert log'[|log| + i] == log'[|log|..][i];
    }
  }

  /** No user is Ready now who was not Ready, with the same status, before. */
  ghost predicate NobodyNewReady(before: World, after: World) {
    forall n :: ReadyStatus(StatusOf(after, n)) ==> StatusOf(after, n) == StatusOf(before, n)
  }

  lemma NoneReadyStands(before: World, log: seq<Write>, after: World, log': seq<Write>)
    requires Reached(before, log, after, log') && NoneReady(log, log')
    ensures NobodyNewReady(before, after)
  {
    forall n | ReadyStatus(StatusOf(after, n)) ensures StatusOf(after, n) == StatusOf(before, n) {
      if StatusOf(after, n) != StatusOf(before, n) {
        var i := StatusWasWritten(before, log'[|log|..], n);
        assert false;
      }
    }
  }

  /** Writes of other kinds mark nobody Ready. */
  lemma NothingNewReady(e: Env, o: Options, w: World, data: Data, before: seq<Write>, after: seq<Write>)
    requires Adds(before, after, 0, 0)
    ensures ReadyBacked(e, o, w, data, before, after)
  {
  }

  /** The Ready statuses that follow the writing of the Secret. */
  lemma ReadyBackedAfter(e: Env, o: Options, w: World, data: Data, before: seq<Write>, mid: seq<Write>, after: seq<Write>)
    requires Adds(before, mid, 0, 0) && mid <= after && ReadyBacked(e, o, w, data, mid, after)
    ensures ReadyBacked(e, o, w, data, before, after)
  {
    forall i | |before| <= i < |after| && after[i].WroteUser? && ReadyStatus(after[i].status)
      ensures Backed(e, o, w, data, after[i].name)
    {
      if i < |mid| { assert false; }
    }
  }

  lemma NoneReadyBacked(e: Env, o: Options, w: World, data: Data, before: seq<Write>, after: seq<Write>)
    requires NoneReady(before, after)
    ensures ReadyBacked(e, o, w, data, before, after)
  {
  }

  lemma NoneReadyOn(before: seq<Write>, mid: seq<Write>, after: seq<Write>)
    requires |before| <= |mid| && NoneReady(before, mid) && Adds(mid, after, 6, 6)
    ensures NoneReady(before, after)
  {
    forall i | |before| <= i < |after| && after[i].WroteUser? ensures !ReadyStatus(after[i].status) {
      assert i < |mid|;
    }
  }

  /** Later writes of other kinds leave the Ready statuses backed. */
  lemma ReadyBackedOn(e: Env, o: Options, w: World, data: Data,
                      before: seq<Write>, mid: seq<Write>, after: seq<Write>, lo: nat, hi: nat)
    requires ReadyBacked(e, o, w, data, before, mid) && |before| <= |mid|
    requires Adds(mid, after, lo, hi) && lo >= 2
    ensures ReadyBacked(e, o, w, data, before, after)
  {
    forall i | |before| <= i < |after| && after[i].WroteUser? && ReadyStatus(after[i].status)
      ensures Backed(e, o, w, data, after[i].name)
    {
      assert i < |mid|;
    }
  }

  // ------------------------------------------------------------- users' statuses

  /** Only statuses wanted for users were written. */
  ghost predicate WritesOf(users: seq<User>, wants: seq<UserStatus>, before: seq<Write>, after: seq<Write>)
    requires |wants| == |users|
  {
    before <= after && forall k :: |before| <= k < |after| ==> Wanted(users, wants, after[k])
  }

  ghost predicate Wanted(users: seq<User>, wants: seq<UserStatus>, x: Write)
    requires |wants| == |users|
  {
    x.WroteUser? && exists i :: 0 <= i < |users| && x.name == users[i].name && x.status == wants[i]
  }

  lemma WritesOfMore(users: seq<User>, wants: seq<UserStatus>, before: seq<Write>, after: seq<Write>, i: nat, took: bool)
    requires |wants| == |users| && i < |users| && WritesOf(users, wants, before, after)
    ensures WritesOf(users, wants, before, after + [WroteUser(users[i].name, wants[i], took)])
  {
    assert Wanted(users, wants, WroteUser(users[i].name, wants[i], took));
  }

  lemma WritesOfAdd(users: seq<User>, wants: seq<UserStatus>, before: seq<Write>, after: seq<Write>)
    requires |wants| == |users| && WritesOf(users, wants, before, after)
    ensures Adds(before, after, 1, 1)
    ensures (forall i :: 0 <= i < |wants| ==> !ReadyStatus(wants[i])) ==> NoneReady(before, after)
  {
    forall k | |before| <= k < |after|
      ensures Rank(after[k]) == 1
      ensures (forall i :: 0 <= i < |wants| ==> !ReadyStatus(wants[i])) ==> !ReadyStatus(after[k].status)
    {
      assert Wanted(users, wants, after[k]);
    }
  }

  /** The Ready statuses a pass writes are backed by the Secret it has stored. */
  lemma StatusesBacked(e: Env, o: Options, w: World, p: UserPass, users: seq<User>,
                       wants: seq<UserStatus>, before: seq<Write>, after: seq<Write>)
    requires Backs(e, o, w, p)
    requires |wants| == |users| && forall i :: 0 <= i < |wants| ==> wants[i] == StatusFor(users[i], p)
    requires WritesOf(users, wants, before, after)
    ensures ReadyBacked(e, o, w, p.data, before, after)
  {
    forall k | |before| <= k < |after| && after[k].WroteUser? && ReadyStatus(after[k].status)
      ensures Backed(e, o, w, p.data, after[k].name)
    {
      assert Wanted(users, wants, after[k]);
    }
  }
}
