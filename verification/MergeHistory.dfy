/** The pod template's labels and annotations over whole histories of passes and of
    other writers. */
module MergeHistory {
  import opened Text
  import opened Labels
  import opened StatefulSets

  datatype Channel = PodLabels | PodAnnotations

  /** A pass applies a spec; another writer sets or deletes one key of the template. */
  datatype Event = Pass(spec: Spec) | Foreign(channel: Channel, key: string, value: Option<string>)

  function Live(o: Sts, c: Channel): Map { if c.PodLabels? then o.podLabels else o.podAnnotations }

  function User(s: Spec, c: Channel): Map { if c.PodLabels? then s.podLabels else s.podAnnotations }

  function Own(s: Spec, c: Channel): Map { if c.PodLabels? then BaseLabels(s) else OwnAnnotations(s) }

  function Record(c: Channel): string { if c.PodLabels? then APPLIED_LABELS else APPLIED_ANNOTATIONS }

  function Write(m: Map, key: string, value: Option<string>): Map {
    match value
    case Some(v) => m[key := v]
    case None => m - {key}
  }

  /** reconcileStatefulSet on an existing object: the merge, if the check asks for it. */
  ghost function Apply(o: Sts, e: Event): Sts {
    match e
    case Pass(s) => if HasChanged(Desired(s), o) then Merged(o, Desired(s)) else o
    case Foreign(PodLabels, k, v) => o.(podLabels := Write(o.podLabels, k, v))
    case Foreign(PodAnnotations, k, v) => o.(podAnnotations := Write(o.podAnnotations, k, v))
  }

  /** The object after a history that began with its creation for spec first. */
  ghost function After(first: Spec, h: seq<Event>): Sts {
    if h == [] then Desired(first) else Apply(After(first, h[..|h| - 1]), h[|h| - 1])
  }

  /** The spec of the last pass. */
  function Applied(first: Spec, h: seq<Event>): Spec {
    if h == [] then first
    else if h[|h| - 1].Pass? then h[|h| - 1].spec
    else Applied(first, h[..|h| - 1])
  }

  ghost predicate ValidSpec(s: Spec) {
    ValidKeys(s.podLabels.Keys) && ValidKeys(s.podAnnotations.Keys)
  }

  ghost predicate ValidHistory(first: Spec, h: seq<Event>) {
    ValidSpec(first) && forall e :: e in h && e.Pass? ==> ValidSpec(e.spec)
  }

  // ------------------------------------------------------- what each key should be

  /** What the design promises for one key: the operator's value, else the spec's,
      else gone if the spec before named it, else whatever another writer left. */
  function Promised(first: Spec, h: seq<Event>, c: Channel, k: string): Option<string> {
    if h == [] then Look(User(first, c) + Own(first, c), k)
    else
      var init := h[..|h| - 1];
      match h[|h| - 1]
      case Foreign(c', k', v) => if c' == c && k' == k then v else Promised(first, init, c, k)
      case Pass(s) => NextPromise(Applied(first, init), s, c, k, Promised(first, init, c, k))
  }

  /** Equal; but an empty value promised for a key the operator or the spec names may
      also be absent. */
  predicate Delivers(o: Sts, c: Channel, k: string, named: bool, promised: Option<string>) {
    Look(Live(o, c), k) == promised || (named && promised == Some("") && k !in Live(o, c))
  }

  predicate Named(s: Spec, c: Channel, k: string) { k in Own(s, c) || k in User(s, c) }

  lemma DesiredHas(s: Spec, c: Channel)
    ensures Record(c) in Desired(s).annotations
    ensures Desired(s).annotations[Record(c)] == JoinedKeys(User(s, c))
    ensures Live(Desired(s), c) == User(s, c) + Own(s, c)
  {
  }

  lemma {:induction false} RecordFollows(first: Spec, h: seq<Event>, c: Channel)
    ensures Get(After(first, h).annotations, Record(c)) == JoinedKeys(User(Applied(first, h), c))
  {
    if h == [] {
      DesiredHas(first, c);
    } else {
      var init, e := h[..|h| - 1], h[|h| - 1];
      RecordFollows(first, init, c);
      if e.Pass? {
        DesiredHas(e.spec, c);
        RecordSettles(After(first, init), Desired(e.spec), Record(c));
      }
    }
  }

  lemma {:induction false} AppliedValid(first: Spec, h: seq<Event>, c: Channel)
    requires ValidHistory(first, h)
    ensures ValidKeys(User(Applied(first, h), c).Keys)
  {
    if h != [] {
      if h[|h| - 1].Pass? {
        assert h[|h| - 1] in h;
      } else {
        AppliedValid(first, h[..|h| - 1], c);
      }
    }
  }

  /** What a merge drops is what the spec before named and this one does not. */
  lemma DroppedIsDifference(first: Spec, h: seq<Event>, s: Spec, c: Channel)
    requires ValidHistory(first, h) && ValidSpec(s)
    ensures Dropped(After(first, h), Desired(s), Record(c)) == User(Applied(first, h), c).Keys - User(s, c).Keys
  {
    RecordFollows(first, h, c);
    AppliedValid(first, h, c);
    DesiredHas(s, c);
    var before, now := User(Applied(first, h), c), User(s, c);
    RemovedIsDifference(before, now);
    SortedKeysAre(before.Keys - now.Keys);
  }

  /** When the check is quiet, the spec names the same keys as the one before. */
  lemma QuietKeys(first: Spec, h: seq<Event>, s: Spec, c: Channel)
    requires ValidHistory(first, h) && ValidSpec(s)
    requires !EntriesMissing(Desired(s).annotations, After(first, h).annotations)
    ensures User(s, c).Keys == User(Applied(first, h), c).Keys
  {
    RecordFollows(first, h, c);
    AppliedValid(first, h, c);
    DesiredHas(s, c);
    RecordSettles(After(first, h), Desired(s), Record(c));
    JoinedKeysInjective(User(s, c), User(Applied(first, h), c));
  }

  lemma MergedChannel(o: Sts, d: Sts, c: Channel)
    ensures Live(Merged(o, d), c) == (Live(o, c) - Dropped(o, d, Record(c))) + Live(d, c)
    ensures !HasChanged(d, o) ==> !EntriesMissing(Live(d, c), Live(o, c)) && !EntriesMissing(d.annotations, o.annotations)
  {
  }

  /** What one pass promises for a key. */
  function NextPromise(before: Spec, s: Spec, c: Channel, k: string, promised: Option<string>): Option<string> {
    if k in Own(s, c) then Some(Own(s, c)[k])
    else if k in User(s, c) then Some(User(s, c)[k])
    else if k in User(before, c) then None
    else promised
  }

  lemma OverlayOn(live: Map, gone: set<string>, user: Map, own: Map, k: string)
    ensures Look((live - gone) + (user + own), k) ==
            if k in own then Some(own[k]) else if k in user then Some(user[k])
            else if k in gone then None else Look(live, k)
  {
  }

  lemma OwnKeysFixed(a: Spec, b: Spec, c: Channel)
    ensures Own(a, c).Keys == Own(b, c).Keys
  {
  }

  /** One pass, key by key. */
  lemma PassDelivers(first: Spec, h: seq<Event>, s: Spec, c: Channel, k: string, promised: Option<string>)
    requires ValidHistory(first, h) && ValidSpec(s)
    requires Delivers(After(first, h), c, k, Named(Applied(first, h), c, k), promised)
    ensures Delivers(Apply(After(first, h), Pass(s)), c, k, Named(s, c, k),
                     NextPromise(Applied(first, h), s, c, k, promised))
  {
    var o, d, before := After(first, h), Desired(s), Applied(first, h);
    DesiredHas(s, c);
    MergedChannel(o, d, c);
    OwnKeysFixed(before, s, c);
    var user, own, live := User(s, c), Own(s, c), Live(o, c);
    if HasChanged(d, o) {
      DroppedIsDifference(first, h, s, c);
      OverlayOn(live, User(before, c).Keys - user.Keys, user, own, k);
      assert Live(Merged(o, d), c) == (live - (User(before, c).Keys - user.Keys)) + (user + own);
    } else {
      QuietKeys(first, h, s, c);
      assert k in user <==> k in User(before, c);
      if k in own || k in user { assert Get(live, k) == (user + own)[k]; }
    }
  }

  /** Exactly when a pass leaves a key it names on the template: the check reads an
      absent key as an empty value, so a key whose value is empty and that is gone
      comes back only with a merge the check asks for on other grounds. */
  lemma NamedKeyStands(o: Sts, s: Spec, c: Channel, k: string)
    requires Named(s, c, k)
    ensures k in Live(Apply(o, Pass(s)), c) <==>
              (User(s, c) + Own(s, c))[k] != "" || HasChanged(Desired(s), o) || k in Live(o, c)
  {
  }

  lemma GoneUnnoticed(s: Spec, k: string)
    requires k in s.podLabels && s.podLabels[k] == "" && k !in BaseLabels(s)
    ensures !HasChanged(Desired(s), Desired(s).(podLabels := Desired(s).podLabels - {k}))
  {
    var d := Desired(s);
    forall x | x in d.podLabels ensures Get(d.podLabels - {k}, x) == d.podLabels[x] {}
  }

  /** So it does happen: a label given without a value, once another writer has deleted
      it, is not put back by further passes for the same spec. */
  lemma EmptyLabelStaysDeleted(s: Spec, k: string)
    requires k in s.podLabels && s.podLabels[k] == "" && k !in BaseLabels(s)
    ensures var h := [Foreign(PodLabels, k, None), Pass(s)];
            k !in Live(After(s, h), PodLabels)
  {
    var gone := Foreign(PodLabels, k, None);
    var h := [gone, Pass(s)];
    assert h[..1] == [gone] && [gone][..0] == [];
    var o := After(s, [gone]);
    assert After(s, []) == Desired(s);
    assert o == Desired(s).(podLabels := Desired(s).podLabels - {k});
    GoneUnnoticed(s, k);
    assert After(s, h) == Apply(o, Pass(s)) == o;
  }

  /** After any history, every key of the pod template is what was promised for it. */
  lemma {:induction false} EveryKeyDelivered(first: Spec, h: seq<Event>, c: Channel, k: string)
    requires ValidHistory(first, h)
    ensures Delivers(After(first, h), c, k, Named(Applied(first, h), c, k), Promised(first, h, c, k))
  {
    if h == [] {
      DesiredHas(first, c);
    } else {
      var init, e := h[..|h| - 1], h[|h| - 1];
      assert e in h;
      EveryKeyDelivered(first, init, c, k);
      if e.Pass? {
        PassDelivers(first, init, e.spec, c, k, Promised(first, init, c, k));
      } else {
        assert Live(After(first, h), c) ==
          if e.channel == c then Write(Live(After(first, init), c), e.key, e.value) else Live(After(first, init), c);
      }
    }
  }

  // --------------------------------------- which foreign keys live, in plain words

  /** At position p another writer set the key while the applied spec did not name it,
      and since then no other writer touched it and no pass named it. */
  ghost predicate SpokenAt(first: Spec, h: seq<Event>, c: Channel, k: string, v: string, p: int) {
    && 0 <= p < |h|
    && h[p] == Foreign(c, k, Some(v))
    && k !in User(Applied(first, h[..p]), c)
    && forall q :: p < q < |h| ==>
         match h[q]
         case Foreign(c', k', _) => c' != c || k' != k
         case Pass(s) => k !in User(s, c)
  }

  lemma {:induction false} AppliedSince(first: Spec, h: seq<Event>, c: Channel, k: string, v: string, p: int)
    requires SpokenAt(first, h, c, k, v, p)
    ensures k !in User(Applied(first, h), c)
    decreases |h|
  {
    var init, e := h[..|h| - 1], h[|h| - 1];
    if p == |h| - 1 {
      assert h[..p] == init;
    } else if !e.Pass? {
      SpokenInit(first, h, c, k, v, p);
      AppliedSince(first, init, c, k, v, p);
    }
  }

  lemma SpokenInit(first: Spec, h: seq<Event>, c: Channel, k: string, v: string, p: int)
    requires 0 <= p < |h| - 1
    ensures SpokenAt(first, h, c, k, v, p) ==> SpokenAt(first, h[..|h| - 1], c, k, v, p)
    ensures SpokenAt(first, h[..|h| - 1], c, k, v, p) &&
              (match h[|h| - 1] case Foreign(c', k', _) => c' != c || k' != k case Pass(s) => k !in User(s, c)) ==>
              SpokenAt(first, h, c, k, v, p)
  {
    assert h[..|h| - 1][..p] == h[..p];
  }

  /** A key that neither the operator nor the applied spec names is promised exactly
      when another writer set it after it had left the spec for good. */
  lemma {:induction false} ForeignKeysAreTheSpoken(first: Spec, h: seq<Event>, c: Channel, k: string, v: string)
    requires k !in Own(first, c)
    requires k !in User(Applied(first, h), c)
    ensures Promised(first, h, c, k) == Some(v) <==> exists p :: SpokenAt(first, h, c, k, v, p)
  {
    if h != [] {
      var init, e := h[..|h| - 1], h[|h| - 1];
      match e {
        case Foreign(c', k', v') =>
          if c' == c && k' == k {
            if v' == Some(v) { assert SpokenAt(first, h, c, k, v, |h| - 1); }
            if p :| SpokenAt(first, h, c, k, v, p) {
              if p < |h| - 1 { assert h[|h| - 1] == e; }
            }
          } else {
            ForeignKeysAreTheSpoken(first, init, c, k, v);
            SpokenCarries(first, h, c, k, v);
          }
        case Pass(s) =>
          OwnKeysFixed(first, s, c);
          if k in User(Applied(first, init), c) {
            if p :| SpokenAt(first, h, c, k, v, p) {
              SpokenInit(first, h, c, k, v, p);
              AppliedSince(first, init, c, k, v, p);
            }
          } else {
            ForeignKeysAreTheSpoken(first, init, c, k, v);
            SpokenCarries(first, h, c, k, v);
          }
      }
    }
  }

  lemma SpokenCarries(first: Spec, h: seq<Event>, c: Channel, k: string, v: string)
    requires h != []
    requires match h[|h| - 1] case Foreign(c', k', _) => c' != c || k' != k case Pass(s) => k !in User(s, c)
    ensures var init := h[..|h| - 1];
            (exists p :: SpokenAt(first, h, c, k, v, p)) <==> (exists p :: SpokenAt(first, init, c, k, v, p))
  {
    var init := h[..|h| - 1];
    if p :| SpokenAt(first, h, c, k, v, p) {
      assert p < |h| - 1;
      SpokenInit(first, h, c, k, v, p);
      assert SpokenAt(first, init, c, k, v, p);
    }
    if p :| SpokenAt(first, init, c, k, v, p) {
      SpokenInit(first, h, c, k, v, p);
      assert SpokenAt(first, h, c, k, v, p);
    }
  }

  /** The whole promise after a pass: the operator's keys with its values, the spec's
      other keys with theirs, and of all other keys exactly those another writer set
      after they had left the spec; a key dropped from the spec is gone. */
  lemma {:induction false} TemplateAfterPass(first: Spec, h: seq<Event>, s: Spec, c: Channel)
    requires ValidHistory(first, h + [Pass(s)])
    ensures var live := Live(After(first, h + [Pass(s)]), c);
            && (forall k :: k in Own(s, c) ==> Get(live, k) == Own(s, c)[k])
            && (forall k :: k in User(s, c) && k !in Own(s, c) ==> Get(live, k) == User(s, c)[k])
            && (forall k, v :: k !in User(s, c) && k !in Own(s, c) ==>
                 (Look(live, k) == Some(v) <==> exists p :: SpokenAt(first, h + [Pass(s)], c, k, v, p)))
  {
    var h' := h + [Pass(s)];
    assert h'[..|h'| - 1] == h;
    var live := Live(After(first, h'), c);
    forall k | k in Own(s, c) ensures Get(live, k) == Own(s, c)[k] {
      EveryKeyDelivered(first, h', c, k);
    }
    forall k | k in User(s, c) && k !in Own(s, c) ensures Get(live, k) == User(s, c)[k] {
      EveryKeyDelivered(first, h', c, k);
    }
    forall k, v | k !in User(s, c) && k !in Own(s, c)
      ensures Look(live, k) == Some(v) <==> exists p :: SpokenAt(first, h', c, k, v, p)
    {
      OwnKeysFixed(first, s, c);
      EveryKeyDelivered(first, h', c, k);
      ForeignKeysAreTheSpoken(first, h', c, k, v);
    }
  }

  /** The labels by which the Services and the StatefulSet itself select the pods. */
  function SelectorLabels(name: string): Map {
    map["app.kubernetes.io/name" := "mosquitto",
        "app.kubernetes.io/instance" := name,
        "app.kubernetes.io/managed-by" := "mosquitto-operator"]
  }

  /** After every pass of every history the pods' template carries the labels by which they
      are selected, whatever the spec and other writers put there. */
  lemma SelectorAlwaysMatches(first: Spec, h: seq<Event>, s: Spec, k: string)
    requires ValidHistory(first, h + [Pass(s)]) && k in SelectorLabels(s.name)
    ensures Look(Live(After(first, h + [Pass(s)]), PodLabels), k) == Some(SelectorLabels(s.name)[k]) ||
            (SelectorLabels(s.name)[k] == "" && k !in Live(After(first, h + [Pass(s)]), PodLabels))
  {
    TemplateAfterPass(first, h, s, PodLabels);
    SelectorIsOwn(s, k);
  }

  lemma SelectorIsOwn(s: Spec, k: string)
    requires k in SelectorLabels(s.name)
    ensures k in Own(s, PodLabels) && Own(s, PodLabels)[k] == SelectorLabels(s.name)[k]
  {
  }

  // -------------------------------------------------------------- the pod itself

  const POD_SPEC_HASH := "mko.gtrfc.com/pod-spec-hash"

  /** A spec of the history: the first, or that of a pass. */
  ghost predicate Among(first: Spec, h: seq<Event>, s: Spec) { s == first || Pass(s) in h }

  /** The digest tells the pod specs of the history apart. */
  ghost predicate TellsPodsApart(first: Spec, h: seq<Event>) {
    forall a, b :: Among(first, h, a) && Among(first, h, b) && a.podSpecHash == b.podSpecHash ==> a.podSpec == b.podSpec
  }

  /** The digest on the template is that of the pod spec in it. */
  ghost predicate Identified(first: Spec, h: seq<Event>, o: Sts) {
    && o.replicas.Some?
    && exists s :: Among(first, h, s) && Get(o.podAnnotations, POD_SPEC_HASH) == s.podSpecHash && o.podSpec == s.podSpec
  }

  lemma HashIsOwn(s: Spec)
    ensures Get(Desired(s).podAnnotations, POD_SPEC_HASH) == s.podSpecHash && POD_SPEC_HASH in Desired(s).podAnnotations
  {
  }

  lemma PassIdentifies(first: Spec, h: seq<Event>, o: Sts, s: Spec)
    requires Identified(first, h, o) && Among(first, h, s) && TellsPodsApart(first, h)
    ensures var o' := Apply(o, Pass(s));
            o'.podSpec == s.podSpec && o'.replicas == Some(s.replicas) && Identified(first, h, o')
  {
    HashIsOwn(s);
    var o' := Apply(o, Pass(s));
    var x :| Among(first, h, x) && Get(o.podAnnotations, POD_SPEC_HASH) == x.podSpecHash && o.podSpec == x.podSpec;
    if HasChanged(Desired(s), o) {
      assert Get(o'.podAnnotations, POD_SPEC_HASH) == s.podSpecHash;
    } else {
      assert Get(o.podAnnotations, POD_SPEC_HASH) == s.podSpecHash;
    }
  }

  lemma {:induction false} AlwaysIdentified(first: Spec, h: seq<Event>, n: nat)
    requires n <= |h| && TellsPodsApart(first, h)
    requires forall v :: Foreign(PodAnnotations, POD_SPEC_HASH, v) !in h
    ensures Identified(first, h, After(first, h[..n]))
  {
    if n == 0 {
      HashIsOwn(first);
      assert Among(first, h, first);
    } else {
      AlwaysIdentified(first, h, n - 1);
      assert h[..n][..n - 1] == h[..n - 1];
      var o, e := After(first, h[..n - 1]), h[n - 1];
      assert e in h;
      match e {
        case Pass(s) => PassIdentifies(first, h, o, s);
        case Foreign(c, k, v) =>
          var x :| Among(first, h, x) && Get(o.podAnnotations, POD_SPEC_HASH) == x.podSpecHash && o.podSpec == x.podSpec;
          assert Get(Apply(o, e).podAnnotations, POD_SPEC_HASH) == x.podSpecHash;
      }
    }
  }

  /** The pods follow the spec: after every pass of every history the template holds the
      pod spec and the replicas of that pass, though only a digest is compared, provided it
      tells the pod specs of the history apart and nobody else writes it. */
  lemma PodsFollowSpec(first: Spec, h: seq<Event>, s: Spec)
    requires TellsPodsApart(first, h + [Pass(s)])
    requires forall v :: Foreign(PodAnnotations, POD_SPEC_HASH, v) !in h
    ensures After(first, h + [Pass(s)]).podSpec == s.podSpec && After(first, h + [Pass(s)]).replicas == Some(s.replicas)
  {
    var all := h + [Pass(s)];
    assert all[..|all| - 1] == h && all[..|h|] == h;
    assert Pass(s) in all;
    AlwaysIdentified(first, all, |h|);
    PassIdentifies(first, all, After(first, h), s);
  }
}
