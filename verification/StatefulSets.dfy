/** The broker StatefulSet: what is built, how an update is merged, and the check
    that decides whether an update is due. */
module StatefulSets {
  import opened Text
  import opened Labels

  const APPLIED_LABELS := "mko.gtrfc.com/applied-pod-labels"
  const APPLIED_ANNOTATIONS := "mko.gtrfc.com/applied-pod-annotations"

  /** What a Mosquitto and the operator's options decide about its StatefulSet. */
  datatype Spec = Spec(name: string, version: string, replicas: int, podLabels: Map, podAnnotations: Map,
                       podSpec: string, podSpecHash: string, configHash: string)

  datatype Sts = Sts(labels: Map, annotations: Map, replicas: Option<int>,
                     podLabels: Map, podAnnotations: Map, podSpec: string)

  /** BaseLabels. */
  function BaseLabels(s: Spec): Map {
    map["app.kubernetes.io/name" := "mosquitto",
        "app.kubernetes.io/instance" := s.name,
        "app.kubernetes.io/managed-by" := "mosquitto-operator",
        "app.kubernetes.io/component" := "broker",
        "app.kubernetes.io/version" := s.version]
  }

  function OwnAnnotations(s: Spec): Map {
    map["mko.gtrfc.com/pod-spec-hash" := s.podSpecHash,
        "mko.gtrfc.com/config-hash" := s.configHash,
        "kubectl.kubernetes.io/default-container" := "mosquitto"]
  }

  /** BuildStatefulSet, as far as an update looks at it. */
  ghost function Desired(s: Spec): Sts {
    Sts(BaseLabels(s),
        map[APPLIED_LABELS := JoinedKeys(s.podLabels), APPLIED_ANNOTATIONS := JoinedKeys(s.podAnnotations)],
        Some(s.replicas),
        s.podLabels + BaseLabels(s),
        s.podAnnotations + OwnAnnotations(s),
        s.podSpec)
  }

  /** StatefulSetHasChanged. */
  predicate HasChanged(desired: Sts, current: Sts) {
    || (desired.replicas.Some? && current.replicas.Some? && desired.replicas.value != current.replicas.value)
    || EntriesMissing(desired.labels, current.labels)
    || EntriesMissing(desired.annotations, current.annotations)
    || EntriesMissing(desired.podLabels, current.podLabels)
    || EntriesMissing(desired.podAnnotations, current.podAnnotations)
  }

  /** The keys of a record that the desired record no longer lists. */
  function Dropped(current: Sts, desired: Sts, record: string): set<string> {
    set k | k in Removed(Get(current.annotations, record), Get(desired.annotations, record))
  }

  /** MergeStatefulSet, as a function of the two objects. */
  function Merged(current: Sts, desired: Sts): Sts {
    Sts(current.labels + desired.labels,
        current.annotations + desired.annotations,
        desired.replicas,
        (current.podLabels - Dropped(current, desired, APPLIED_LABELS)) + desired.podLabels,
        (current.podAnnotations - Dropped(current, desired, APPLIED_ANNOTATIONS)) + desired.podAnnotations,
        desired.podSpec)
  }

  /** A live object. */
  class StatefulSet {
    var labels: Map
    var annotations: Map
    var replicas: Option<int>
    var podLabels: Map
    var podAnnotations: Map
    var podSpec: string

    function View(): Sts
      reads this
    {
      Sts(labels, annotations, replicas, podLabels, podAnnotations, podSpec)
    }

    /** BuildStatefulSet. */
    constructor Build(s: Spec)
      ensures View() == Desired(s)
    {
      var appliedLabels := JoinKeys(s.podLabels);
      var appliedAnnotations := JoinKeys(s.podAnnotations);
      var templateLabels := MergeLabels(s.podLabels, BaseLabels(s));
      var templateAnnotations := MergeLabels(s.podAnnotations, OwnAnnotations(s));
      labels := BaseLabels(s);
      annotations := map[APPLIED_LABELS := appliedLabels, APPLIED_ANNOTATIONS := appliedAnnotations];
      replicas := Some(s.replicas);
      podLabels, podAnnotations, podSpec := templateLabels, templateAnnotations, s.podSpec;
    }

    /** MergeStatefulSet, with this as the live object. */
    method Merge(desired: StatefulSet)
      modifies this
      ensures View() == Merged(old(View()), old(desired.View()))
    {
      var templateLabels, templateAnnotations, templateSpec :=
        desired.podLabels, desired.podAnnotations, desired.podSpec;
      var gone := RemovedKeys(Get(annotations, APPLIED_LABELS), Get(desired.annotations, APPLIED_LABELS));
      var kept := WithoutKeys(podLabels, gone);
      templateLabels := MergeLabels(kept, templateLabels);
      gone := RemovedKeys(Get(annotations, APPLIED_ANNOTATIONS), Get(desired.annotations, APPLIED_ANNOTATIONS));
      kept := WithoutKeys(podAnnotations, gone);
      templateAnnotations := MergeLabels(kept, templateAnnotations);
      var merged := MergeLabels(labels, desired.labels);
      labels := merged;
      merged := MergeLabels(annotations, desired.annotations);
      annotations := merged;
      replicas := desired.replicas;
      podLabels, podAnnotations, podSpec := templateLabels, templateAnnotations, templateSpec;
    }
  }

  // -------------------------------------------------- the check agrees with merge

  /** After a merge the check finds nothing to do for the same desired object. */
  lemma MergeSettles(current: Sts, desired: Sts)
    ensures !HasChanged(desired, Merged(current, desired))
  {
  }

  /** b reads like a, absent as empty, and has lost none of its keys. */
  ghost predicate ReadsLike(a: Map, b: Map) {
    a.Keys <= b.Keys && forall k :: Get(b, k) == Get(a, k)
  }

  lemma NothingDropped(current: Sts, desired: Sts, record: string)
    requires Get(current.annotations, record) == Get(desired.annotations, record)
    ensures Dropped(current, desired, record) == {}
  {
    var line := Get(current.annotations, record);
    NotInMembers(Split(line, ','), Split(line, ','));
  }

  lemma OverlayReadsLike(base: Map, overlay: Map)
    requires !EntriesMissing(overlay, base)
    ensures ReadsLike(base, base + overlay)
  {
  }

  /** An update leaves the desired record behind, whether it merges or not. */
  lemma RecordSettles(current: Sts, desired: Sts, record: string)
    requires record in desired.annotations
    ensures Get(Merged(current, desired).annotations, record) == desired.annotations[record]
    ensures !EntriesMissing(desired.annotations, current.annotations) ==>
              Get(current.annotations, record) == desired.annotations[record]
  {
  }

  /** Whenever the check finds nothing to do, a merge would change no label and no
      annotation and remove none. */
  lemma QuietCheckMeansQuietMerge(desired: Sts, current: Sts)
    requires APPLIED_LABELS in desired.annotations && APPLIED_ANNOTATIONS in desired.annotations
    requires !HasChanged(desired, current)
    ensures var merged := Merged(current, desired);
            && ReadsLike(current.labels, merged.labels)
            && ReadsLike(current.annotations, merged.annotations)
            && ReadsLike(current.podLabels, merged.podLabels)
            && ReadsLike(current.podAnnotations, merged.podAnnotations)
            && (current.replicas.Some? && desired.replicas.Some? ==> merged.replicas == current.replicas)
  {
    RecordSettles(current, desired, APPLIED_LABELS);
    RecordSettles(current, desired, APPLIED_ANNOTATIONS);
    NothingDropped(current, desired, APPLIED_LABELS);
    NothingDropped(current, desired, APPLIED_ANNOTATIONS);
    assert current.podLabels - {} == current.podLabels;
    assert current.podAnnotations - {} == current.podAnnotations;
    OverlayReadsLike(current.labels, desired.labels);
    OverlayReadsLike(current.annotations, desired.annotations);
    OverlayReadsLike(current.podLabels, desired.podLabels);
    OverlayReadsLike(current.podAnnotations, desired.podAnnotations);
  }
}
