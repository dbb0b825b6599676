/**
 * The two round trips FuzzTestFunc checks for the example's v1alpha1 spoke
 * and v1 hub, stated for every input instead of for random samples:
 * spoke-hub-spoke, with the stash cleanup and the example's normalisation
 * hook applied to the result, and hub-spoke-hub.
 */
module RoundTrip {
  import opened Wrappers
  import opened Stash
  import V1
  import V1alpha1

  /**
   * The harness's cleanup: delete the reserved key from the spoke's
   * annotations (a delete on a nil map does nothing).
   */
  function CleanupStash(v: V1alpha1.MyResourceValue): (r: V1alpha1.MyResourceValue)
    ensures Entries(r.meta.annotations) == Entries(v.meta.annotations) - {DataAnnotation}
    ensures r.meta.annotations.None? <==> v.meta.annotations.None?
    ensures r == v.(meta := v.meta.(annotations := r.meta.annotations))
  {
    if v.meta.annotations.None? then v
    else v.(meta := v.meta.(annotations := Some(v.meta.annotations.value - {DataAnnotation})))
  }

  /** Semantic equality of identity metadata: a nil and an empty annotation map are equal. */
  predicate SameMeta(a: MetaValue, b: MetaValue) {
    && a.name == b.name && a.namespace == b.namespace && a.labels == b.labels
    && Entries(a.annotations) == Entries(b.annotations)
  }

  /** Semantic equality of two spoke objects. */
  predicate SameSpoke(a: V1alpha1.MyResourceValue, b: V1alpha1.MyResourceValue) {
    SameMeta(a.meta, b.meta) && a.spec == b.spec && a.status == b.status
  }

  /**
   * Spoke-hub-spoke: a spoke whose OldField is not `&""` and which carries no
   * stash converts into an empty hub and back into an empty spoke; both
   * conversions succeed, the first leaves the spoke as it was, and after the
   * cleanup and the hook the result equals the original.
   */
  lemma {:induction false} SpokeHubSpoke(before: V1alpha1.MyResourceValue)
    requires before.spec.oldField != Some("")
    requires DataAnnotation !in Entries(before.meta.annotations)
    ensures var up := V1alpha1.ConvertToHub(before, V1.Zero);
      var down := V1alpha1.ConvertFromHub(up.hub);
      && up.err.None? && up.spoke == before
      && down.err.None?
      && SameSpoke(V1alpha1.Normalize(CleanupStash(down.spoke)), before)
  {
    V1alpha1.ConvertToHubWithoutStash(before, V1.Zero);
    var hub := V1alpha1.ConvertResourceToHub(before, V1.Zero);
    V1alpha1.ConvertFromHubStashesHub(hub);
    DownFromPlainHub(before, hub);
  }

  /** The spoke ConvertFrom builds from the plain up-conversion of `before`, once cleaned and normalised. */
  lemma DownFromPlainHub(before: V1alpha1.MyResourceValue, hub: V1.MyResourceValue)
    requires before.spec.oldField != Some("")
    requires DataAnnotation !in Entries(before.meta.annotations)
    requires hub == V1alpha1.ConvertResourceToHub(before, V1.Zero)
    requires V1alpha1.ConvertFromHub(hub).err.None?
    ensures SameSpoke(V1alpha1.Normalize(CleanupStash(V1alpha1.ConvertFromHub(hub).spoke)), before)
  {
    var down := V1alpha1.ConvertFromHub(hub).spoke;
    V1alpha1.SpokeSpecRoundTrip(before.spec);
    assert down.spec == V1alpha1.ConvertSpecFromHub(V1alpha1.ConvertSpecToHub(before.spec, V1.ZeroSpec));
    assert down.status == before.status;
    var data := Payload(hub, V1.ToUnstructured).value;
    assert down.meta.annotations == Some(WithStash(before.meta.annotations, data));
    FreshStashCleanedUp(before.meta.annotations, data);
  }

  /** Deleting a stash just written to a map that had none gives back the map's entries. */
  lemma FreshStashCleanedUp(a: Annotations, data: string)
    requires DataAnnotation !in Entries(a)
    ensures Entries(Some(WithStash(a, data))) - {DataAnnotation} == Entries(a)
  {
  }

  /**
   * Hub-spoke-hub: any hub converts into an empty spoke and back into an empty
   * hub; both conversions succeed and the result has the hub's identity,
   * spec and status exactly (Conditions and a nil Ready included), and its
   * annotations apart from the reserved key. The spoke ends without a stash.
   */
  lemma {:induction false} HubSpokeHub(before: V1.MyResourceValue)
    ensures var down := V1alpha1.ConvertFromHub(before);
      var up := V1alpha1.ConvertToHub(down.spoke, V1.Zero);
      && down.err.None? && up.err.None?
      && up.hub.spec == before.spec && up.hub.status == before.status
      && up.hub.meta.name == before.meta.name && up.hub.meta.namespace == before.meta.namespace
      && up.hub.meta.labels == before.meta.labels
      && Entries(up.hub.meta.annotations) - {DataAnnotation} == Entries(before.meta.annotations) - {DataAnnotation}
      && DataAnnotation !in Entries(up.spoke.meta.annotations)
  {
    V1alpha1.ConvertFromHubStashesHub(before);
    var down := V1alpha1.ConvertFromHub(before);
    var a := down.spoke.meta.annotations;
    var read := ReadStash(a, V1.Unmarshal);
    assert read == Restored(V1.MyResourceValue(EmptyMeta, before.spec, before.status));
    var up := V1alpha1.ConvertToHub(down.spoke, V1.Zero);
    V1alpha1.HubSpecRoundTrip(before.spec, V1.ZeroSpec);
    assert up.hub.spec == before.spec;
    assert up.hub.status == before.status;
    assert Entries(a) - {DataAnnotation} == Entries(before.meta.annotations) - {DataAnnotation};
  }
}
