/**
 * The spoke version (v1alpha1) of MyResource and its conversion to and from
 * the hub (v1). OldField of v1alpha1 was renamed NewField in v1; the fields
 * v1alpha1 cannot hold travel down in the conversion-data stash and are
 * restored from it on the way up.
 */
module V1alpha1 {
  import opened Wrappers
  import opened Stash
  import V1

  datatype MyResourceSpec = MyResourceSpec(name: string, replicas: V1.Int32, oldField: Option<string>)

  datatype MyResourceStatus = MyResourceStatus(ready: bool)

  const ZeroSpec := MyResourceSpec("", 0, None)
  const ZeroStatus := MyResourceStatus(false)

  /** A snapshot of a spoke object. */
  datatype MyResourceValue = MyResourceValue(meta: MetaValue, spec: MyResourceSpec, status: MyResourceStatus)

  const Zero := MyResourceValue(EmptyMeta, ZeroSpec, ZeroStatus)

  // ---------------------------------------------------------------- spec converters

  /**
   * Convert_v1alpha1_MyResourceSpec_To_v1_MyResourceSpec: `out` is the hub
   * spec before the call; NewField is written only when OldField is set.
   */
  function ConvertSpecToHub(input: MyResourceSpec, out: V1.MyResourceSpec): (r: V1.MyResourceSpec)
    ensures r.name == input.name && r.replicas == input.replicas
    ensures input.oldField.Some? ==> r.newField == input.oldField.value
    ensures input.oldField.None? ==> r.newField == out.newField
  {
    var copied := out.(name := input.name, replicas := input.replicas);
    if input.oldField.Some? then copied.(newField := input.oldField.value) else copied
  }

  /**
   * Convert_v1_MyResourceSpec_To_v1alpha1_MyResourceSpec: OldField is always
   * set, even to the empty string.
   */
  function ConvertSpecFromHub(input: V1.MyResourceSpec): (r: MyResourceSpec)
    ensures r.name == input.name && r.replicas == input.replicas
    ensures r.oldField == Some(input.newField)
  {
    MyResourceSpec(input.name, input.replicas, Some(input.newField))
  }

  /** Hub spec to spoke spec and back is the identity, whatever the hub spec held before. */
  lemma HubSpecRoundTrip(h: V1.MyResourceSpec, out: V1.MyResourceSpec)
    ensures ConvertSpecToHub(ConvertSpecFromHub(h), out) == h
  {
  }

  /**
   * Spoke spec to a fresh hub spec and back is the identity once `&""` is
   * read as nil, provided OldField is never `&""` (the fuzzer's rule).
   */
  lemma SpokeSpecRoundTrip(s: MyResourceSpec)
    requires s.oldField != Some("")
    ensures NormalizeSpec(ConvertSpecFromHub(ConvertSpecToHub(s, V1.ZeroSpec))) == s
  {
  }

  /** Without the fuzzer's rule the spoke round trip loses `&""`. */
  lemma EmptyOldFieldIsLost(s: MyResourceSpec)
    requires s.oldField == Some("")
    ensures NormalizeSpec(ConvertSpecFromHub(ConvertSpecToHub(s, V1.ZeroSpec))) != s
  {
  }

  // ---------------------------------------------------------------- generated converters

  /** Status up-conversion: Ready becomes a set pointer; Conditions are left as they were. */
  function ConvertStatusToHub(input: MyResourceStatus, out: V1.MyResourceStatus): V1.MyResourceStatus {
    out.(ready := Some(input.ready))
  }

  /** Status down-conversion: a nil Ready reads as false; Conditions have no place. */
  function ConvertStatusFromHub(input: V1.MyResourceStatus): MyResourceStatus {
    MyResourceStatus(input.ready == Some(true))
  }

  /** Convert_v1alpha1_MyResource_To_v1_MyResource, as a struct copy of the metadata. */
  function ConvertResourceToHub(input: MyResourceValue, out: V1.MyResourceValue): V1.MyResourceValue {
    V1.MyResourceValue(input.meta, ConvertSpecToHub(input.spec, out.spec), ConvertStatusToHub(input.status, out.status))
  }

  /** Convert_v1_MyResource_To_v1alpha1_MyResource, as a struct copy of the metadata. */
  function ConvertResourceFromHub(input: V1.MyResourceValue): MyResourceValue {
    MyResourceValue(input.meta, ConvertSpecFromHub(input.spec), ConvertStatusFromHub(input.status))
  }

  // ---------------------------------------------------------------- ConvertTo / ConvertFrom

  /** The error a conversion returned and both objects after it. */
  datatype Conversion = Conversion(err: Option<string>, spoke: MyResourceValue, hub: V1.MyResourceValue)

  /**
   * ConvertTo: the field conversion, then a destructive read of the stash;
   * a restored stash overrides NewField, Ready and Conditions.
   */
  function ConvertToHub(src: MyResourceValue, dst: V1.MyResourceValue): (r: Conversion)
    ensures var read := ReadStash(src.meta.annotations, V1.Unmarshal);
      && (r.err.Some? <==> read.Malformed?)
      && (r.err.Some? ==> r.err.value == read.error)
      && r.hub.meta == src.meta
      && r.hub.spec.name == src.spec.name && r.hub.spec.replicas == src.spec.replicas
      && r.spoke == src.(meta := src.meta.(annotations := AfterRead(src.meta.annotations, read)))
      && (!read.Restored? ==> r.hub == ConvertResourceToHub(src, dst))
      && (read.Restored? ==>
            && r.hub.spec.newField == read.target.spec.newField
            && r.hub.status.ready == read.target.status.ready
            && r.hub.status.conditions == read.target.status.conditions
            && DataAnnotation !in Entries(r.spoke.meta.annotations))
  {
    var converted := ConvertResourceToHub(src, dst);
    var read := ReadStash(src.meta.annotations, V1.Unmarshal);
    var spoke := src.(meta := src.meta.(annotations := AfterRead(src.meta.annotations, read)));
    match read
    case Absent => Conversion(None, spoke, converted)
    case Malformed(e) => Conversion(Some(e), spoke, converted)
    case Restored(restored) =>
      Conversion(None, spoke, converted.(
        spec := converted.spec.(newField := restored.spec.newField),
        status := converted.status.(ready := restored.status.ready, conditions := restored.status.conditions)))
  }

  /** Without a stash, ConvertTo is the plain field conversion and leaves the spoke as it was. */
  lemma ConvertToHubWithoutStash(src: MyResourceValue, dst: V1.MyResourceValue)
    requires DataAnnotation !in Entries(src.meta.annotations)
    ensures ConvertToHub(src, dst) == Conversion(None, src, ConvertResourceToHub(src, dst))
  {
    var read := ReadStash(src.meta.annotations, V1.Unmarshal);
    assert read.Absent?;
    assert src.(meta := src.meta.(annotations := AfterRead(src.meta.annotations, read))) == src;
  }

  /**
   * ConvertFrom: the field conversion, then the hub stashed in the spoke's
   * annotations; an error building the stash is returned with the converted
   * fields in place and the annotations as they were copied.
   */
  function ConvertFromHub(src: V1.MyResourceValue): (r: Conversion)
    ensures r.hub == src
    ensures r.spoke.spec == ConvertSpecFromHub(src.spec) && r.spoke.status == ConvertStatusFromHub(src.status)
    ensures r.spoke.meta == src.meta.(annotations := r.spoke.meta.annotations)
    ensures r.err.None? <==> Payload(src, V1.ToUnstructured).Success?
    ensures r.err.Some? ==> r.spoke.meta == src.meta
    ensures r.err.None? ==>
      r.spoke.meta.annotations == Some(WithStash(src.meta.annotations, Payload(src, V1.ToUnstructured).value))
  {
    var converted := ConvertResourceFromHub(src);
    match Payload(src, V1.ToUnstructured)
    case Failure(e) => Conversion(Some(e), converted, src)
    case Success(data) =>
      Conversion(None, converted.(meta := converted.meta.(annotations := Some(WithStash(converted.meta.annotations, data)))), src)
  }

  /**
   * ConvertFrom cannot fail for this hub type, and the stash it leaves on the
   * spoke decodes to the hub's spec and status.
   */
  lemma {:induction false} ConvertFromHubStashesHub(src: V1.MyResourceValue)
    ensures ConvertFromHub(src).err.None?
    ensures var a := ConvertFromHub(src).spoke.meta.annotations;
      && DataAnnotation in Entries(a)
      && V1.Unmarshal(Entries(a)[DataAnnotation]) == Success(V1.MyResourceValue(EmptyMeta, src.spec, src.status))
  {
    V1.UnmarshalPayload(src);
  }

  /** The spoke object. */
  class MyResource {
    const meta: ObjectMeta
    var spec: MyResourceSpec
    var status: MyResourceStatus

    constructor ()
      ensures fresh(meta) && Value() == Zero
    {
      meta := new ObjectMeta();
      spec, status := ZeroSpec, ZeroStatus;
    }

    function Value(): MyResourceValue
      reads this, meta
    {
      MyResourceValue(meta.Value(), spec, status)
    }

    /** Converts this spoke into the hub `dst`, restoring hub-only fields from the stash. */
    method ConvertTo(dst: V1.MyResource) returns (err: Option<string>)
      requires dst.meta != meta
      modifies dst, dst.meta, meta`annotations
      ensures var r := ConvertToHub(old(Value()), old(dst.Value()));
        err == r.err && Value() == r.spoke && dst.Value() == r.hub
    {
      dst.meta.Assign(meta.Value());
      dst.spec := ConvertSpecToHub(spec, dst.spec);
      dst.status := ConvertStatusToHub(status, dst.status);
      var ok, e, restored := UnmarshalData(meta, V1.Unmarshal);
      if e.Some? {
        return e;
      }
      if ok {
        dst.spec := dst.spec.(newField := restored.value.spec.newField);
        dst.status := dst.status.(ready := restored.value.status.ready, conditions := restored.value.status.conditions);
      }
      return None;
    }

    /** Converts the hub `src` into this spoke and stashes `src` in its annotations. */
    method ConvertFrom(src: V1.MyResource) returns (err: Option<string>)
      requires src.meta != meta
      modifies this, meta
      ensures var r := ConvertFromHub(old(src.Value()));
        err == r.err && Value() == r.spoke && src.Value() == old(src.Value())
    {
      meta.Assign(src.meta.Value());
      spec := ConvertSpecFromHub(src.spec);
      status := ConvertStatusFromHub(src.status);
      err := MarshalData(src.Value(), V1.ToUnstructured, meta);
    }
  }

  // ---------------------------------------------------------------- normalisation

  /** The test's post-round-trip hook: `&""` in OldField reads as nil. */
  function NormalizeSpec(s: MyResourceSpec): (r: MyResourceSpec)
    ensures r.oldField != Some("")
    ensures s.oldField != Some("") ==> r == s
    ensures s.oldField == Some("") ==> r == s.(oldField := None)
  {
    if s.oldField == Some("") then s.(oldField := None) else s
  }

  /** The whole hook: OldField as above, and an empty annotation map becomes nil. */
  function Normalize(v: MyResourceValue): (r: MyResourceValue)
    ensures r.spec == NormalizeSpec(v.spec) && r.status == v.status
    ensures Entries(r.meta.annotations) == Entries(v.meta.annotations)
    ensures r.meta.annotations != Some(map[])
    ensures r.meta == v.meta.(annotations := r.meta.annotations)
  {
    var meta := if |Entries(v.meta.annotations)| == 0 then v.meta.(annotations := None) else v.meta;
    v.(meta := meta, spec := NormalizeSpec(v.spec))
  }
}
