/**
 * The conversion-data stash (utilconversion.go): a hub object's content,
 * without its identity metadata, kept as JSON text under one reserved
 * annotation of another object, and a destructive read that takes it back.
 */
module Stash {
  import opened Wrappers
  import opened Json

  /** The reserved annotation key under which the stash is kept. */
  const DataAnnotation: string := "cluster.x-k8s.io/conversion-data"

  /** The entry of an object's field tree that holds its identity metadata. */
  const MetadataField: string := "metadata"

  type Annotations = Option<map<string, string>>   // None is Go's nil map

  /** The entries of an annotation map; a nil map has none. */
  function Entries(a: Annotations): map<string, string> {
    if a.None? then map[] else a.value
  }

  /** A snapshot of an object's identity metadata. */
  datatype MetaValue = MetaValue(
    name: string,
    namespace: string,
    labels: map<string, string>,
    annotations: Annotations)

  const EmptyMeta := MetaValue("", "", map[], None)

  /**
   * Identity metadata embedded in every object (ObjectMeta); it gives the
   * object the capability to read and replace its annotation map.
   */
  class ObjectMeta {
    var name: string
    var namespace: string
    var labels: map<string, string>
    var annotations: Annotations

    constructor ()
      ensures Value() == EmptyMeta
    {
      name, namespace, labels, annotations := "", "", map[], None;
    }

    function Value(): MetaValue
      reads this
    {
      MetaValue(name, namespace, labels, annotations)
    }

    /** Overwrites every field with the given snapshot (a struct copy). */
    method Assign(v: MetaValue)
      modifies this
      ensures Value() == v
    {
      name, namespace, labels, annotations := v.name, v.namespace, v.labels, v.annotations;
    }
  }

  // ---------------------------------------------------------------- store

  /** The field tree without any entry under `key` (Go's `delete` on a map). */
  function Without(u: seq<Member>, key: string): (r: seq<Member>)
    ensures forall m :: m in r <==> m in u && m.key != key
    ensures |r| <= |u|
  {
    if u == [] then []
    else if u[0].key == key then Without(u[1..], key)
    else [u[0]] + Without(u[1..], key)
  }

  /**
   * The stash payload for `src`: its field tree, as `toUnstructured` builds it,
   * with the metadata entry removed, encoded as JSON; or the error of either step.
   */
  function Payload<S>(src: S, toUnstructured: S -> Result<seq<Member>>): (r: Result<string>)
    ensures r.Success? <==>
      toUnstructured(src).Success? && Encodable(JObject(Without(toUnstructured(src).value, MetadataField)))
    ensures r.Success? ==>
      Decode(r.value) == Success(JObject(Without(toUnstructured(src).value, MetadataField)))
    ensures toUnstructured(src).Failure? ==>
      r == Failure("failed to convert source to unstructured: " + toUnstructured(src).error)
    ensures toUnstructured(src).Success? && Marshal(JObject(Without(toUnstructured(src).value, MetadataField))).Failure? ==>
      r == Failure("failed to marshal source object: " + Marshal(JObject(Without(toUnstructured(src).value, MetadataField))).error)
  {
    match toUnstructured(src)
    case Failure(e) => Failure("failed to convert source to unstructured: " + e)
    case Success(u) =>
      match Marshal(JObject(Without(u, MetadataField)))
      case Failure(e) => Failure("failed to marshal source object: " + e)
      case Success(data) => Success(data)
  }

  /** An annotation map after `data` has been written under the reserved key. */
  function WithStash(a: Annotations, data: string): (r: map<string, string>)
    ensures r.Keys == Entries(a).Keys + {DataAnnotation}
    ensures r[DataAnnotation] == data
    ensures forall k | k in Entries(a) && k != DataAnnotation :: r[k] == Entries(a)[k]
  {
    Entries(a)[DataAnnotation := data]
  }

  /**
   * MarshalData: writes the payload of `src` under the reserved key of `dst`,
   * creating the annotation map when it is nil. When a step fails the error
   * is returned and `dst` is left as it was.
   */
  method MarshalData<S>(src: S, toUnstructured: S -> Result<seq<Member>>, dst: ObjectMeta)
    returns (err: Option<string>)
    modifies dst`annotations
    ensures err.None? <==> Payload(src, toUnstructured).Success?
    ensures err.Some? ==>
      err.value == Payload(src, toUnstructured).error && dst.annotations == old(dst.annotations)
    ensures err.None? ==>
      dst.annotations == Some(WithStash(old(dst.annotations), Payload(src, toUnstructured).value))
  {
    var u := toUnstructured(src);
    if u.Failure? {
      return Some("failed to convert source to unstructured: " + u.error);
    }
    var tree := Without(u.value, MetadataField);
    var data := Marshal(JObject(tree));
    if data.Failure? {
      return Some("failed to marshal source object: " + data.error);
    }
    var annotations := dst.annotations;
    if annotations.None? {
      annotations := Some(map[]);
    }
    dst.annotations := Some(annotations.value[DataAnnotation := data.value]);
    return None;
  }

  // ---------------------------------------------------------------- restore

  /** The three outcomes of reading the stash. */
  datatype Read<T> = Absent | Malformed(error: string) | Restored(target: T)

  /**
   * What reading the stash of annotation map `a` yields, with `unmarshal`
   * decoding the payload into the caller's target type.
   */
  function ReadStash<T>(a: Annotations, unmarshal: string -> Result<T>): (r: Read<T>)
    ensures r.Absent? <==> DataAnnotation !in Entries(a)
    ensures r.Malformed? ==>
      unmarshal(Entries(a)[DataAnnotation]).Failure? &&
      r.error == "failed to unmarshal data annotation: " + unmarshal(Entries(a)[DataAnnotation]).error
    ensures r.Restored? ==> unmarshal(Entries(a)[DataAnnotation]) == Success(r.target)
  {
    if DataAnnotation !in Entries(a) then Absent
    else match unmarshal(Entries(a)[DataAnnotation])
      case Failure(e) => Malformed("failed to unmarshal data annotation: " + e)
      case Success(t) => Restored(t)
  }

  /** The annotation map left behind by a read with outcome `r`. */
  function AfterRead<T>(a: Annotations, r: Read<T>): (after: Annotations)
    ensures !r.Restored? ==> after == a
    ensures r.Restored? ==> after.Some? && after.value == Entries(a) - {DataAnnotation}
  {
    if r.Restored? then Some(Entries(a) - {DataAnnotation}) else a
  }

  /**
   * UnmarshalData: a destructive read. With the key absent it reports
   * `(false, nil)`; with a payload `unmarshal` rejects it reports the error
   * and keeps the key; otherwise it yields the decoded target and deletes the
   * key, leaving every other annotation as it was. `to` carries the decoded
   * target only on success.
   */
  method UnmarshalData<T>(from: ObjectMeta, unmarshal: string -> Result<T>)
    returns (found: bool, err: Option<string>, to: Option<T>)
    modifies from`annotations
    ensures var r := ReadStash(old(from.annotations), unmarshal);
      && found == r.Restored?
      && (err.Some? <==> r.Malformed?)
      && (err.Some? ==> err.value == r.error)
      && (to.Some? <==> r.Restored?)
      && (to.Some? ==> to.value == r.target)
      && from.annotations == AfterRead(old(from.annotations), r)
  {
    var annotations := from.annotations;
    var entries := if annotations.None? then map[] else annotations.value;
    if DataAnnotation !in entries {
      return false, None, None;
    }
    var decoded := unmarshal(entries[DataAnnotation]);
    if decoded.Failure? {
      return false, Some("failed to unmarshal data annotation: " + decoded.error), None;
    }
    from.annotations := Some(entries - {DataAnnotation});
    return true, None, Some(decoded.value);
  }

  // ---------------------------------------------------------------- laws

  /**
   * Store then restore: reading a freshly written stash with the JSON decoder
   * yields the source's field tree without its metadata, leaves exactly the
   * other annotations behind, and a second read finds nothing.
   */
  lemma StoreThenRestore<S>(src: S, toUnstructured: S -> Result<seq<Member>>, a: Annotations)
    requires Payload(src, toUnstructured).Success?
    ensures var stored := Some(WithStash(a, Payload(src, toUnstructured).value));
      var r := ReadStash(stored, Decode);
      && r == Restored(JObject(Without(toUnstructured(src).value, MetadataField)))
      && AfterRead(stored, r) == Some(Entries(a) - {DataAnnotation})
      && ReadStash(AfterRead(stored, r), Decode).Absent?
  {
    var data := Payload(src, toUnstructured).value;
    var stored := Some(WithStash(a, data));
    assert Entries(stored) - {DataAnnotation} == Entries(a) - {DataAnnotation};
  }

  /** The stored tree never holds a metadata entry, whatever the source. */
  lemma PayloadHasNoMetadata<S>(src: S, toUnstructured: S -> Result<seq<Member>>)
    requires Payload(src, toUnstructured).Success?
    ensures Decode(Payload(src, toUnstructured).value).Success?
    ensures Decode(Payload(src, toUnstructured).value).value.JObject?
    ensures forall m | m in Decode(Payload(src, toUnstructured).value).value.members :: m.key != MetadataField
  {
  }

  /** Reading leaves every annotation other than the reserved one untouched. */
  lemma ReadKeepsOtherAnnotations<T>(a: Annotations, unmarshal: string -> Result<T>, k: string)
    requires k != DataAnnotation
    ensures var after := AfterRead(a, ReadStash(a, unmarshal));
      (k in Entries(after) <==> k in Entries(a)) &&
      (k in Entries(a) ==> Entries(after)[k] == Entries(a)[k])
  {
  }

  /**
   * A stash that is not JSON is reported as an error with the wrapped
   * decoder message, nothing is restored, and the annotation stays.
   */
  lemma InvalidPayloadIsReported()
    ensures var a := Some(map[DataAnnotation := "invalid-json"]);
      var r := ReadStash(a, Decode);
      && r == Malformed("failed to unmarshal data annotation: " + Decode("invalid-json").error)
      && AfterRead(a, r) == a
  {
    DecodeRejectsBareWord();
  }
}
