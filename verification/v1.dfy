/**
 * The hub version (v1) of MyResource, and its JSON shape as its struct tags
 * give it: the field tree the unstructured converter builds from it, and the
 * typed decoding of such a tree back into a MyResource.
 */
module V1 {
  import opened Wrappers
  import opened Json
  import opened Stash

  type Int32 = i: int | -0x8000_0000 <= i < 0x8000_0000
  type Int64 = i: int | -0x8000_0000_0000_0000 <= i < 0x8000_0000_0000_0000

  /** One observation of the resource's state (metav1.Condition). */
  datatype Condition = Condition(
    conditionType: string,
    status: string,
    observedGeneration: Int64,
    lastTransitionTime: string,   // RFC 3339 text; "" is the zero time
    reason: string,
    message: string)

  const ZeroCondition := Condition("", "", 0, "", "", "")

  datatype MyResourceSpec = MyResourceSpec(name: string, replicas: Int32, newField: string)

  datatype MyResourceStatus = MyResourceStatus(ready: Option<bool>, conditions: seq<Condition>)

  const ZeroSpec := MyResourceSpec("", 0, "")
  const ZeroStatus := MyResourceStatus(None, [])

  /** A snapshot of a hub object. */
  datatype MyResourceValue = MyResourceValue(meta: MetaValue, spec: MyResourceSpec, status: MyResourceStatus)

  const Zero := MyResourceValue(EmptyMeta, ZeroSpec, ZeroStatus)

  /** The hub object; conversions update its fields in place. */
  class MyResource {
    const meta: ObjectMeta
    var spec: MyResourceSpec
    var status: MyResourceStatus

    constructor ()
      ensures fresh(meta) && Value() == Zero
    {
      meta := new ObjectMeta();
      spec, status := ZeroSpec, ZeroStatus;
    }

    function Value(): MyResourceValue
      reads this, meta
    {
      MyResourceValue(meta.Value(), spec, status)
    }
  }

  // ---------------------------------------------------------------- field tree

  function MetaTree(m: MetaValue): Json {
    JObject(
      (if m.name == "" then [] else [Member("name", JString(m.name))]) +
      (if m.namespace == "" then [] else [Member("namespace", JString(m.namespace))]))
  }

  function SpecTree(s: MyResourceSpec): Json {
    JObject(
      [Member("name", JString(s.name)), Member("replicas", JInt(s.replicas))] +
      (if s.newField == "" then [] else [Member("newField", JString(s.newField))]))
  }

  function ConditionTree(c: Condition): Json {
    JObject(
      [Member("type", JString(c.conditionType)), Member("status", JString(c.status))] +
      (if c.observedGeneration == 0 then [] else [Member("observedGeneration", JInt(c.observedGeneration))]) +
      [Member("lastTransitionTime", if c.lastTransitionTime == "" then JNull else JString(c.lastTransitionTime)),
       Member("reason", JString(c.reason)),
       Member("message", JString(c.message))])
  }

  function ConditionTrees(cs: seq<Condition>): (r: seq<Json>)
    ensures |r| == |cs|
  {
    if cs == [] then [] else [ConditionTree(cs[0])] + ConditionTrees(cs[1..])
  }

  function StatusTree(s: MyResourceStatus): Json {
    JObject(
      [Member("ready", if s.ready.None? then JNull else JBool(s.ready.value))] +
      (if s.conditions == [] then [] else [Member("conditions", JArray(ConditionTrees(s.conditions)))]))
  }

  /** The unstructured form of a hub object; it never fails for this type. */
  function ToUnstructured(v: MyResourceValue): Result<seq<Member>> {
    Success([Member(MetadataField, MetaTree(v.meta)), Member("spec", SpecTree(v.spec)), Member("status", StatusTree(v.status))])
  }

  // ---------------------------------------------------------------- typed decoding

  /** The value of the last member named `key`: a later duplicate replaces an earlier one whole. */
  function Field(ms: seq<Member>, key: string): Option<Json> {
    if ms == [] then None
    else
      var later := Field(ms[1..], key);
      if later.Some? then later
      else if ms[0].key == key then Some(ms[0].value)
      else None
  }

  /** Absent and null leave the zero value in place. */
  function DecodeString(f: Option<Json>): Result<string> {
    match f
    case None => Success("")
    case Some(JNull) => Success("")
    case Some(JString(s)) => Success(s)
    case Some(_) => Failure("cannot unmarshal into Go value of type string")
  }

  /** An integer field whose Go type holds `lo` to `hi - 1`; other numbers are rejected. */
  function DecodeInteger(f: Option<Json>, lo: int, hi: int): (r: Result<int>)
    ensures r.Success? && f.Some? && f.value.JInt? ==> r.value == f.value.i
    ensures r.Success? ==> r.value == 0 || lo <= r.value < hi
    ensures r.Success? <==> f.None? || f == Some(JNull) || (f.value.JInt? && lo <= f.value.i < hi)
    ensures r.Success? && (f.None? || f == Some(JNull)) ==> r.value == 0
  {
    match f
    case None => Success(0)
    case Some(JNull) => Success(0)
    case Some(JInt(i)) =>
      if lo <= i < hi then Success(i)
      else Failure("cannot unmarshal number into Go value of an integer type")
    case Some(_) => Failure("cannot unmarshal into Go value of an integer type")
  }

  const MinInt32 := -0x8000_0000
  const MaxInt32Excl := 0x8000_0000
  const MinInt64 := -0x8000_0000_0000_0000
  const MaxInt64Excl := 0x8000_0000_0000_0000

  /** A `*bool`: null and absent are nil. */
  function DecodeOptionalBool(f: Option<Json>): Result<Option<bool>> {
    match f
    case None => Success(None)
    case Some(JNull) => Success(None)
    case Some(JBool(b)) => Success(Some(b))
    case Some(_) => Failure("cannot unmarshal into Go value of type bool")
  }

  function DecodeSpec(f: Option<Json>): Result<MyResourceSpec> {
    match f
    case None => Success(ZeroSpec)
    case Some(JNull) => Success(ZeroSpec)
    case Some(JObject(ms)) => DecodeSpecFields(Field(ms, "name"), Field(ms, "replicas"), Field(ms, "newField"))
    case Some(_) => Failure("cannot unmarshal into Go struct field MyResource.spec")
  }

  /** A spec from the values found under its three keys. */
  function DecodeSpecFields(name: Option<Json>, replicas: Option<Json>, newField: Option<Json>): Result<MyResourceSpec> {
    var name :- DecodeString(name);
    var replicas :- DecodeInteger(replicas, MinInt32, MaxInt32Excl);
    var newField :- DecodeString(newField);
    Success(MyResourceSpec(name, replicas, newField))
  }

  /** One element of a `[]Condition`; a null element is the zero Condition. */
  function DecodeCondition(j: Json): Result<Condition> {
    match j
    case JNull => Success(ZeroCondition)
    case JObject(ms) =>
      DecodeConditionFields(Field(ms, "type"), Field(ms, "status"), Field(ms, "observedGeneration"),
        Field(ms, "lastTransitionTime"), Field(ms, "reason"), Field(ms, "message"))
    case _ => Failure("cannot unmarshal into Go value of type v1.Condition")
  }

  /** A condition from the values found under its six keys. */
  function DecodeConditionFields(conditionType: Option<Json>, status: Option<Json>, observedGeneration: Option<Json>,
    lastTransitionTime: Option<Json>, reason: Option<Json>, message: Option<Json>): Result<Condition>
  {
    var conditionType :- DecodeString(conditionType);
    var status :- DecodeString(status);
    var observedGeneration :- DecodeInteger(observedGeneration, MinInt64, MaxInt64Excl);
    var lastTransitionTime :- DecodeString(lastTransitionTime);
    var reason :- DecodeString(reason);
    var message :- DecodeString(message);
    Success(Condition(conditionType, status, observedGeneration, lastTransitionTime, reason, message))
  }

  function DecodeConditions(items: seq<Json>): (r: Result<seq<Condition>>)
    ensures r.Success? ==> |r.value| == |items|
  {
    if items == [] then Success([])
    else
      var c :- DecodeCondition(items[0]);
      var cs :- DecodeConditions(items[1..]);
      Success([c] + cs)
  }

  function DecodeStatus(f: Option<Json>): Result<MyResourceStatus> {
    match f
    case None => Success(ZeroStatus)
    case Some(JNull) => Success(ZeroStatus)
    case Some(JObject(ms)) => DecodeStatusFields(Field(ms, "ready"), Field(ms, "conditions"))
    case Some(_) => Failure("cannot unmarshal into Go struct field MyResource.status")
  }

  /** A status from the values found under its two keys. */
  function DecodeStatusFields(ready: Option<Json>, conditions: Option<Json>): Result<MyResourceStatus> {
    var ready :- DecodeOptionalBool(ready);
    var conditions :- DecodeConditionList(conditions);
    Success(MyResourceStatus(ready, conditions))
  }

  /** A `[]Condition`: absent and null are empty. */
  function DecodeConditionList(f: Option<Json>): Result<seq<Condition>> {
    match f
    case None => Success([])
    case Some(JNull) => Success([])
    case Some(JArray(items)) => DecodeConditions(items)
    case Some(_) => Failure("cannot unmarshal into Go struct field MyResourceStatus.status.conditions")
  }

  /**
   * Decoding a tree into a fresh MyResource: spec and status are read, other
   * members are skipped, and the metadata stays empty.
   */
  function FromTree(j: Json): Result<MyResourceValue> {
    match j
    case JNull => Success(Zero)
    case JObject(ms) =>
      var spec :- DecodeSpec(Field(ms, "spec"));
      var status :- DecodeStatus(Field(ms, "status"));
      Success(MyResourceValue(EmptyMeta, spec, status))
    case _ => Failure("cannot unmarshal into Go value of type v1.MyResource")
  }

  /** json.Unmarshal of `data` into a fresh MyResource. */
  function Unmarshal(data: string): Result<MyResourceValue> {
    var tree :- Decode(data);
    FromTree(tree)
  }

  // ---------------------------------------------------------------- laws

  /** A null element of the Conditions list decodes to a zero Condition rather than an error. */
  lemma NullConditionIsZero(rest: seq<Json>)
    requires DecodeConditions(rest).Success?
    ensures DecodeConditionList(Some(JArray([JNull] + rest))) == Success([ZeroCondition] + DecodeConditions(rest).value)
  {
    var items := [JNull] + rest;
    assert items[0] == JNull && items[1..] == rest;
    DecodeConditionsStep(items, ZeroCondition, DecodeConditions(rest).value);
    DecodeConditionArray(items);
  }

  lemma {:induction false} ConditionTreesEncodable(cs: seq<Condition>)
    ensures forall i | 0 <= i < |cs| :: Encodable(ConditionTrees(cs)[i])
  {
    if cs != [] {
      ConditionTreesEncodable(cs[1..]);
      forall i | 0 <= i < |cs| ensures Encodable(ConditionTrees(cs)[i]) {
        if i > 0 {
          assert ConditionTrees(cs)[i] == ConditionTrees(cs[1..])[i - 1];
        }
      }
    }
  }

  /** A key carried by exactly one member is looked up to that member's value. */
  lemma {:induction false} FieldOfUnique(ms: seq<Member>, key: string, i: nat)
    requires i < |ms| && ms[i].key == key
    requires forall j | 0 <= j < |ms| && j != i :: ms[j].key != key
    ensures Field(ms, key) == Some(ms[i].value)
  {
    if i == 0 {
      FieldOfMissing(ms[1..], key);
    } else {
      FieldOfUnique(ms[1..], key, i - 1);
    }
  }

  /** A key no member carries is absent. */
  lemma {:induction false} FieldOfMissing(ms: seq<Member>, key: string)
    requires forall j | 0 <= j < |ms| :: ms[j].key != key
    ensures Field(ms, key) == None
  {
    if ms != [] {
      FieldOfMissing(ms[1..], key);
    }
  }

  lemma DecodeConditionTree(c: Condition)
    ensures DecodeCondition(ConditionTree(c)) == Success(c)
  {
    var ms := ConditionTree(c).members;
    if c.observedGeneration == 0 {
      ConditionFieldsWithoutGeneration(c, ms);
    } else {
      ConditionFieldsWithGeneration(c, ms);
    }
    DecodeConditionMembers(ms, c);
  }

  /**
   * Proof aid for the field lookups below: two pairs of condition keys have
   * equal length, so the solver is shown that they differ at their first letter.
   */
  lemma ConditionKeysDiffer()
    ensures "status" != "reason" && "observedGeneration" != "lastTransitionTime"
  {
    assert "status"[0] != "reason"[0];
    assert "observedGeneration"[0] != "lastTransitionTime"[0];
  }

  lemma ConditionFieldsWithoutGeneration(c: Condition, ms: seq<Member>)
    requires c.observedGeneration == 0 && ms == ConditionTree(c).members
    ensures Field(ms, "type") == Some(JString(c.conditionType))
    ensures Field(ms, "status") == Some(JString(c.status))
    ensures Field(ms, "observedGeneration") == None
    ensures Field(ms, "lastTransitionTime") == Some(if c.lastTransitionTime == "" then JNull else JString(c.lastTransitionTime))
    ensures Field(ms, "reason") == Some(JString(c.reason))
    ensures Field(ms, "message") == Some(JString(c.message))
  {
    var time := if c.lastTransitionTime == "" then JNull else JString(c.lastTransitionTime);
    assert ms == [Member("type", JString(c.conditionType)), Member("status", JString(c.status)),
      Member("lastTransitionTime", time), Member("reason", JString(c.reason)), Member("message", JString(c.message))];
    FieldsOfFiveMembers(JString(c.conditionType), JString(c.status), time, JString(c.reason), JString(c.message));
  }

  lemma ConditionFieldsWithGeneration(c: Condition, ms: seq<Member>)
    requires c.observedGeneration != 0 && ms == ConditionTree(c).members
    ensures Field(ms, "type") == Some(JString(c.conditionType))
    ensures Field(ms, "status") == Some(JString(c.status))
    ensures Field(ms, "observedGeneration") == Some(JInt(c.observedGeneration))
    ensures Field(ms, "lastTransitionTime") == Some(if c.lastTransitionTime == "" then JNull else JString(c.lastTransitionTime))
    ensures Field(ms, "reason") == Some(JString(c.reason))
    ensures Field(ms, "message") == Some(JString(c.message))
  {
    var time := if c.lastTransitionTime == "" then JNull else JString(c.lastTransitionTime);
    assert ms == [Member("type", JString(c.conditionType)), Member("status", JString(c.status)),
      Member("observedGeneration", JInt(c.observedGeneration)),
      Member("lastTransitionTime", time), Member("reason", JString(c.reason)), Member("message", JString(c.message))];
    FieldsOfSixMembers(JString(c.conditionType), JString(c.status), JInt(c.observedGeneration), time,
      JString(c.reason), JString(c.message));
  }

  /** Lookups in the member list of a condition without observedGeneration. */
  lemma FieldsOfFiveMembers(t: Json, st: Json, ltt: Json, r: Json, m: Json)
    ensures var ms := [Member("type", t), Member("status", st), Member("lastTransitionTime", ltt),
        Member("reason", r), Member("message", m)];
      && Field(ms, "type") == Some(t) && Field(ms, "status") == Some(st)
      && Field(ms, "observedGeneration") == None && Field(ms, "lastTransitionTime") == Some(ltt)
      && Field(ms, "reason") == Some(r) && Field(ms, "message") == Some(m)
  {
    ConditionKeysDiffer();
    var ms := [Member("type", t), Member("status", st), Member("lastTransitionTime", ltt),
      Member("reason", r), Member("message", m)];
    FieldOfUnique(ms, "type", 0);
    FieldOfUnique(ms, "status", 1);
    FieldOfMissing(ms, "observedGeneration");
    FieldOfUnique(ms, "lastTransitionTime", 2);
    FieldOfUnique(ms, "reason", 3);
    FieldOfUnique(ms, "message", 4);
  }

  /** Lookups in the member list of a condition with observedGeneration. */
  lemma FieldsOfSixMembers(t: Json, st: Json, og: Json, ltt: Json, r: Json, m: Json)
    ensures var ms := [Member("type", t), Member("status", st), Member("observedGeneration", og),
        Member("lastTransitionTime", ltt), Member("reason", r), Member("message", m)];
      && Field(ms, "type") == Some(t) && Field(ms, "status") == Some(st)
      && Field(ms, "observedGeneration") == Some(og) && Field(ms, "lastTransitionTime") == Some(ltt)
      && Field(ms, "reason") == Some(r) && Field(ms, "message") == Some(m)
  {
    ConditionKeysDiffer();
    var ms := [Member("type", t), Member("status", st), Member("observedGeneration", og),
      Member("lastTransitionTime", ltt), Member("reason", r), Member("message", m)];
    FieldOfUnique(ms, "type", 0);
    FieldOfUnique(ms, "status", 1);
    FieldOfUnique(ms, "observedGeneration", 2);
    FieldOfUnique(ms, "lastTransitionTime", 3);
    FieldOfUnique(ms, "reason", 4);
    FieldOfUnique(ms, "message", 5);
  }

  lemma DecodeConditionMembers(ms: seq<Member>, c: Condition)
    requires Field(ms, "type") == Some(JString(c.conditionType))
    requires Field(ms, "status") == Some(JString(c.status))
    requires Field(ms, "observedGeneration") == (if c.observedGeneration == 0 then None else Some(JInt(c.observedGeneration)))
    requires Field(ms, "lastTransitionTime") == Some(if c.lastTransitionTime == "" then JNull else JString(c.lastTransitionTime))
    requires Field(ms, "reason") == Some(JString(c.reason))
    requires Field(ms, "message") == Some(JString(c.message))
    ensures DecodeCondition(JObject(ms)) == Success(c)
  {
    DecodeConditionFieldsOf(c);
  }

  lemma DecodeConditionFieldsOf(c: Condition)
    ensures DecodeConditionFields(Some(JString(c.conditionType)), Some(JString(c.status)),
      if c.observedGeneration == 0 then None else Some(JInt(c.observedGeneration)),
      Some(if c.lastTransitionTime == "" then JNull else JString(c.lastTransitionTime)),
      Some(JString(c.reason)), Some(JString(c.message))) == Success(c)
  {
  }

  lemma {:induction false} DecodeConditionTrees(cs: seq<Condition>)
    ensures DecodeConditions(ConditionTrees(cs)) == Success(cs)
  {
    if cs != [] {
      DecodeConditionTree(cs[0]);
      DecodeConditionTrees(cs[1..]);
      assert cs == [cs[0]] + cs[1..];
      DecodeConditionTreesStep(cs[0], cs[1..]);
    }
  }

  lemma DecodeConditionTreesStep(c: Condition, rest: seq<Condition>)
    requires DecodeCondition(ConditionTree(c)) == Success(c)
    requires DecodeConditions(ConditionTrees(rest)) == Success(rest)
    ensures DecodeConditions(ConditionTrees([c] + rest)) == Success([c] + rest)
  {
    var trees := ConditionTrees([c] + rest);
    assert ([c] + rest)[1..] == rest;
    assert trees == [ConditionTree(c)] + ConditionTrees(rest);
    DecodeConditionsStep(trees, c, rest);
  }

  lemma DecodeConditionsStep(items: seq<Json>, c: Condition, cs: seq<Condition>)
    requires items != [] && DecodeCondition(items[0]) == Success(c) && DecodeConditions(items[1..]) == Success(cs)
    ensures DecodeConditions(items) == Success([c] + cs)
  {
  }

  lemma DecodeSpecTree(s: MyResourceSpec)
    ensures DecodeSpec(Some(SpecTree(s))) == Success(s)
  {
    var ms := SpecTree(s).members;
    SpecFieldsFound(s, ms);
    assert DecodeString(Field(ms, "name")) == Success(s.name);
    assert DecodeInteger(Field(ms, "replicas"), MinInt32, MaxInt32Excl) == Success(s.replicas);
    assert DecodeString(Field(ms, "newField")) == Success(s.newField);
    DecodeSpecMembers(ms, s);
  }

  lemma DecodeSpecMembers(ms: seq<Member>, s: MyResourceSpec)
    requires DecodeString(Field(ms, "name")) == Success(s.name)
    requires DecodeInteger(Field(ms, "replicas"), MinInt32, MaxInt32Excl) == Success(s.replicas)
    requires DecodeString(Field(ms, "newField")) == Success(s.newField)
    ensures DecodeSpec(Some(JObject(ms))) == Success(s)
  {
    DecodeSpecFieldsOf(Field(ms, "name"), Field(ms, "replicas"), Field(ms, "newField"), s);
  }

  lemma SpecFieldsFound(s: MyResourceSpec, ms: seq<Member>)
    requires ms == SpecTree(s).members
    ensures Field(ms, "name") == Some(JString(s.name))
    ensures Field(ms, "replicas") == Some(JInt(s.replicas))
    ensures Field(ms, "newField") == if s.newField == "" then None else Some(JString(s.newField))
  {
    FieldOfUnique(ms, "name", 0);
    FieldOfUnique(ms, "replicas", 1);
    if s.newField == "" {
      FieldOfMissing(ms, "newField");
    } else {
      FieldOfUnique(ms, "newField", 2);
    }
  }

  lemma DecodeSpecFieldsOf(name: Option<Json>, replicas: Option<Json>, newField: Option<Json>, s: MyResourceSpec)
    requires DecodeString(name) == Success(s.name)
    requires DecodeInteger(replicas, MinInt32, MaxInt32Excl) == Success(s.replicas)
    requires DecodeString(newField) == Success(s.newField)
    ensures DecodeSpecFields(name, replicas, newField) == Success(s)
  {
  }

  lemma DecodeStatusTree(s: MyResourceStatus)
    ensures DecodeStatus(Some(StatusTree(s))) == Success(s)
  {
    var ms := StatusTree(s).members;
    StatusFieldsFound(s, ms);
    assert DecodeOptionalBool(Field(ms, "ready")) == Success(s.ready);
    DecodeConditionListOf(Field(ms, "conditions"), s.conditions);
    DecodeStatusMembers(ms, s);
  }

  lemma StatusFieldsFound(s: MyResourceStatus, ms: seq<Member>)
    requires ms == StatusTree(s).members
    ensures Field(ms, "ready") == Some(if s.ready.None? then JNull else JBool(s.ready.value))
    ensures s.conditions == [] ==> Field(ms, "conditions") == None
    ensures s.conditions != [] ==> Field(ms, "conditions") == Some(JArray(ConditionTrees(s.conditions)))
  {
    var ready := Member("ready", if s.ready.None? then JNull else JBool(s.ready.value));
    if s.conditions == [] {
      assert ms == [ready];
      FieldOfMissing(ms, "conditions");
    } else {
      assert ms == [ready, Member("conditions", JArray(ConditionTrees(s.conditions)))];
      FieldOfUnique(ms, "conditions", 1);
    }
    FieldOfUnique(ms, "ready", 0);
  }

  lemma DecodeStatusMembers(ms: seq<Member>, s: MyResourceStatus)
    requires DecodeOptionalBool(Field(ms, "ready")) == Success(s.ready)
    requires DecodeConditionList(Field(ms, "conditions")) == Success(s.conditions)
    ensures DecodeStatus(Some(JObject(ms))) == Success(s)
  {
    DecodeStatusFieldsOf(Field(ms, "ready"), Field(ms, "conditions"), s);
  }

  lemma DecodeConditionListOf(f: Option<Json>, cs: seq<Condition>)
    requires cs == [] ==> f == None
    requires cs != [] ==> f == Some(JArray(ConditionTrees(cs)))
    ensures DecodeConditionList(f) == Success(cs)
  {
    if cs != [] {
      DecodeConditionTrees(cs);
      DecodeConditionArray(ConditionTrees(cs));
    }
  }

  lemma DecodeConditionArray(items: seq<Json>)
    ensures DecodeConditionList(Some(JArray(items))) == DecodeConditions(items)
  {
  }

  lemma DecodeStatusFieldsOf(ready: Option<Json>, conditions: Option<Json>, s: MyResourceStatus)
    requires DecodeOptionalBool(ready) == Success(s.ready)
    requires DecodeConditionList(conditions) == Success(s.conditions)
    ensures DecodeStatusFields(ready, conditions) == Success(s)
  {
  }

  /**
   * The hub's stash payload always exists and decodes back to the hub's spec
   * and status; the metadata it carried is not in it.
   */
  lemma {:induction false} UnmarshalPayload(v: MyResourceValue)
    ensures Payload(v, ToUnstructured).Success?
    ensures Unmarshal(Payload(v, ToUnstructured).value) == Success(MyResourceValue(EmptyMeta, v.spec, v.status))
  {
    var tree := StashedTree(v);
    StashedTreeIsWithoutMetadata(v);
    StashedTreeEncodable(v);
    var data := Payload(v, ToUnstructured).value;
    assert Decode(data) == Success(JObject(tree));
    FromStashedTree(v);
  }

  lemma StashedTreeEncodable(v: MyResourceValue)
    ensures Encodable(JObject(StashedTree(v)))
  {
    ConditionTreesEncodable(v.status.conditions);
    assert Encodable(StatusTree(v.status));
  }

  lemma FromStashedTree(v: MyResourceValue)
    ensures FromTree(JObject(StashedTree(v))) == Success(MyResourceValue(EmptyMeta, v.spec, v.status))
  {
    var tree := StashedTree(v);
    FieldOfUnique(tree, "spec", 0);
    FieldOfUnique(tree, "status", 1);
    DecodeSpecTree(v.spec);
    DecodeStatusTree(v.status);
  }

  /** What is left of the hub's field tree once the metadata entry is deleted. */
  lemma StashedTreeIsWithoutMetadata(v: MyResourceValue)
    ensures Without(ToUnstructured(v).value, MetadataField) == StashedTree(v)
  {
    var u := ToUnstructured(v).value;
    var tree := StashedTree(v);
    assert u[0].key == MetadataField && u[1..] == tree;
    assert tree[0].key != MetadataField && tree[1].key != MetadataField;
    assert tree[1..] == [tree[1]] && tree[1..][1..] == [];
    assert Without([tree[1]], MetadataField) == [tree[1]] + Without([], MetadataField);
    assert Without(tree, MetadataField) == [tree[0]] + Without(tree[1..], MetadataField);
    assert Without(u, MetadataField) == Without(u[1..], MetadataField);
  }

  function StashedTree(v: MyResourceValue): seq<Member> {
    [Member("spec", SpecTree(v.spec)), Member("status", StatusTree(v.status))]
  }

  /** The payload depends on spec and status only: no metadata reaches it. */
  lemma {:induction false} PayloadIgnoresMetadata(v: MyResourceValue, w: MyResourceValue)
    requires v.spec == w.spec && v.status == w.status
    ensures Payload(v, ToUnstructured) == Payload(w, ToUnstructured)
  {
    var uv, uw := ToUnstructured(v).value, ToUnstructured(w).value;
    assert uv[1..] == uw[1..];
    assert Without(uv, MetadataField) == Without(uv[1..], MetadataField);
    assert Without(uw, MetadataField) == Without(uw[1..], MetadataField);
  }
}
