# utilconversion in Dafny

A model of `utilconversion` as used by a Kubernetes conversion webhook. When a
hub object (the newest API version) is converted down to an older "spoke"
version, the spoke cannot hold every hub field. `MarshalData` therefore stores
the hub object as JSON under the reserved annotation
`cluster.x-k8s.io/conversion-data`, leaving out its identity metadata.
`UnmarshalData` reads that payload back on the way up and deletes the
annotation. The example API uses both: a v1 hub `MyResource` has a NewField, a
`*bool` Ready and a list of Conditions, and a v1alpha1 spoke has an OldField
and a plain `bool` Ready.

The project consists of these modules:

- `Wrappers` (`wrappers.dfy`): Option, which models Go's nil-able values, and
  Result, which models `(T, error)` returns.
- `Json` (`json.dfy`): a JSON value tree with a compact printer and a parser.
  Its round trip is proved: the parser reads back every tree the printer
  writes. `Marshal` fails exactly on trees that contain a non-finite number.
- `Stash` (`stash.dfy`): the reserved annotation and `MarshalData` /
  `UnmarshalData`. They are imperative methods on an `ObjectMeta` object whose
  annotation map they replace. The functions `Payload`, `WithStash`,
  `ReadStash` and `AfterRead` specify those methods, and a lemma proves that
  storing then restoring gives back the stored tree.
- `V1` (`v1.dfy`): the hub type. It defines the field tree that the
  unstructured converter builds according to the json tags, and the typed
  JSON decoding into a fresh hub. It proves that a hub's payload decodes to
  the hub's spec and status.
- `V1alpha1` (`v1alpha1.dfy`): the spoke type, the two hand-written spec
  converters, and `ConvertTo` / `ConvertFrom`. These are methods on the spoke
  object, and each is specified by a function over object snapshots.
- `RoundTrip` (`roundtrip.dfy`): the two round trips that the fuzz harness
  samples, stated and proved for every input.

Inputs the Go code gets from outside code are passed in as parameters:

- `MarshalData` takes the unstructured converter as a parameter
  `toUnstructured: S -> Result<seq<Member>>`.
- `UnmarshalData` takes the typed decoder as a parameter
  `unmarshal: string -> Result<T>`.
- For the example types these parameters are `V1.ToUnstructured` and
  `V1.Unmarshal`.

Go's nil map is `None` in the `Annotations` type. A nil map and an empty map
have the same entries (`Entries`).

## Model

| member | source | states |
|---|---|---|
| Stash.Without | utilconversion.go:38 | the tree keeps exactly the members whose key is not the deleted one, and never grows |
| Stash.Payload | utilconversion.go:33-43 | the payload exists exactly when the unstructured form is built and the tree without `metadata` is encodable; it then decodes to that tree; a failed conversion gives `failed to convert source to unstructured: ` and a failed encoding `failed to marshal source object: `, each followed by the step's error |
| Stash.WithStash | utilconversion.go:45-51 | after the write the keys are the old keys plus the reserved one, which holds the payload, and every other value is unchanged; a nil map counts as empty |
| Stash.MarshalData | utilconversion.go:32-54 | on success the annotations become the old ones with the payload under the reserved key; on either failure the matching error is returned and the annotations are left alone |
| Stash.ReadStash | utilconversion.go:58-67 | absent exactly when the key is missing; a payload the decoder rejects gives the wrapped error; otherwise the decoded target |
| Stash.AfterRead | utilconversion.go:69-70 | only a successful read removes the key, and it removes only that key |
| Stash.UnmarshalData | utilconversion.go:57-73 | returns `(false, nil)` when the key is missing, `(false, err)` with the key kept when decoding fails, and `(true, nil)` with the target when decoding succeeds, deleting the key and keeping every other annotation |
| Stash.StoreThenRestore | utilconversion_test.go:129-209 | reading a freshly written stash restores the source's tree without metadata, leaves exactly the other annotations, and a second read finds nothing |
| Stash.PayloadHasNoMetadata | utilconversion_test.go:59-69 | the stored tree has no `metadata` member |
| Stash.ReadKeepsOtherAnnotations | utilconversion_test.go:182-209 | a read leaves the presence and value of every other annotation unchanged |
| Stash.InvalidPayloadIsReported | utilconversion_test.go:211-226 | the payload `invalid-json` gives the wrapped decode error, nothing is restored, and the annotation stays |
| Json.Marshal | utilconversion.go:40-43 | encoding succeeds exactly on trees without non-finite numbers, and the text decodes back to the same tree |
| Json.ParsePrinted | utilconversion.go:40-43 | the parser reads back any printed encodable tree, whatever non-digit text follows it |
| Json.DecodeRejectsBareWord | utilconversion_test.go:211-226 | `invalid-json` is not a JSON document |
| V1.MyResource.constructor | _example/api/v1/types.go:12-18 | a new hub object has empty metadata and zero spec and status |
| V1.DecodeInteger | _example/api/v1/types.go:26 | absent and null decode to the zero value, an integer decodes exactly when it lies in the Go type's range and then to itself, and every other value is rejected |
| V1.DecodeSpecTree | _example/api/v1/types.go:21-30 | the spec's field tree, with `newField` omitted when empty, decodes back to the same spec |
| V1.DecodeConditionTrees | _example/api/v1/types.go:38 | a list of conditions decodes back from its trees element by element |
| V1.NullConditionIsZero | _example/api/v1/types.go:38 | a null element of the Conditions list decodes to a zero Condition, as `json.Unmarshal` leaves a null slice element at its zero value |
| V1.DecodeStatusTree | _example/api/v1/types.go:33-39 | the status tree decodes back to the same status: a nil Ready comes back as nil, and an omitted empty Conditions list as empty |
| V1.UnmarshalPayload | utilconversion.go:32-43 | the payload of any hub exists and decodes into a fresh hub with exactly the hub's spec and status and empty metadata |
| V1.PayloadIgnoresMetadata | utilconversion.go:38 | two hubs with the same spec and status have the same payload, whatever their metadata |
| V1alpha1.ConvertSpecToHub | _example/api/v1alpha1/conversion.go:10-20 | Name and Replicas are copied; NewField takes OldField's value only when OldField is set and otherwise keeps its value |
| V1alpha1.ConvertSpecFromHub | _example/api/v1alpha1/conversion.go:22-31 | Name and Replicas are copied and OldField always points at NewField's value, even when it is empty |
| V1alpha1.HubSpecRoundTrip | _example/api/v1alpha1/conversion.go:10-31 | hub spec to spoke spec and back is the identity, whatever the target held |
| V1alpha1.SpokeSpecRoundTrip | _example/api/v1alpha1/fuzzers.go:14-31 | spoke spec to an empty hub spec and back is the identity (after normalising `&""`) whenever OldField is not `&""` |
| V1alpha1.EmptyOldFieldIsLost | _example/api/v1alpha1/fuzzers.go:19-28 | an OldField of `&""` does not survive the spoke round trip, which is why the fuzzer never generates it |
| V1alpha1.ConvertToHub | _example/api/v1alpha1/conversion.go:34-56 | the hub gets the spoke's metadata and its Name and Replicas; without a stash it is the plain field conversion; an invalid stash returns UnmarshalData's own wrapped error and leaves the plain conversion and the spoke unchanged; a valid stash sets NewField, Ready and Conditions to the stored values and is removed from the spoke |
| V1alpha1.ConvertFromHub | _example/api/v1alpha1/conversion.go:59-68 | the spoke gets the hub's metadata and the down-converted spec and status; it fails exactly when the payload cannot be built, and otherwise its annotations carry the payload |
| V1alpha1.ConvertFromHubStashesHub | _example/api/v1alpha1/conversion.go:66-67 | ConvertFrom never fails for this hub, and the stash it leaves decodes to the hub's spec and status |
| V1alpha1.ConvertToHubWithoutStash | _example/api/v1alpha1/conversion.go:41-48 | with no stash on the spoke the conversion succeeds, the hub is the plain field conversion and the spoke is left as it was |
| V1alpha1.MyResource.ConvertTo | _example/api/v1alpha1/conversion.go:34-56 | the error, the spoke's new state and the hub's new state are exactly those of `ConvertToHub` on the objects' old states |
| V1alpha1.MyResource.ConvertFrom | _example/api/v1alpha1/conversion.go:59-68 | the error and the spoke's new state are those of `ConvertFromHub` on the hub, and the hub is unchanged |
| V1alpha1.NormalizeSpec | _example/api/v1alpha1/conversion_test.go:33-36 | `&""` in OldField becomes nil with Name and Replicas kept, and a spec without it is unchanged |
| V1alpha1.Normalize | _example/api/v1alpha1/conversion_test.go:31-41 | normalises OldField as above and turns an empty annotation map into nil without changing its entries; status, name, namespace and labels are kept |
| RoundTrip.CleanupStash | utilconversion.go:171-176 | removes the reserved key and nothing else; a nil map stays nil |
| RoundTrip.SpokeHubSpoke | utilconversion.go:145-187 | for a spoke without `&""` and without a stash, both conversions succeed, ConvertTo leaves the spoke as it was, and after cleanup and the hook the result is semantically equal to the original |
| RoundTrip.HubSpokeHub | utilconversion.go:188-219 | for any hub, both conversions succeed and the result has the hub's spec and status exactly, its name, namespace and labels, and its annotations apart from the reserved key |

## Left out

- `GetFuzzer` and the sampling loops of `FuzzTestFunc` (utilconversion.go:75-117, 138-221): random generation and the test runner are not modelled. Their two per-sample checks are the `RoundTrip` lemmas, stated for all inputs.
- The JSON byte format is a simplified subset of `encoding/json`:
  - Only integers; floats exist only as the non-encodable `JNonFinite`.
  - No whitespace between tokens.
  - No HTML escaping and no `\u` escapes.
  - Keys are not sorted.
  - The parser accepts leading zeros and raw control characters inside strings.

  Only the printer/parser round trip and the rejection of a bare word are relied on.
- Decoding into a typed object matches field names exactly. This is faithful: utilconversion.go:17 imports `k8s.io/apimachinery/pkg/util/json`, whose `Unmarshal` is case-sensitive.
- Stash.UnmarshalData: when decoding fails, the target is `None`. Go may have partly filled the target before the error; callers ignore it.
- V1.ToUnstructured builds the `metadata` member from name and namespace only. That member is deleted before encoding, so its contents do not affect any result.
- TypeMeta (apiVersion and kind) is not modelled.
- Time values are opaque strings.
- Scheme registration (doc.go, groupversion.go) is not modelled.
- The converters `Convert_v1alpha1_MyResource_To_v1_MyResource` and `Convert_v1_MyResource_To_v1alpha1_MyResource` are generated by conversion-gen (requested in _example/api/v1alpha1/doc.go:3); their generated text is not modelled. They are assumed to behave as conversion-gen's output usually does:
  - ObjectMeta is copied as a struct.
  - Spec goes through the hand-written converters.
  - Ready goes from `bool` to a set pointer going up, and from a nil pointer to `false` going down.
  - Conditions are dropped going down and kept as they were going up.
  - Their error returns cannot occur for these types and are not modelled.
- _example/api/v1alpha1/types.go is not part of this model. The spoke's fields are taken from the converters and fuzzers that use them.
- Map aliasing: Go's struct copy of ObjectMeta shares the annotation map between source and destination, so a write through one object is seen through the other. The model copies the map by value instead. One visible consequence: after hub-spoke-hub, Go deletes the reserved key from the map the spoke shares with the second hub (and with the original hub too when its annotations were non-nil; a nil map is created by MarshalData and is shared only by the spoke and the second hub), while in the model the returned hub keeps it. That is why `RoundTrip.HubSpokeHub` compares annotations apart from the reserved key.
- RoundTrip.SpokeHubSpoke: requires that the spoke carries no stash. A stash would be consumed by ConvertTo, and the random annotations of the harness contain the reserved key with negligible probability.
- Apart from ConvertTo and ConvertFrom, the methods of `metav1.Object` are reduced to reading and replacing the annotation map of an `ObjectMeta`.
- ObjectMeta is reduced to name, namespace, labels and annotations; UID, resourceVersion, generation, ownerReferences, finalizers, timestamps and the other fields are not modelled.
- V1.Unmarshal: a `lastTransitionTime` that is not RFC 3339 text is accepted as an opaque string, where `metav1.Time`'s decoder rejects it; a `metadata`, `apiVersion` or `kind` member of the payload is skipped without a type check, where Go decodes it into the target and fails on an ill-typed value (for the stash `{"metadata":5}` Go's ConvertTo returns the decode error and keeps the key, while `ConvertToHub` succeeds and deletes it); and a member repeated in one object is taken from its last occurrence only, where Go decodes a repeated object member into the same struct and so merges the two (for `{"status":{"ready":true},"status":{}}` Go restores Ready as true, the model as nil). Payloads written by MarshalData have none of these shapes, so the round trips are unaffected.
- RoundTrip.HubSpokeHub: holds for every hub of the model, whose strings are sequences of characters and whose times are opaque strings. In Go, `json.Marshal` replaces invalid UTF-8 with U+FFFD and the unstructured form of a `metav1.Time` keeps whole seconds only, so a hub with invalid UTF-8 in NewField or a Condition string, or with a sub-second LastTransitionTime, does not come back exactly; the Go harness's generators avoid both.
