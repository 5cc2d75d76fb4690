# ember-solr in Dafny

A model of the core of ember-solr, an Ember Data adapter and serializer for Apache Solr.
The model covers:

- how the adapter builds request URLs, Solr query parameters and the jQuery ajax hash;
- how the serializer picks documents and paging metadata out of Solr responses;
- how the atomic-update mixins diff a record against its loaded state;
- how the dynamic-field serializer names Solr fields by attribute type;
- how the multi-valued transform converts array elements;
- the JSON encoder that writes BigNumber values as bare digits;
- the `SolrRequest` object and the request handler descriptors;
- the addon's Content Security Policy hook.

Files, one module per source file:

| file | module | source |
|---|---|---|
| `js.dfy` | `Wrappers`, `Js`, `SolrErrors` | JavaScript values, truthiness, `typeof`, ordered object properties, `String(v)`, a mutable object; the errors thrown |
| `adapter.dfy` | `SolrAdapter` | addon/adapters/solr.js |
| `serializer.dfy` | `SolrSerializer` | addon/serializers/solr.js |
| `atomic_serializer.dfy` | `AtomicSerializer` | addon/mixins/atomic-serializer.js |
| `atomic_multi_valued.dfy` | `AtomicMultiValued` | addon/mixins/atomic-multi-valued-serializer.js |
| `solr_dynamic.dfy` | `SolrDynamic` | addon/serializers/solr-dynamic.js |
| `multi_valued.dfy` | `MultiValued` | addon/transforms/multi-valued.js |
| `big_number_stringify.dfy` | `BigNumberStringify` | addon/lib/big-number-stringify.js |
| `request.dfy` | `Requests` | addon/lib/request.js |
| `handlers.dfy` | `Handlers` | addon/lib/handlers.js |
| `csp_config.dfy` | `AddonConfig` | index.js |

How JavaScript is represented:

- A JavaScript object is `Props`: its property names in insertion order, plus a map from
  name to value. `Put` is `obj[k] = v`: an existing name keeps its place and a new one is
  appended. `Get` is `obj[k]`, which reads `undefined` when the name is absent.
- `===` on values is datatype equality.
- Numbers are integers.
- An object the code changes in place is a `JsObject` (a class holding a `Props`).
  The code changes objects in place in `ajaxOptions`, `ajaxError`, the
  `serializeAttribute` payload, and `SolrRequest`'s options and data.
- Functions the core calls but does not define are parameters of function type:
  - `Ember.String.underscore`;
  - `JSON.stringify` of a Date;
  - the element transforms;
  - the container lookup;
  - the serializer's `_canSerialize`, `_getMappedKey`, `keyForAttribute` and `transformFor` hooks.
- Where the source throws, the model returns `Result.Failure`:
  - `Error(message)` is `new Error(message)`;
  - `TypeError` is what the engine raises for a property access on `null`;
  - `NotDirty(type, id)` is `NotDirtyError` from addon/not-dirty-error.js.

`keyForAttribute` of addon/serializers/solr.js is `SolrSerializer.KeyForAttribute`. It only
applies `underscore`, so it carries no contract of its own.

## Model

| member | source | states |
|---|---|---|
| SolrAdapter.JunctionHasOneSlash | addon/adapters/solr.js:174-180 | whatever slashes meet at the junction, the result is the path without its trailing `/`, one `/`, then the part without its leading `/` |
| SolrAdapter.CombinePath | addon/adapters/solr.js:167-184 | the loop over the segments computes the left fold `Combine` of the junction step, skipping null and empty segments |
| SolrAdapter.CombineExtendsPath1 | addon/adapters/solr.js:168-172 | the joined path always begins with `path1` |
| SolrAdapter.CombineIgnoresSkipped | addon/adapters/solr.js:170-172 | null and empty segments have no effect: joining all segments equals joining only the kept ones |
| SolrAdapter.CoreForType | addon/adapters/solr.js:194-196 | the configured default core, whatever the type; no contract of its own, it enters `BuildURL` and `DefaultBuildURL` |
| SolrAdapter.HandlerForType | addon/adapters/solr.js:206-208 | the configured default handler, whatever the type; no contract of its own, it enters `BuildURL` and `DefaultBuildURL` |
| SolrAdapter.FilterQueryForType | addon/adapters/solr.js:228-230 | `null` by default; no contract of its own, its value is the `fq` that `BuildSolrQuery` and `Find` state |
| SolrAdapter.BuildURL | addon/adapters/solr.js:150-155 | the base URL joined with the type's core and handler by `Combine`; no contract of its own: `CombineExtendsPath1` makes the URL start with the base URL, `CombineIgnoresSkipped` drops a missing core or handler, and `DefaultBuildURL` gives the defaults' URL |
| SolrAdapter.DefaultBuildURL | addon/adapters/solr.js:150-155 | with base `/solr`, no core and handler `/select`, every type's URL is `/solr/select` |
| SolrAdapter.BuildSolrQuery | addon/adapters/solr.js:115-137 | `wt` is `json`; `q` is `query.q` when truthy, else `*:*`; `rows`/`start` exist iff `limit`/`offset` are truthy and then hold them; `fq` holds the type filter iff it is truthy, else it is empty; the keys come in the order `wt, fq, [rows], [start], q` |
| SolrAdapter.FindQuery | addon/adapters/solr.js:73-81 | a GET to the type's URL whose only option is `data`, holding the Solr query |
| SolrAdapter.Find | addon/adapters/solr.js:68-71 | a GET to the type's URL with `q = 'id:' + String(id)`, `wt = json`, and `fq` from the type filter; the data keys are `wt, fq, q` |
| SolrAdapter.DefaultFindById | tests/unit/adapters/solr-test.js:32-37 | `find` of id 101 with the defaults requests `/solr/select` with `wt=json`, an empty `fq` and `q=id:101` |
| SolrAdapter.AjaxOptions | addon/adapters/solr.js:283-310 | fills in the passed hash in place, or a fresh one when none is passed, returns that object, and leaves it holding `AjaxOptionsProps` of its old properties |
| SolrAdapter.AjaxSettingsValues | addon/adapters/solr.js:284-293 | `url`, `type`, `context` and `traditional = true` are written; `dataType` is the configured one when truthy, else `json`; `jsonp = json.wrf` iff the data type is `jsonp`, else `jsonp` is kept; `data` and `contentType` are kept |
| SolrAdapter.AjaxOptionsSettings | addon/adapters/solr.js:283-299 | after the whole of `ajaxOptions`, the request settings above hold whatever `data` the hash carried |
| SolrAdapter.AjaxOptionsJsonBody | addon/adapters/solr.js:295-298 | a non-GET request with truthy data gets the JSON content type and its data replaced by the stringified data |
| SolrAdapter.AjaxSettingsKeepOthers | addon/adapters/solr.js:284-293 | the settings leave every other property of `options` as it was |
| SolrAdapter.AjaxOptionsKeepsOthers | addon/adapters/solr.js:283-299 | after the whole of `ajaxOptions`, every property other than the settings, `data` and `contentType` is as it was |
| SolrAdapter.AjaxOptionsKeepsData | addon/adapters/solr.js:295-298 | a GET request, or one without data, leaves `data` and `contentType` as they were |
| SolrAdapter.AjaxError | addon/adapters/solr.js:365-380 | returns `jqXHR` itself; an object is changed in place to `AjaxErrorProps` of its old properties; a primitive is returned unchanged |
| SolrAdapter.AjaxErrorSettings | addon/adapters/solr.js:366-377 | `then` becomes null; a truthy `errorThrown` is kept; otherwise a string is wrapped in an Error and any other value stored as is; every other property is unchanged |
| SolrSerializer.ExtractSingle | addon/serializers/solr.js:28-45 | a null or undefined payload is a TypeError; a selected document is always truthy |
| SolrSerializer.ExtractSingleDoc | addon/serializers/solr.js:34-38 | a truthy `doc` is selected whatever `response.docs` holds |
| SolrSerializer.ExtractSingleDocs | addon/serializers/solr.js:29-42 | without `doc`, a `docs` array whose length is not 1 fails with the message naming the length; one truthy document is selected; one falsy document fails with the "contain property" message |
| SolrSerializer.ExtractSingleNoDocs | addon/serializers/solr.js:30-35 | without `doc` and without `response.docs`, the count error reports `undefined` |
| SolrSerializer.ExtractArray | addon/serializers/solr.js:47-57 | a null or undefined payload is a TypeError |
| SolrSerializer.ExtractArrayDocs | addon/serializers/solr.js:50-56 | `response.docs` is passed on unchanged and in order iff the response is truthy and `docs` is an array; every other payload object fails with the `response.docs` message |
| SolrSerializer.MetaFor | addon/serializers/solr.js:59-69 | the metadata `extractMeta` stores, or `None`; no contract of its own: `MetaForResponse` states its keys and `MetaForHeader` its exact value |
| SolrSerializer.MetaForResponse | addon/serializers/solr.js:59-69 | nothing is stored without a response; with one, `offset` is `response.start`, `total` is `response.numFound`, and every other key comes from the response header or reads as absent |
| SolrSerializer.Merge | addon/serializers/solr.js:71 | after storing, each key of the new metadata reads its new value and every other key reads as before |
| SolrSerializer.MetadataStore.SetMetadataFor | addon/serializers/solr.js:71 | the type's record becomes the merge of its old record with the metadata; no other type changes |
| SolrSerializer.ExtractMeta | addon/serializers/solr.js:59-73 | on a failure nothing is stored and the failure is returned; without a response nothing is stored; otherwise the metadata is merged into the type's record |
| SolrSerializer.StoredPaging | tests/unit/serializers/solr-test.js:26-52 | after `extractMeta` with a response, the store reports `offset = response.start` and `total = response.numFound` for the type |
| AtomicSerializer.OrEmpty | addon/mixins/atomic-serializer.js:128-129 | `v \|\| []` is always truthy |
| AtomicSerializer.IsAttributeModified | addon/mixins/atomic-serializer.js:123-142 | the loop with early returns computes the ordered comparison `OrderedModified` |
| AtomicSerializer.OrderedModifiedArrays | addon/mixins/atomic-serializer.js:128-141 | with null read as `[]`, arrays are modified iff the lengths differ or some index holds different values |
| AtomicSerializer.OrderedModifiedScalars | addon/mixins/atomic-serializer.js:124-126 | two values neither of which is an array are modified iff they differ |
| AtomicSerializer.PayloadKey | addon/mixins/atomic-serializer.js:91-100 | the `_getMappedKey` result when it changed the key; otherwise `keyForAttribute`'s result when that hook exists; otherwise the key itself |
| AtomicSerializer.SerializeAttribute | addon/mixins/atomic-serializer.js:72-110 | writing into the shared payload object leaves it as `SerializeAttributeSpec` says, and fails exactly when that does |
| AtomicSerializer.SkippedAttributeAddsNothing | addon/mixins/atomic-serializer.js:73-89 | an attribute `_canSerialize` rejects, or one that is not modified, leaves the payload unchanged |
| AtomicSerializer.ModifiedScalarIsSet | addon/mixins/atomic-serializer.js:107-109 | a modified non-array attribute, null included, is written as `{set: value}` under its payload key |
| AtomicSerializer.OrderedArrayIsSet | addon/mixins/atomic-serializer.js:155-157 | in ordered mode a changed array is sent whole as `{set: value}` |
| AtomicSerializer.DistinctArrayIsDiff | addon/mixins/atomic-serializer.js:102-106 | in distinct mode a changed array is written as its `add`/`remove` diff |
| AtomicSerializer.Serialize | addon/mixins/atomic-serializer.js:41-60 | the method's loop over the attributes, over a fresh payload, computes `SerializeSpec` |
| AtomicSerializer.NotDirtyIffNothingWritten | addon/mixins/atomic-serializer.js:43-47 | NotDirty with the type and id is raised iff the attribute pass succeeded and wrote no key; the id is not counted |
| AtomicSerializer.AttributesFailOnlyWithTypeError | addon/mixins/atomic-serializer.js:72-110 | given hooks that do not throw, the attribute pass can fail only with a TypeError |
| AtomicSerializer.NothingModifiedNothingWritten | addon/mixins/atomic-serializer.js:45-47 | when every attribute adds nothing, the pass leaves the payload as it was |
| AtomicSerializer.SerializeWritesId | addon/mixins/atomic-serializer.js:49-53 | a successful payload has at least one attribute key; a truthy id is written under the primary key and nothing else changes; without an id the payload is the attribute pass itself |
| AtomicSerializer.DefaultIdKey | addon/mixins/atomic-serializer.js:51 | without a primary key the id goes under `id` |
| AtomicMultiValued.AsArray | addon/mixins/atomic-multi-valued-serializer.js:34-35 | `Ember.A(v)` gives `v`, or `[]` when `v` is falsy: an array is kept, every falsy value (null, undefined, 0, `""`, false) becomes `[]`, and a truthy value that is no array has no `uniq`, a TypeError |
| AtomicMultiValued.Uniq | addon/mixins/atomic-multi-valued-serializer.js:34-35 | `uniq()` keeps the same values, repeats none, and is no longer than its input |
| AtomicMultiValued.UniqPositions | addon/mixins/atomic-multi-valued-serializer.js:34-35 | `uniq()` holds exactly the values at the first-occurrence positions of its input, in increasing order of those positions |
| AtomicMultiValued.Reject | addon/mixins/atomic-multi-valued-serializer.js:56 | a value is kept iff it is in `values` and not in `withoutValues`; a distinct input gives a distinct result |
| AtomicMultiValued.RejectPositions | addon/mixins/atomic-multi-valued-serializer.js:56 | the kept values appear at strictly increasing positions of `values`, so order is preserved |
| AtomicMultiValued.DistinctModified | addon/mixins/atomic-multi-valued-serializer.js:29-42 | non-arrays are modified iff they differ; fails with a TypeError exactly when an array is compared with a truthy value that is no array |
| AtomicMultiValued.FalsyIsEmpty | addon/mixins/atomic-multi-valued-serializer.js:34-35 | against an array, a falsy value that is no array is compared and diffed as `[]`, on either side |
| AtomicMultiValued.FalsyExamples | addon/mixins/atomic-multi-valued-serializer.js:34-35 | `[]` against `""` is not modified, and `['a']` against `0` gives `{add: 'a'}` |
| AtomicMultiValued.DistinctModifiedIffSetsDiffer | addon/mixins/atomic-multi-valued-serializer.js:34-41 | arrays are modified iff their sets of values differ, so order and duplicates are ignored |
| AtomicMultiValued.Collapse | addon/mixins/atomic-multi-valued-serializer.js:58-64 | no values give no key, one value gives the bare value, and more give the array |
| AtomicMultiValued.DistinctDiff | addon/mixins/atomic-multi-valued-serializer.js:50-71 | the diff fails with a TypeError exactly when either side is a truthy value that is no array |
| AtomicMultiValued.AddedInNewOrder | addon/mixins/atomic-multi-valued-serializer.js:52-56 | `add` lists its values in the order of their first occurrences in the new array, and `remove` in that of the previous array |
| AtomicMultiValued.AddRemoveSets | addon/mixins/atomic-multi-valued-serializer.js:50-71 | `add` holds exactly the new values that were not there before and `remove` exactly those that are gone; both are duplicate-free and disjoint; previous ∪ add − remove = new |
| AtomicMultiValued.DistinctDiffShape | addon/mixins/atomic-multi-valued-serializer.js:55-70 | `add` comes before `remove`; each key is present only when it has values, and holds them collapsed |
| AtomicMultiValued.SetsDifferIffChanges | addon/mixins/atomic-multi-valued-serializer.js:37-41 | the sets of values differ iff there is something to add or to remove |
| AtomicMultiValued.DistinctModifiedIffDiff | addon/mixins/atomic-multi-valued-serializer.js:29-71 | an array is reported modified iff its diff has a key, so a modified array never writes an empty diff |
| AtomicMultiValued.DiffOfDistinct | addon/mixins/atomic-multi-valued-serializer.js:50-68 | for duplicate-free arrays the diff is the two `normalize` calls on the arrays themselves |
| AtomicMultiValued.UniqOfThree | addon/mixins/atomic-multi-valued-serializer.js:52-53 | three different values are already duplicate-free |
| AtomicMultiValued.AddedExample | addon/mixins/atomic-multi-valued-serializer.js:67 | rejecting `[a, b, c]` from `[c, d, e]` leaves `[d, e]` |
| AtomicMultiValued.RemovedExample | addon/mixins/atomic-multi-valued-serializer.js:68 | rejecting `[c, d, e]` from `[a, b, c]` leaves `[a, b]` |
| AtomicMultiValued.DiffExample | tests/unit/mixins/atomic-multi-valued-serializer-test.js:100-113 | `[a, b, c]` becoming `[c, d, e]` gives `{add: [d, e], remove: [a, b]}` |
| AtomicMultiValued.AddRemoveExample | tests/unit/mixins/atomic-multi-valued-serializer-test.js:100-113 | the same diff read key by key: keys `add, remove` with those arrays |
| SolrDynamic.DynamicSerializer.constructor | addon/serializers/solr-dynamic.js:33-74 | no prefixes, the shipped suffix table, and no type metadata yet |
| SolrDynamic.DynamicSerializer.AttrType | addon/serializers/solr-dynamic.js:115-116 | the attribute type used for lookups is never empty: an undeclared type reads as `string` |
| SolrDynamic.DynamicSerializer.Normalize | addon/serializers/solr-dynamic.js:128-131 | records the type, leaves the tables unchanged, and reads each declared attribute from under its key |
| SolrDynamic.DynamicSerializer.Serialize | addon/serializers/solr-dynamic.js:133-136 | records the snapshot's type, leaves the tables unchanged, and writes each attribute under its key |
| SolrDynamic.NamesOf | addon/serializers/solr-dynamic.js:133-136 | the attribute names of a snapshot, in order |
| SolrDynamic.PayloadKeepsOthers | addon/serializers/solr-dynamic.js:133-136 | serializing leaves a payload property that is no attribute's key as it was |
| SolrDynamic.PayloadWritesKeys | addon/serializers/solr-dynamic.js:133-136 | when no two attributes share a key, the payload holds each attribute's value under its key |
| SolrDynamic.RenamedReadsKeys | addon/serializers/solr-dynamic.js:128-131 | normalizing takes each attribute's value from under its key |
| SolrDynamic.RenamedKeepsOthers | addon/serializers/solr-dynamic.js:128-131 | normalizing leaves a record entry for any other name as it was |
| SolrDynamic.ReadBack | addon/serializers/solr-dynamic.js:128-131 | reading attributes out of a payload that holds each under its key gives each value back under its own name |
| SolrDynamic.SerializeNormalizeRoundTrip | addon/serializers/solr-dynamic.js:86-136 | normalizing a serialized payload gives back every attribute's value, provided no two attributes share a key |
| SolrDynamic.DynamicSerializer.DynamicKeyForAttribute | addon/serializers/solr-dynamic.js:103-126 | the dynamic field key; no contract of its own: `NoTablesNoChange` (no tables, the name), `NoTypeMetadataFails` (no type, the error) and `PrefixThenSuffix` (prefix, name, suffix by type) cover every case |
| SolrDynamic.DynamicSerializer.KeyForAttribute | addon/serializers/solr-dynamic.js:86-89 | `underscore` of the dynamic key, or its failure; no contract of its own, the keys it gives are the ones `SerializeNormalizeRoundTrip` and `DummyKeys` state |
| SolrDynamic.NoTablesNoChange | addon/serializers/solr-dynamic.js:107-109 | with neither table configured the attribute name is used as it is |
| SolrDynamic.NoTypeMetadataFails | addon/serializers/solr-dynamic.js:111-113 | with a table and no type metadata the mapping fails with "Cannot determine dynamic field without type metadata" |
| SolrDynamic.PrefixThenSuffix | addon/serializers/solr-dynamic.js:115-125 | with type metadata the key is the type's prefix, the name, then the type's suffix, each only when configured, an undeclared type reading as `string` |
| SolrDynamic.DefaultSuffixExamples | addon/serializers/solr-dynamic.js:56-74 | the shipped suffixes map string to `_s`, number to `_i`, boolean to `_b`, date to `_dt`, strings to `_ss` |
| SolrDynamic.CustomSuffixExample | tests/unit/mixins/dynamic-test.js:76-88 | a suffix table `{string: '(string)'}` maps the string attribute `bar` to `bar(string)` |
| SolrDynamic.CustomPrefixExample | tests/unit/mixins/dynamic-test.js:44-51 | a prefix table `{number: 'int_'}` maps the number attribute `flags` to `int_flags` |
| SolrDynamic.DummyKeys | addon/serializers/solr-dynamic.js:56-74 | with the shipped tables a string `title` maps to `title_s` and a number `flags` to `flags_i` |
| SolrDynamic.SerializeDummy | tests/unit/mixins/dynamic-test.js:67-74 | a fresh serializer writes `{title: 'My Dummy', flags: 37}` as `{title_s: 'My Dummy', flags_i: 37}`, in that order |
| MultiValued.ConvertItems | addon/transforms/multi-valued.js:35-45 | the converted array has the input's length; each element of the element type is kept, and every other one is replaced by the function's result |
| MultiValued.MultiValuedTransform.constructor | addon/transforms/multi-valued.js:7 | the element type is `string`, nothing overrides the computed transform, and nothing is cached or looked up yet |
| MultiValued.MultiValuedTransform.SetElementType | addon/transforms/multi-valued.js:9 | changing the element type drops the cached element transform; setting the current type keeps it; a value set on `elementTransform` is never dropped |
| MultiValued.MultiValuedTransform.SetElementTransform | addon/transforms/multi-valued.js:9-17 | setting the property, which has no setter, replaces the computed transform for good |
| MultiValued.MultiValuedTransform.GetElementTransform | addon/transforms/multi-valued.js:9-17 | returns the set value, else the cached or registered transform (caching a registered one); with none, fails with "Unable to find transform for '<type>'"; the container is asked only when nothing is set or cached |
| MultiValued.MultiValuedTransform.Convert | addon/transforms/multi-valued.js:27-46 | the result is `ConvertSpec`; the container is asked at most once, and only when some element is not of the element type |
| MultiValued.MultiValuedTransform.Deserialize | addon/transforms/multi-valued.js:19-21 | `convert` with the element transform's `deserialize` |
| MultiValued.MultiValuedTransform.Serialize | addon/transforms/multi-valued.js:23-25 | `convert` with the element transform's `serialize` |
| MultiValued.PrefixStep | addon/transforms/multi-valued.js:35-45 | the converted prefix grows by one converted element, and a prefix all of the element type converts to itself |
| MultiValued.NonArrayUnchanged | addon/transforms/multi-valued.js:27-30 | anything but an array, null included, is returned as it is |
| MultiValued.ConvertCorresponds | addon/transforms/multi-valued.js:35-45 | with a transform, the result is an array of the input's length that keeps elements of the element type and converts the others, position by position |
| MultiValued.ConvertFailsOnlyWithoutTransform | addon/transforms/multi-valued.js:40-42 | conversion fails iff an array has an element of another type and no transform is registered, and then with the message naming the type |
| MultiValued.NumbersNeedNoTransform | tests/unit/transforms/multi-valued-test.js:16-23 | `[1, 3]` with element type `number` needs no transform |
| MultiValued.MissingFredTransform | tests/unit/transforms/multi-valued-test.js:55-65 | `['1', '3']` with element type `fred` and nothing registered fails with "Unable to find transform for 'fred'" |
| MultiValued.NullsThroughNumberTransform | tests/unit/transforms/multi-valued-test.js:25-43 | `[null, undefined]` goes through a number transform that maps both to null |
| MultiValued.OverrideSurvivesElementType | addon/transforms/multi-valued.js:9-17 | a transform set on the property is still used after `elementType` changes to `fred`, with nothing registered |
| MultiValued.NumbersWithoutRegistry | tests/unit/transforms/multi-valued-test.js:16-23 | a fresh transform set to `number`, with an empty container, deserializes `[1, 3]` to itself |
| BigNumberStringify.EscapeChar | addon/lib/big-number-stringify.js:19-21 | every character gives some text, and a printable character other than `"` and `\` stands for itself |
| BigNumberStringify.JsonString | addon/lib/big-number-stringify.js:19-21 | a string leaf is written between double quotes |
| BigNumberStringify.Encode | addon/lib/big-number-stringify.js:14-36 | the recursive reference encoding; no contract of its own: `Stringify` is proved to compute it, and `EncodeItemsAppend`, `EncodeArrayCons`, `LeavesDelegate`, `EmptyContainers` and `BigNumberUnquoted` state its shape |
| BigNumberStringify.Stringify | addon/lib/big-number-stringify.js:14-36 | the dispatch with its loops computes the recursive encoding `Encode` |
| BigNumberStringify.StringifyObject | addon/lib/big-number-stringify.js:26-35 | the `for … in` loop gives `{`, the `"k":v` entries in key order joined by commas, then `}` |
| BigNumberStringify.FieldsStep | addon/lib/big-number-stringify.js:28-33 | one more property appends a comma unless it is the first, then its entry |
| BigNumberStringify.StringifyArray | addon/lib/big-number-stringify.js:1-12 | the `forEach` loop gives `[`, the element encodings joined by commas, then `]` |
| BigNumberStringify.LeavesDelegate | addon/lib/big-number-stringify.js:19-21 | Dates and values whose `typeof` is not `object` go to `JSON.stringify` |
| BigNumberStringify.EmptyContainers | addon/lib/big-number-stringify.js:23-35 | `null`, an Error and an empty object encode as `{}`; an empty array encodes as `[]` |
| BigNumberStringify.BigNumberUnquoted | addon/lib/big-number-stringify.js:15-17 | a BigNumber is written as its digits without quotes, also inside an object |
| BigNumberStringify.EncodeItemsAppend | addon/lib/big-number-stringify.js:4-9 | encoding two runs of elements one after the other puts exactly one comma between them |
| BigNumberStringify.EncodeArrayCons | addon/lib/big-number-stringify.js:1-12 | an array is `[`, its first element's text, `,`, the rest joined, then `]` |
| BigNumberStringify.ArrayExample | tests/unit/lib/big-number-stringify-test.js:16-20 | `[1, 5]` encodes as `[1,5]` |
| BigNumberStringify.EscapePlain | addon/lib/big-number-stringify.js:19-21 | a string of printable characters other than `"` and `\` is written unescaped |
| BigNumberStringify.PlainStringEntry | addon/lib/big-number-stringify.js:32 | the entry of a property holding such a string is `"k":"s"` |
| BigNumberStringify.ObjectExample | tests/unit/lib/big-number-stringify-test.js:10-14 | `{a: 'b', x: 'q'}` encodes as `{"a":"b","x":"q"}` |
| BigNumberStringify.QuotesEscaped | addon/lib/big-number-stringify.js:19-21 | a quote inside a string leaf is escaped with a backslash |
| BigNumberStringify.InnerObjectExample | tests/unit/lib/big-number-stringify-test.js:37-50 | `{d: 'd1'}` encodes as `{"d":"d1"}` |
| BigNumberStringify.NestedExample | tests/unit/lib/big-number-stringify-test.js:37-50 | objects nested in an array are encoded by the same rules: `[{d: 'd1'}]` gives `[{"d":"d1"}]` |
| Requests.SolrRequest.Method | addon/lib/request.js:74 | `method` reads the handler's HTTP method, and is undefined without a handler |
| Requests.SolrRequest.Create | addon/lib/request.js:85-104 | fails with "SolrRequest accepts `data` or `options.data` but not both." iff both are supplied, changing nothing; otherwise `options.data` is present; without options, a fresh options object holds `data` or a fresh `{}`; supplied options are the same object, keep their other keys, and get `data` or a fresh `{}` when they had none |
| Requests.SolrRequest.SetDataKey | addon/lib/request.js:101-103 | a write through `data` lands in `options.data`, which stays the same object |
| Requests.CreateTwice | tests/unit/lib/request-test.js:33-43 | two requests created without options share neither the options nor the data object |
| Handlers.TypeName | addon/lib/handlers.js:14-55 | every handler type constant starts with `SolrHandlerType.` |
| Handlers.TypeNamesDistinct | addon/lib/handlers.js:14-55 | the three handler type constants are distinct |
| Handlers.HandlerDescriptors | addon/lib/handlers.js:62-156 | the base handler is GET with no type and no path; Search is `select` over GET, RealTimeGet is `get` over GET, and Update is `update` over POST |
| AddonConfig.IndexFrom | index.js:13 | the first position at or after `i` where `sub` occurs, or -1 when there is none |
| AddonConfig.IndexOf | index.js:8 | `indexOf` with its start clamped to `0 .. length`: the first occurrence at or after that start, or -1 |
| AddonConfig.StartBeyondEnd | index.js:8 | a start beyond the end finds an empty search string at the end and a character nowhere |
| AddonConfig.Config | index.js:7-25 | when a configuration is returned, a base URL was set and `script-src` is `'self' ` followed by its scheme and host |
| AddonConfig.ConfigNoneIff | index.js:8-10 | nothing is returned iff the base URL is missing, empty, or has no `:` |
| AddonConfig.SchemeAndHost | index.js:12-16 | the URL cut before the first `/` found from three characters past `://`; no contract of its own: `SchemeAndHostIsPrefix`, `NoSlashInHost` and `NoPathKeepsWholeURL` state it |
| AddonConfig.SchemeAndHostIsPrefix | index.js:12-16 | the scheme and host are a prefix of the URL that is either the whole URL or stops right before a `/` |
| AddonConfig.NoSlashInHost | index.js:13-16 | no `/` lies between three characters past `://` and the end of the host |
| AddonConfig.NoPathKeepsWholeURL | index.js:13-16 | without a `/` after the scheme, the whole URL is allowed |
| AddonConfig.LocalhostExample | index.js:7-25 | `http://localhost:8983/solr` allows `'self' http://localhost:8983` |

## Left out

- `ajax` in addon/adapters/solr.js: the promise, `$.ajax` and run-loop plumbing perform I/O.
- The `headers`/`beforeSend` branch of `ajaxOptions`: it sets XHR headers, a side effect outside the model.
- `ajaxSuccess`: it returns its argument, and it is only called from `ajax`.
- Functions the core only calls are parameters, as listed above. Their behaviour (underscoring, `JSON.stringify` of a Date, the element transforms, the container) is not modelled.
- Object identity: `===` between objects is structural equality here, and a JavaScript number is an integer. NaN, floating point and `-0` are not modelled.
- For `for … in`, the model enumerates properties in insertion order. JavaScript lists integer-like property names first and also enumerates inherited properties; neither is modelled.
- Array holes are not modelled: an array is a sequence of values.
- Lone surrogates: `JSON.stringify` escapes them, but `EscapeChar` treats every character outside the control range as printable.
- The base `DS.JSONSerializer` behaviour behind `_super` is not modelled: id and relationship normalization, the `attrs` mapping, attribute transforms, and any payload fields other than the attributes. `SolrDynamic.DynamicSerializer.Normalize` and `Serialize` use `Renamed` and `Payload` as stand-ins that read or write each attribute under its key.
- `SolrDynamic.DynamicSerializer.AttrType`: `metaForProperty` on an undeclared attribute throws in Ember. The model signals this as a TypeError.
- `AtomicSerializer.AttributesFailOnlyWithTypeError`: the serializer hooks are total functions here, so a `transformFor` that throws for an unknown attribute type is not modelled. The lemma holds for hooks that do not throw.
- `Requests.SolrRequest.Create`: `data` and `options.data` are objects or absent, as documented (`{object}`). A falsy primitive such as `''`, which `data || {}` replaces with `{}`, and a truthy primitive cannot be passed.
- `store.setMetadataFor` belongs to Ember Data's store. It is modelled as merging the new keys into the type's record.
- `SolrSerializer.ExtractMeta`: the source writes `offset` and `total` into `payload.responseHeader` itself. The model writes them into a copy, so the change to the payload object is not modelled. A header that is an array or a host object is treated as `{}`.
- `AtomicMultiValued.AsArray`: `Ember.A` is taken with Ember's array prototype extensions on, where it is `arr || []`. A truthy value that is no array then fails inside `uniq`, and the model reports that failure as a TypeError. Without the prototype extensions `Ember.A` would wrap such a value, which is not modelled.
- `setVersionConstraint` is a hook the core only calls when a subclass defines it, and none does here.
- `SolrAdapter.CombinePath`: only the string and null arguments the adapter passes are modelled. Other argument types (numbers, objects) are not.
- `AddonConfig.Config`: a non-string `solrBaseURL` is not modelled.
- addon/lib/update-mode.js and addon/lib/commit-type.js: string enumerations with no logic, used by no modelled code.
- Features that only the tests exercise are not in the code:
  - the real-time get handler in `find`;
  - per-document versions under `meta.versions`;
  - `SolrDeleteHandler`;
  - `SolrUpdateMode.Atomic`;
  - the quoted form of the NotDirty message (the code uses backticks, and so does the model).
- addon/services/store.js, addon/initializers/solr.js, the blueprints, the error classes' prototype wiring, Brocfile.js and the generated API files: none of these is part of this model.
- `Js.WellFormed` (no repeated names, names and values in step) is not enforced inside `Value`. Lemmas that need it state it as a precondition.
- `MultiValued.MultiValuedTransform`: Ember's caching of the computed `elementTransform` is modelled as the `cached` field, and a value `set` on it, which replaces the setter-less computed property, as the `overridden` field. The container calls are counted in the ghost field `lookups`.
- `BigNumberStringify.StringifyObject`: `stringify`'s object loop is a separate method, called from `Stringify`.
- Object keys in `big-number-stringify` are written without escaping, as the code does. So a key containing `"` gives text that is not valid JSON.
