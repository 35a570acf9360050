# Mock-example engine of oav, modelled in Dafny

This project models the engine that the oav tool uses to mock request and
response examples from an OpenAPI (Swagger) description. The engine has two parts.

- **The cache tree** (`lib/generator/exampleCache.ts`). A `CacheItem` is either a
  leaf holding a value or a trunk whose child is a list or a name-to-item map.
  Each item can carry read-only and secret flags.
  - `reBuildExample` renders a tree for one direction: read-only items vanish
    from requests and secret items vanish from responses.
  - `MockerCache` maps a reference fragment to an item. The first writer wins.
  - `PayloadCache` keeps a request map, a response map and a merged map.
    `mergeItem` merges two trees structurally. `mergeCache` reconciles the two
    direction maps into the merged map once and then empties them.
- **The synthesiser** (`SwaggerMocker` in `lib/generator/swaggerMocker.ts`). It
  walks the schema graph depth first.
  - A per-path `visited` set of references guards against cycles.
  - It probes the caches by reference fragment and gathers `allOf` properties.
  - For a discriminated schema it takes the first `discriminatorMap` variant.
    It adds at most one `additionalProperties` key.
  - It wraps what it builds as cache items and stores `$ref` results in the
    `MockerCache`.
  - Around the walk it applies the parameter policies (`resourceGroupName`,
    `api-version`) and the response status and header rules.

Files:

- `js_values.dfy` (module `JsValues`): JavaScript values with `undefined`,
  truthiness, property reads, and a "carries at least" order on values.
- `schemas.dfy` (module `Schemas`): schema nodes and definitions. The reference
  graph is a finite map from `$ref` to the resolved definition, plus a depth map
  that witnesses that `allOf` inheritance is acyclic.
- `example_cache.dfy` (module `ExampleCache`): the cache tree, the renderer, the
  two cache classes, the merge, and how `mergeCache` reconciles the maps.
- `swagger_mocker.dfy` (module `SwaggerMocker`): the `SwaggerMocker` class with
  its walk, the request and response mocking, and the specification functions of
  `allOf` gathering.

The collaborators the engine calls are inputs of the `SwaggerMocker` class:

- `loader` stands for `JsonLoader.resolveRefObj`.
- `isObject` stands for `util.isObject`.
- `mockValue` and `mockArray` stand for `Mocker.mock`, without and with an
  array item.
- `pollingAttr` stands for `util.getPollingAttr`.

`util.randomKey()` becomes an arbitrary string chosen at the call. The `visited`
set is a `PathSet` object that the walk updates in place. The mocker cache and
the caller's `OperationExample` are also updated in place. Cache items are
values.

Line 53 of `swaggerMocker.ts` reads the misspelled key `hearders`. The model
keeps that behaviour: a response example's own `headers` are never reused.

## Model

| member | source | states |
|---|---|---|
| Schemas.Resolve | lib/generator/swaggerMocker.ts:302-306 | A reference resolves through the graph, an inline object resolves to itself, anything else resolves to nothing |
| Schemas.MemberResolves | lib/generator/swaggerMocker.ts:180-181 | In an acyclic graph, every `allOf` member resolves to a well-formed definition that is shallower in the inheritance order |
| ExampleCache.Fragment | lib/generator/exampleCache.ts:28-29 | The cache key is `undefined` exactly when the reference has no `#`; otherwise it is the text after the first `#`, which holds no `#` |
| ExampleCache.FragmentOfRef | lib/generator/exampleCache.ts:28-29 | `file#frag` and `file#frag#rest` are both cached under `frag` |
| ExampleCache.BuildItemOption | lib/generator/exampleCache.ts:194-211 | There are options only when `readOnly` or `x-ms-secret` is truthy, and then the two flags equal those truthiness values |
| ExampleCache.CreateLeafItem | lib/generator/exampleCache.ts:213-225 | The item is a leaf that holds the value and carries exactly the given options |
| ExampleCache.CreateTrunkItem | lib/generator/exampleCache.ts:227-239 | The item is not a leaf, holds the given child and carries exactly the given options |
| ExampleCache.ReBuildExample | lib/generator/exampleCache.ts:142-175 | The rendering is `undefined` for a missing item and for an item hidden in this direction. A leaf renders to its value, a list trunk to an array and a map trunk to an object |
| ExampleCache.RenderedArray | lib/generator/exampleCache.ts:152-161 | A list trunk renders one entry per child, in order |
| ExampleCache.RenderedObject | lib/generator/exampleCache.ts:162-172 | A map trunk renders exactly the keys whose child does not render to `undefined` |
| ExampleCache.RenderedEmptyObject | lib/generator/exampleCache.ts:162-172 | A map trunk whose children all vanish renders `{}` |
| ExampleCache.DirectionFiltering | lib/generator/exampleCache.ts:138-148 | A read-only item vanishes from requests and a secret item from responses; otherwise the flag does not change the rendering |
| ExampleCache.RenderOmitsUndefined | lib/generator/exampleCache.ts:162-172 | If the leaf values hold no `undefined` keys, no object anywhere in the rendering does either |
| ExampleCache.SetOnce | lib/generator/exampleCache.ts:16-20 | Inserting adds the key; an existing entry is kept and all other entries are unchanged |
| ExampleCache.FirstWriterWins | lib/generator/exampleCache.ts:16-20 | A second insertion under the same key changes nothing |
| ExampleCache.MockerCache.constructor | lib/generator/exampleCache.ts:8 | The cache starts empty |
| ExampleCache.MockerCache.Get | lib/generator/exampleCache.ts:10-15 | There is an item exactly when the key is present, and it is the stored item |
| ExampleCache.MockerCache.Set | lib/generator/exampleCache.ts:16-20 | The map after the call is the map before it, with the key inserted first-writer-wins |
| ExampleCache.MockerCache.CheckAndCache | lib/generator/exampleCache.ts:24-31 | Nothing happens without an item or without `$ref`. Otherwise the item is stored first-writer-wins under the reference's fragment |
| ExampleCache.PayloadCache.constructor | lib/generator/exampleCache.ts:34-36 | All three maps start empty |
| ExampleCache.PayloadCache.SetByDirection | lib/generator/exampleCache.ts:42-47 | Only the map of the given direction changes, and only first-writer-wins |
| ExampleCache.PayloadCache.GetByDirection | lib/generator/exampleCache.ts:48-54 | There is an item exactly when the direction's map has the key, and it is the stored item |
| ExampleCache.PayloadCache.Get | lib/generator/exampleCache.ts:55-60 | Reads only the merged map: there is an item exactly when the key is present |
| ExampleCache.PayloadCache.Set | lib/generator/exampleCache.ts:62-66 | Writes only the merged map, never overwriting a key; the direction maps are unchanged |
| ExampleCache.PayloadCache.CheckAndCache | lib/generator/exampleCache.ts:72-79 | Writes only the map of its direction, first-writer-wins under the fragment; the merged map and the other direction are unchanged |
| ExampleCache.Merged | lib/generator/exampleCache.ts:85-105 | The result keeps the target's leaf flag, options and child kind; a pair that is not two trunks leaves the target unchanged |
| ExampleCache.PayloadCache.MergeItem | lib/generator/exampleCache.ts:85-105 | The loop over the source keys computes exactly `Merged(target, source)`. This is the corrected merge: where the code as written throws on an `undefined` or `null` source entry, the target entry is kept (see Findings) |
| ExampleCache.MergedElements | lib/generator/exampleCache.ts:87-92 | The target's list is a prefix of the result, the result's length is the larger of the two lengths, and the extra elements are the source's tail in order |
| ExampleCache.MergedEntries | lib/generator/exampleCache.ts:93-102 | The key set is the union. Target-only keys are untouched. Source-only keys and keys with a falsy target entry are copied from the source. Shared keys are merged recursively |
| ExampleCache.MergeKeepsTargetRendering | lib/generator/exampleCache.ts:85-105 | In both directions, the rendering of the merged tree carries everything the target rendered |
| ExampleCache.MergeSelfIsIdentity | lib/generator/exampleCache.ts:85-105 | Merging a tree with itself returns it unchanged |
| ExampleCache.MergeItemAsWritten | lib/generator/exampleCache.ts:85-105 | As written, the merge throws when the target or the source is `undefined` or `null`, and returns the target when the pair is not two trunks |
| ExampleCache.AsWrittenAgreesWhenItReturns | lib/generator/exampleCache.ts:96-101 | Wherever the code as written does not throw, it computes `Merged` |
| ExampleCache.AsWrittenThrowsOnUndefinedSourceEntry | lib/generator/exampleCache.ts:96-101 | Merging `{a: 1}` with `{a: undefined}` throws as written, while `Merged` keeps `{a: 1}` |
| ExampleCache.Reconciled | lib/generator/exampleCache.ts:111-131 | Every key of either direction map is reconciled |
| ExampleCache.Absorb | lib/generator/exampleCache.ts:120-129 | All incoming keys are added, existing merged entries are never replaced, and new keys take the incoming item |
| ExampleCache.Inconsistent | lib/generator/exampleCache.ts:113-117 | The keys reported as inconsistent are exactly those whose request item is a trunk and whose response item is a leaf |
| ExampleCache.ReconciledCases | lib/generator/exampleCache.ts:111-134 | The case table: an existing merged entry is kept; a request-only key, a request leaf, or a request trunk against a response leaf (reported) store the request item; two trunks store the merged item; a response-only key stores the response item |
| ExampleCache.CanonicalKeepsRequestRendering | lib/generator/exampleCache.ts:113-125 | The merged item stored for a new request key renders at least what the request item rendered, in both directions |
| ExampleCache.PayloadCache.ReconcileRequestEntry | lib/generator/exampleCache.ts:113-125 | One request key is stored first-writer-wins as its reconciled item, and is reported when it is inconsistent |
| ExampleCache.PayloadCache.MergeRequestEntries | lib/generator/exampleCache.ts:112-126 | Every request key is added with its reconciled item, existing merged entries are kept, and exactly the inconsistent keys are reported |
| ExampleCache.PayloadCache.AddResponseOnlyEntries | lib/generator/exampleCache.ts:127-131 | Response keys that the request map lacks are added, and existing merged entries are kept |
| ExampleCache.PayloadCache.MergeCache | lib/generator/exampleCache.ts:111-134 | The merged map becomes the old one absorbing the reconciled maps, both direction maps end empty, and the inconsistent keys are reported. Two trunks are combined with the corrected merge `Merged` (see Findings) |
| SwaggerMocker.Gathered | lib/generator/swaggerMocker.ts:309-322 | Own `properties` are all present and override anything inherited |
| SwaggerMocker.GatheredOk | lib/generator/swaggerMocker.ts:309-322 | Every gathered property schema, inherited or own, has references that resolve, and is an object when its name is used as a discriminator |
| SwaggerMocker.GatheredFromLastMember | lib/generator/swaggerMocker.ts:311-317 | A property that the definition does not declare itself comes from the last `allOf` member that has it |
| SwaggerMocker.MemberRefRemoved | lib/generator/swaggerMocker.ts:314-316 | Every `allOf` member reference is among the references that gathering takes off the path |
| SwaggerMocker.StartFields | lib/generator/swaggerMocker.ts:182 | An object example becomes its keys with their plain values; any other value becomes `{}` |
| SwaggerMocker.PlainSlots | lib/generator/swaggerMocker.ts:232-235 | The list child has one plain slot per array element, in order |
| SwaggerMocker.Wrap | lib/generator/swaggerMocker.ts:230-245 | An array becomes a list trunk and an object a map trunk, each with the same entries; anything else becomes a leaf holding the value; the options are the given ones |
| SwaggerMocker.WrapRendering | lib/generator/swaggerMocker.ts:221-245 | A wrapped scalar renders to itself unless the direction hides it. A wrapped object renders `{}` and a wrapped array renders only `undefined` entries |
| SwaggerMocker.Spread | lib/generator/swaggerMocker.ts:278-281 | Every base key survives the spread |
| SwaggerMocker.SpreadVariantWins | lib/generator/swaggerMocker.ts:278-281 | The keys are the base keys plus the variant's child keys; the variant wins on collisions; a variant without an object child adds nothing |
| SwaggerMocker.Discriminated | lib/generator/swaggerMocker.ts:276-281 | The example's keys and the discriminator are all present. The discriminator holds a leaf with the first entry's tag, unless the variant's object child has that key and so overrides it |
| SwaggerMocker.Lookup | lib/generator/swaggerMocker.ts:136-145 | Only a reference hits. The payload cache's merged map wins over the mocker cache, both under the fragment. There is a hit exactly when either holds the fragment |
| SwaggerMocker.LookupKept | lib/generator/swaggerMocker.ts:136-145 | A hit stays the same hit while the mocker cache only gains entries and the merged map is unchanged |
| SwaggerMocker.RequestMockedStep | lib/generator/swaggerMocker.ts:81-126 | Handling one more parameter extends the promise of `mockRequest` from the first `i` parameters to the first `i + 1` |
| SwaggerMocker.PoliciesStep | lib/generator/swaggerMocker.ts:85-88 | After one more parameter, `resourceGroupName` is still `"rg" + rp` and `api-version` still the API version, whenever a parameter so far has that name |
| SwaggerMocker.PassThroughStep | lib/generator/swaggerMocker.ts:106-109 | After one more parameter, a caller value that only pass-through parameters name is still the caller's value |
| SwaggerMocker.FirstOfItsName | lib/generator/swaggerMocker.ts:81-126 | When no earlier parameter has the same name, the parameter sees exactly the caller's value for its name, or its absence |
| SwaggerMocker.PathSet.constructor | lib/generator/swaggerMocker.ts:83 | A path starts empty |
| SwaggerMocker.SwaggerMocker.constructor | lib/generator/swaggerMocker.ts:21-26 | The collaborators and caches are the given ones, and no API description is set |
| SwaggerMocker.SwaggerMocker.ResultForGrows | lib/generator/swaggerMocker.ts:173-176 | Every walk result that a cache state admits is still admitted once the mocker cache only gains entries: cached items are never replaced |
| SwaggerMocker.SwaggerMocker.RenderedGrows | lib/generator/swaggerMocker.ts:147-156 | A rendering of a walk stays one while the mocker cache only gains entries |
| SwaggerMocker.SwaggerMocker.GetDefSpec | lib/generator/swaggerMocker.ts:297-307 | The schema's reference is added to the path and the result is the resolved definition |
| SwaggerMocker.SwaggerMocker.RemoveFromSet | lib/generator/swaggerMocker.ts:130-134 | Exactly the schema's reference is taken off the path |
| SwaggerMocker.SwaggerMocker.GetCache | lib/generator/swaggerMocker.ts:136-145 | The result is `Lookup` on the two caches. The payload cache's merged map is probed first, then the mocker cache, both under the fragment |
| SwaggerMocker.SwaggerMocker.GetProperties | lib/generator/swaggerMocker.ts:309-322 | The result is exactly the gathered properties, and the path loses exactly the inherited references |
| SwaggerMocker.SwaggerMocker.MockObj | lib/generator/swaggerMocker.ts:147-156 | The result is the rendering, for the direction, of a walk result of the schema over the example. The walk result is `undefined` only when the schema is guarded on the starting path or `depthLimit` is 0. The rendered value is also `undefined` when the item is hidden for the direction (read-only in a request, secret in a response). A guarded schema renders `undefined`; a cache hit renders the cached item; otherwise a synthesised item is rendered. The path never grows and the mocker cache only grows |
| SwaggerMocker.SwaggerMocker.MockCachedObj | lib/generator/swaggerMocker.ts:158-251 | The result is a walk result of the schema over the example (`ResultFor`). A guarded schema yields `undefined`, and a cache hit yields the cached item; in both cases the path and the cache are unchanged. Otherwise it yields an item synthesised from the schema: its reference is off the path and its fragment is cached. The path never grows and the cache only grows. Within the result, a nested slot is `undefined` only at a non-object or `$ref` schema, or where the depth runs out |
| SwaggerMocker.SwaggerMocker.SynthesizeItem | lib/generator/swaggerMocker.ts:177-245 | The item is synthesised from the resolved definition (`Synthesized`): its options come from the definition. An object gets the object branch's fields. An array gets the primitive mocker's list around a walk result of `items` over the example's first element. A scalar gets the truthy example or a mocked value. A nested walk result is `undefined` only at a non-object or `$ref` schema, or at the last level. The reference is off the path afterwards |
| SwaggerMocker.SwaggerMocker.MockObjectBranch | lib/generator/swaggerMocker.ts:179-210 | The fields are the object branch of the walk (`ObjectSynthesized`). The example's keys are kept. With a gathered discriminator and a usable first variant, the fields extend `Discriminated` over a walk of that variant. Without a discriminator, every gathered property holds a walk result of its schema over the example's value. Outside these, at most one key changes, it holds a walk result of `additionalProperties`, and none changes when `additionalProperties` is falsy |
| SwaggerMocker.SwaggerMocker.PropertiesBranchLifted | lib/generator/swaggerMocker.ts:192-210 | Property walks made on an earlier cache state, followed by the `additionalProperties` step, give the object branch's fields on the later state |
| SwaggerMocker.SwaggerMocker.MockProperties | lib/generator/swaggerMocker.ts:192-196 | Every property key holds a walk result of its schema over the example's value for it, which is `undefined` only for a non-object or `$ref` schema or at the last level, and every other key keeps its value |
| SwaggerMocker.SwaggerMocker.MockAdditionalProperty | lib/generator/swaggerMocker.ts:197-210 | At most one key changes. It is never a gathered property, and it holds a walk result of `additionalProperties` over `undefined`. Nothing changes when `additionalProperties` is falsy |
| SwaggerMocker.SwaggerMocker.MockForDiscriminator | lib/generator/swaggerMocker.ts:254-285 | Without a usable first variant the example comes back unchanged. Otherwise the result is `Discriminated` over a walk result of the first variant's schema over `{}`: the discriminator set to a leaf holding the first tag, spread with the variant's item. The property's reference is off the path |
| SwaggerMocker.SwaggerMocker.MockHeaders | lib/generator/swaggerMocker.ts:67-78 | There are headers exactly for 201 or 202 with a polling attribute, and they are `{attr: "LocationURl"}` |
| SwaggerMocker.SwaggerMocker.MockedResponseGrows | lib/generator/swaggerMocker.ts:49-65 | A mocked response stays one while the mocker cache only gains entries |
| SwaggerMocker.SwaggerMocker.MockEachResponse | lib/generator/swaggerMocker.ts:49-65 | The response has exactly `headers` and `body`. The headers are the example's `hearders` value or the polling header. The body is `undefined` without a declared schema. Otherwise it is the response-direction rendering of a walk of the schema over the example's body or `{}`, started on an empty path, so the walk result is `undefined` only for a non-object schema or when `depthLimit` is 0. The rendered value is also `undefined` when the item is hidden for the direction (read-only in a request, secret in a response) |
| SwaggerMocker.SwaggerMocker.MockResponse | lib/generator/swaggerMocker.ts:41-47 | The statuses are unchanged and each is replaced by its mocked response, whose body is the response-direction rendering of a walk started on an empty path |
| SwaggerMocker.SwaggerMocker.MockParameter | lib/generator/swaggerMocker.ts:82-125 | The parameter's name becomes a key and other keys are kept. The policy values are set. A body parameter gets the request-direction rendering of a walk of its `schema` over the caller's value or `{}`, with the parameter's own reference on the path. An absent pass-through parameter gets the request-direction rendering of a walk of the parameter itself over `undefined`, on an empty path. Either walk result is `undefined` only when its schema is guarded on that path or `depthLimit` is 0. The rendered value is also `undefined` when the item is hidden for the direction (read-only in a request, secret in a response). A present pass-through value leaves the example unchanged |
| SwaggerMocker.SwaggerMocker.BodyParameterMocked | lib/generator/swaggerMocker.ts:99-105 | A body parameter whose value is the request rendering of a walk of its `schema` is mocked as `mockRequest` promises: its name holds that value and other keys are kept |
| SwaggerMocker.SwaggerMocker.AbsentParameterMocked | lib/generator/swaggerMocker.ts:106-123 | An absent pass-through parameter whose value is the request rendering of a walk of the parameter itself, from an empty path, is mocked as `mockRequest` promises |
| SwaggerMocker.SwaggerMocker.ParameterValueCarried | lib/generator/swaggerMocker.ts:80-128 | A synthesised parameter value stays one while the mocker cache grows and later parameters set other keys |
| SwaggerMocker.SwaggerMocker.RequestValuesStep | lib/generator/swaggerMocker.ts:80-128 | Handling one more parameter extends the synthesised values from the first `i` parameters to the first `i + 1` |
| SwaggerMocker.SwaggerMocker.RequestValuesGrow | lib/generator/swaggerMocker.ts:80-128 | The synthesised parameter values stay so while the mocker cache only gains entries |
| SwaggerMocker.SwaggerMocker.MockRequest | lib/generator/swaggerMocker.ts:80-128 | The keys are the old ones plus every parameter name. `resourceGroupName` is `"rg" + rp` and `api-version` is the API version. A value that only pass-through parameters name is untouched. Every body parameter and every absent pass-through parameter whose name is unique holds the request-direction rendering of its walk. The walk result is `undefined` only when its schema is guarded on its starting path or `depthLimit` is 0, and the rendering is also `undefined` for a read-only item |
| SwaggerMocker.LoopGraphGathered | lib/generator/swaggerMocker.ts:309-322 | The graph whose `Node.parent` inherits from `Node` is well formed, and gathering `parent`'s properties yields `parent` again |
| SwaggerMocker.SwaggerMocker.InlineSelfReferenceNeverEnds | lib/generator/swaggerMocker.ts:170-176 | On that graph every walk of `parent` nests `parent` exactly as many levels as the bound allows, so no bound is ever enough (see Findings) |
| SwaggerMocker.SwaggerMocker.MockForExample | lib/generator/swaggerMocker.ts:28-39 | An example without responses gets one per declared status other than `default`. The parameters are mocked as in `MockRequest`, with request-direction renderings, and every response as in `MockEachResponse`, with response-direction renderings; as there, a walk result is `undefined` only when its schema is guarded on its starting path or `depthLimit` is 0, and a rendering is also `undefined` for an item hidden in its direction |

## Left out

- Key order: JavaScript maps and objects keep insertion order; here they are Dafny maps, and the loops over them take keys in an unspecified order.
- In-place update and aliasing of cache items: `mergeItem` writes into the target item, which may be shared with other maps. The model treats items as values. The synthesiser also writes into the caller's nested example objects, which is not modelled either.
- ExampleCache.PayloadCache.MergeItem: two trunks whose child kinds differ (a list against a map) are excluded by the `Compatible` precondition. The source falls into its key-copy branch for them.
- ExampleCache.MergeItemAsWritten: carries the same `Compatible` precondition, for the same reason.
- ExampleCache.MockerCache.CheckAndCache: requires the schema to be an object or falsy. The source's `"$ref" in schema` throws a TypeError on a truthy primitive schema; the walk never passes one.
- ExampleCache.PayloadCache.CheckAndCache: the same precondition, for the same reason.
- ExampleCache.PayloadCache.MergeCache: requires compatible request and response trees for shared keys, for the same reason.
- Plain values found in a trunk (copied from a caller's example) are assumed not to carry the keys `isLeaf`, `child` or `options`.
- SwaggerMocker.SwaggerMocker.MockCachedObj: the walk is bounded by `fuel` (`depthLimit` at the top) and yields `undefined` when the bound is reached. The source has no bound, and it does not terminate on every well-formed graph: the `visited` guard fires only at a `$ref`, so an inline object schema that inherits, through `allOf`, a property holding itself is walked forever (see Findings).
- SwaggerMocker.SwaggerMocker.MockCachedObj: the walk result (`ResultFor`) admits `undefined` at any nested `$ref` or non-object node, because whether the guard fires there depends on the path, which the predicate does not track. At a nested inline object it admits `undefined` only where the depth runs out. After synthesis it states that the fragment is cached, not that the cached item is this call's item, since a nested call may have cached the same fragment first.
- SwaggerMocker.SwaggerMocker.MockRequest: the synthesised values are stated only for parameters whose name no other parameter of the operation has. With a repeated name, a later parameter sees the earlier one's value instead of the caller's.
- Well-formed graphs require every property schema named like any discriminator of the graph to be an object schema. The source needs this only for the property that is the discriminator of the definition being walked.
- SwaggerMocker.SwaggerMocker.MockObjectBranch: a truthy example that is not a plain object, where an object is expected, is taken as `{}`.
- SwaggerMocker.SwaggerMocker.MockForDiscriminator: a variant item whose child is a list would be spread under index keys; the model adds nothing for it. The model takes the first (tag, schema) pair of `discriminatorMap` in declaration order, and requires the map to be non-empty. As written, `discriminatorMap.entries()[0]` does not do that: on a `Map`, indexing the iterator with `[0]` gives `undefined`, and a plain object has no `entries()` method, so either way the source throws at `firstChildModel[1]` or at the call.
- ExampleCache.PayloadCache.MergeItem: `!resultObj[key]` also reads keys inherited from `Object.prototype`, so a source key such as `constructor` is merged against a function instead of being copied. The model treats target maps as plain dictionaries and copies such a key.
- SwaggerMocker.SwaggerMocker.MockAdditionalProperty: `newKey in properties` also sees inherited `Object.prototype` keys; the model checks only the gathered keys.
- SwaggerMocker.SwaggerMocker.GetDefSpec: resolution must succeed. The source returns `undefined`, and every caller then throws on the result.
- SwaggerMocker.SwaggerMocker.MockEachResponse: an undeclared status or an `undefined`/`null` response entry makes the source throw, so both are excluded by preconditions.
- The primitive mocker is assumed never to return `null`, which `Object.entries` would throw on, and to return an array when given an item.
- Console output (`console.log`, `console.error`) is not modelled. The exception is the inconsistent keys of `mergeCache`, which are kept in a ghost set.
- Numbers are integers. Nothing in the engine does arithmetic on example values.
- `lib/generator/mocker.ts`, `lib/generator/util.ts` and `lib/swagger/jsonLoader.ts` are not part of this model. Their functions are inputs of the `SwaggerMocker` class. Randomness is folded into those inputs and into the arbitrary key choice.
- `lib/xMsExampleExtractor.ts` (file-system example extraction) and `lib/testScenario/markdownReport.ts` (report rendering through templates) are not part of this model.

## Findings

| source | as written | input that shows it | evidently intended | confidence | as-written member | corrected member |
|---|---|---|---|---|---|---|
| lib/generator/exampleCache.ts:96-101 | An `undefined` or `null` source entry under a truthy target entry goes to the recursive call, which reads `source.child` and throws a TypeError | target `{a: leaf 1}`, source `{a: undefined}` | the target entry is kept, as for any source without a child | medium, not executed | ExampleCache.MergeItemAsWritten | ExampleCache.Merged |
| lib/generator/swaggerMocker.ts:193-195 | The walk of an inline object schema is neither guarded nor cached, and `getProperties` (lines 311-320) gathers `allOf` members without any guard, so an inline schema that inherits a property holding itself is walked again and again | `Node: {type: object, properties: {parent: {type: object, allOf: [{$ref: Node}]}}}`, walked from `Node` | the walk terminates (the model stops it after `depthLimit` levels, where the recursive property is `undefined`) | high, not executed | SwaggerMocker.SwaggerMocker.InlineSelfReferenceNeverEnds | SwaggerMocker.SwaggerMocker.MockCachedObj |
