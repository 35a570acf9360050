/** The recursive example synthesiser (lib/generator/swaggerMocker.ts).

    It walks the schema graph depth first, guarding cycles with a per-path set
    of references, probes the caches by reference fragment, wraps what it builds
    as cache items and memoises `$ref` results in the `MockerCache`. The
    collaborators it calls are parameters of the class: reference resolution is
    the graph `loader`, `isObject` is `util.isObject`, `mockValue` and `mockArray`
    are the primitive mocker (`Mocker.mock` without and with an item),
    `pollingAttr` is `util.getPollingAttr`; `util.randomKey()` is an arbitrary
    string chosen at the call. */
module SwaggerMocker {
  import opened JsValues
  import opened Schemas
  import opened ExampleCache

  // ---------------------------------------------------------------------------
  // Inheritance: what `getProperties` gathers

  /** A property schema under `key` the synthesiser can walk without throwing: its
      references resolve, and it is an object when `key` names a discriminator. */
  predicate PropertySchemaOk(g: SchemaGraph, key: string, node: SchemaNode)
  {
    NodeOk(g, node) && (key in g.discriminators ==> node.IsObject())
  }

  /** The properties of `d`: its `allOf` members' properties in order, later members
      overriding earlier ones, then its own `properties` overriding them all. */
  function Gathered(g: SchemaGraph, d: Definition): (props: map<string, SchemaNode>)
    requires GraphOk(g) && DefOk(g, d)
    ensures d.properties.Keys <= props.Keys
    ensures forall k :: k in d.properties ==> props[k] == d.properties[k]
    decreases InheritBound(g, d), d, 1
  {
    GatheredUpTo(g, d, |d.allOf|) + d.properties
  }

  function GatheredUpTo(g: SchemaGraph, d: Definition, n: nat): map<string, SchemaNode>
    requires GraphOk(g) && DefOk(g, d) && n <= |d.allOf|
    decreases InheritBound(g, d), d, 0, n
  {
    if n == 0 then map[] else GatheredUpTo(g, d, n - 1) + MemberProperties(g, d, n - 1)
  }

  /** The properties gathered from the `i`-th `allOf` member. */
  function MemberProperties(g: SchemaGraph, d: Definition, i: nat): map<string, SchemaNode>
    requires GraphOk(g) && DefOk(g, d) && i < |d.allOf|
    decreases InheritBound(g, d), d, 0, i
  {
    MemberResolves(g, d, i);
    Gathered(g, Resolve(g, d.allOf[i]).value)
  }

  /** The references `getProperties(d)` adds to and removes from the path: every
      `allOf` member reference, at every level of inheritance. */
  function InheritedRefs(g: SchemaGraph, d: Definition): set<string>
    requires GraphOk(g) && DefOk(g, d)
    decreases InheritBound(g, d), d, 1
  {
    InheritedRefsUpTo(g, d, |d.allOf|)
  }

  function InheritedRefsUpTo(g: SchemaGraph, d: Definition, n: nat): set<string>
    requires GraphOk(g) && DefOk(g, d) && n <= |d.allOf|
    decreases InheritBound(g, d), d, 0, n
  {
    if n == 0 then {} else InheritedRefsUpTo(g, d, n - 1) + MemberRefs(g, d, n - 1)
  }

  function MemberRefs(g: SchemaGraph, d: Definition, i: nat): set<string>
    requires GraphOk(g) && DefOk(g, d) && i < |d.allOf|
    decreases InheritBound(g, d), d, 0, i
  {
    MemberResolves(g, d, i);
    var member := d.allOf[i];
    InheritedRefs(g, Resolve(g, member).value) + (if member.RefNode? then {member.ref} else {})
  }

  /** Every gathered property schema, inherited or own, can be walked. */
  lemma {:induction false} GatheredOk(g: SchemaGraph, d: Definition)
    requires GraphOk(g) && DefOk(g, d)
    ensures forall k :: k in Gathered(g, d) ==> PropertySchemaOk(g, k, Gathered(g, d)[k])
    decreases InheritBound(g, d), d, 1
  {
    GatheredUpToOk(g, d, |d.allOf|);
  }

  lemma {:induction false} GatheredUpToOk(g: SchemaGraph, d: Definition, n: nat)
    requires GraphOk(g) && DefOk(g, d) && n <= |d.allOf|
    ensures forall k :: k in GatheredUpTo(g, d, n) ==> PropertySchemaOk(g, k, GatheredUpTo(g, d, n)[k])
    decreases InheritBound(g, d), d, 0, n
  {
    if n > 0 {
      MemberResolves(g, d, n - 1);
      assert MemberProperties(g, d, n - 1) == Gathered(g, Resolve(g, d.allOf[n - 1]).value);
      GatheredUpToOk(g, d, n - 1);
      GatheredOk(g, Resolve(g, d.allOf[n - 1]).value);
    }
  }

  /** A property that `d` does not declare itself comes from the last `allOf`
      member that has it. */
  lemma {:induction false} GatheredFromLastMember(g: SchemaGraph, d: Definition, n: nat, i: nat, k: string)
    requires GraphOk(g) && DefOk(g, d) && i < n <= |d.allOf|
    requires k in MemberProperties(g, d, i)
    requires forall j :: i < j < n ==> k !in MemberProperties(g, d, j)
    ensures k in GatheredUpTo(g, d, n) && GatheredUpTo(g, d, n)[k] == MemberProperties(g, d, i)[k]
    ensures n == |d.allOf| && k !in d.properties ==> Gathered(g, d)[k] == MemberProperties(g, d, i)[k]
    decreases n
  {
    if i < n - 1 {
      GatheredFromLastMember(g, d, n - 1, i, k);
    }
  }

  /** Each member reference is among the references `getProperties` removes. */
  lemma {:induction false} MemberRefRemoved(g: SchemaGraph, d: Definition, n: nat, i: nat)
    requires GraphOk(g) && DefOk(g, d) && i < n <= |d.allOf|
    requires d.allOf[i].RefNode?
    ensures d.allOf[i].ref in InheritedRefsUpTo(g, d, n)
    ensures n == |d.allOf| ==> d.allOf[i].ref in InheritedRefs(g, d)
    decreases n
  {
    if i < n - 1 {
      MemberRefRemoved(g, d, n - 1, i);
    }
  }

  // ---------------------------------------------------------------------------
  // Shapes of the synthesised items

  /** The path `getDefSpec` leaves behind on a fresh path: the schema's own
      reference, if it has one. */
  function OwnRef(schema: SchemaNode): set<string>
  {
    if schema.RefNode? then {schema.ref} else {}
  }

  /** The head guard of `mockCachedObj`: the schema is not an object, or its
      reference is already on the path. */
  predicate Guarded(schema: SchemaNode, path: set<string>)
  {
    !schema.IsObject() || (schema.RefNode? && schema.ref in path)
  }

  /** The example an object is built into, as item slots: the caller's object
      with its values still plain; nothing for any other value. */
  function StartFields(example: Value): (fields: map<string, Slot>)
    ensures example.Obj? ==> fields.Keys == example.fields.Keys
    ensures forall k :: k in fields ==> fields[k] == Plain(Get(example, k))
    ensures !example.Obj? ==> fields == map[]
  {
    if example.Obj? then map k | k in example.fields :: Plain(example.fields[k]) else map[]
  }

  /** The wrapping at the end of `mockCachedObj`: an array becomes a list trunk and
      an object a map trunk, their values copied as they are; anything else a leaf.
      `null` would make `Object.entries` throw. */
  function Wrap(example: Value, option: Option<ItemOptions>): (item: CacheItem)
    requires example != Null
    ensures item.options == option
    ensures item.Trunk? && item.child.Elements? <==> example.Arr?
    ensures item.Trunk? && item.child.Entries? <==> example.Obj?
    ensures example.Obj? ==> item.child.fields == StartFields(example)
    ensures example.Arr? ==> |item.child.elems| == |example.elems|
    ensures item.IsLeaf() ==> item.value == example
  {
    match example
    case Arr(elems) =>
      CreateTrunkItem(Elements(PlainSlots(elems)), option)
    case Obj(_) => CreateTrunkItem(Entries(StartFields(example)), option)
    case _ => CreateLeafItem(example, option)
  }

  /** A wrapped scalar renders to itself unless the direction hides it; a wrapped
      object or array keeps none of its values, since they are not items. */
  lemma WrapRendering(example: Value, option: Option<ItemOptions>, isRequest: bool)
    requires example != Null
    ensures var r := ReBuildExample(Item(Wrap(example, option)), isRequest);
      var hidden := ShouldSkip(Item(Wrap(example, option)), isRequest);
      (hidden ==> r == Undefined) &&
      (!hidden && !example.Arr? && !example.Obj? ==> r == example) &&
      (!hidden && example.Obj? ==> r == Obj(map[])) &&
      (!hidden && example.Arr? ==> r.Arr? && forall i :: 0 <= i < |r.elems| ==> r.elems[i] == Undefined)
  {
    var item := Wrap(example, option);
    if !ShouldSkip(Item(item), isRequest) && example.Obj? {
      RenderedEmptyObject(item, isRequest);
    }
  }

  /** `(example || [])[0]`: the value the array branch walks its items over. */
  function ArrayExample(example: Value): Value
  {
    if Truthy(example) then First(example) else Undefined
  }

  /** Values copied into a list trunk as they are. */
  function PlainSlots(values: seq<Value>): (slots: seq<Slot>)
    ensures |slots| == |values|
    ensures forall i :: 0 <= i < |values| ==> slots[i] == Plain(values[i])
  {
    if values == [] then [] else [Plain(values[0])] + PlainSlots(values[1..])
  }

  /** `{...base, ...variant?.child}`: the variant's object child is laid over the
      base, the variant winning. */
  function Spread(base: map<string, Slot>, variant: Slot): (r: map<string, Slot>)
    ensures base.Keys <= r.Keys
  {
    if variant.Item? && variant.item.Trunk? && variant.item.child.Entries? then base + variant.item.child.fields
    else base
  }

  lemma SpreadVariantWins(base: map<string, Slot>, variant: Slot)
    ensures var r := Spread(base, variant);
      (variant.Item? && variant.item.Trunk? && variant.item.child.Entries? ==>
        r.Keys == base.Keys + variant.item.child.fields.Keys &&
        (forall k :: k in variant.item.child.fields ==> r[k] == variant.item.child.fields[k]) &&
        (forall k :: k in base && k !in variant.item.child.fields ==> r[k] == base[k])) &&
      (!(variant.Item? && variant.item.Trunk? && variant.item.child.Entries?) ==> r == base)
  {
  }

  /** Keys whose slot in `after` is new or differs from `before`. */
  function ChangedKeys(before: map<string, Slot>, after: map<string, Slot>): set<string>
  {
    set k | k in after && (k !in before || after[k] != before[k])
  }

  /** Keys outside `keys` that changed from `start` to `fields` changed from `mid`
      to `fields`, when `mid` only set `keys` on `start`. */
  lemma ChangedOutside(start: map<string, Slot>, mid: map<string, Slot>, fields: map<string, Slot>,
                       keys: set<string>)
    requires mid.Keys == start.Keys + keys && mid.Keys <= fields.Keys
    requires forall k :: k in start && k !in keys ==> mid[k] == start[k]
    ensures start.Keys + keys <= fields.Keys
    ensures ChangedKeys(start, fields) - keys <= ChangedKeys(mid, fields)
  {
  }

  predicate AtMostOne(s: set<string>)
  {
    forall a, b :: a in s && b in s ==> a == b
  }

  /** The discriminated path of the object branch is taken. */
  predicate DiscriminatorGathered(g: SchemaGraph, d: Definition)
    requires GraphOk(g) && DefOk(g, d)
  {
    d.discriminator.Some? && d.discriminator.value in Gathered(g, d)
  }

  /** The first `discriminatorMap` entry exists and has a schema. */
  predicate FirstVariantUsable(d: Definition)
  {
    d.discriminatorMap.Variants? && |d.discriminatorMap.entries| > 0 &&
    d.discriminatorMap.entries[0].schema.IsTruthy()
  }

  /** What `mockForDiscriminator` builds from the example and the walked variant:
      the discriminator key set to a leaf holding the first entry's tag, then the
      variant's object child spread over it. */
  function Discriminated(g: SchemaGraph, schema: SchemaNode, example: map<string, Slot>,
                         discriminator: string, variant: Slot): (r: map<string, Slot>)
    requires Resolve(g, schema).Some? && FirstVariantUsable(Resolve(g, schema).value)
    ensures example.Keys + {discriminator} <= r.Keys
    ensures !(variant.Item? && variant.item.Trunk? && variant.item.child.Entries? &&
              discriminator in variant.item.child.fields) ==>
      r[discriminator] == Item(CreateLeafItem(Str(Resolve(g, schema).value.discriminatorMap.entries[0].tag), None))
  {
    var tag := Resolve(g, schema).value.discriminatorMap.entries[0].tag;
    SpreadVariantWins(example[discriminator := Item(CreateLeafItem(Str(tag), None))], variant);
    Spread(example[discriminator := Item(CreateLeafItem(Str(tag), None))], variant)
  }

  // ---------------------------------------------------------------------------
  // The caches as the walk sees them

  /** The payload cache's merged map and the mocker cache. */
  datatype CacheState = CacheState(merged: map<CacheKey, CacheItem>, mocked: map<CacheKey, CacheItem>)

  /** `getCache` on a cache state: only a reference hits, under its fragment, the
      merged map first. */
  function Lookup(cs: CacheState, schema: SchemaNode): (r: Option<CacheItem>)
    ensures !schema.RefNode? ==> r == None
    ensures schema.RefNode? && Fragment(schema.ref) in cs.merged ==> r == Some(cs.merged[Fragment(schema.ref)])
    ensures schema.RefNode? && Fragment(schema.ref) !in cs.merged && Fragment(schema.ref) in cs.mocked ==>
      r == Some(cs.mocked[Fragment(schema.ref)])
    ensures r.Some? <==> schema.RefNode? && (Fragment(schema.ref) in cs.merged || Fragment(schema.ref) in cs.mocked)
  {
    if !schema.RefNode? then None
    else
      var key := Fragment(schema.ref);
      if key in cs.merged then Some(cs.merged[key])
      else if key in cs.mocked then Some(cs.mocked[key])
      else None
  }

  /** What a walk does to the caches: the merged map is untouched and the mocker
      cache only gains keys. */
  predicate Grown(a: CacheState, b: CacheState)
  {
    b.merged == a.merged && Extends(a.mocked, b.mocked)
  }

  /** A hit stays the same hit while the caches grow. */
  lemma LookupKept(a: CacheState, b: CacheState, schema: SchemaNode)
    requires Grown(a, b) && Lookup(a, schema).Some?
    ensures Lookup(b, schema) == Lookup(a, schema)
  {
  }

  lemma GrownTransitive(a: CacheState, b: CacheState, c: CacheState)
    requires Grown(a, b) && Grown(b, c)
    ensures Grown(a, c)
  {
  }

  // ---------------------------------------------------------------------------
  // Operations

  /** `specItem.content.responses[status]`: whether the response declares `schema`. */
  datatype ResponseSpec = ResponseSpec(schema: Option<SchemaNode>)

  /** `specItem.content`: the parameters in order, and the declared responses. */
  datatype OperationSpec = OperationSpec(parameters: seq<SchemaNode>, responses: map<string, ResponseSpec>)

  /** The API description: `spec.info.version`. */
  datatype ApiSpec = ApiSpec(version: Value)

  /** Every parameter resolves and every declared response schema can be walked. */
  predicate OperationOk(g: SchemaGraph, op: OperationSpec)
  {
    ParamsOk(g, op.parameters) &&
    forall s :: s in op.responses && op.responses[s].schema.Some? ==> NodeOk(g, op.responses[s].schema.value)
  }

  predicate ParamsOk(g: SchemaGraph, params: seq<SchemaNode>)
  {
    forall i :: 0 <= i < |params| ==> params[i].IsObject() && NodeOk(g, params[i])
  }

  /** The parameters, resolved. */
  function ParamDefs(g: SchemaGraph, params: seq<SchemaNode>): (defs: seq<Definition>)
    requires ParamsOk(g, params)
    ensures |defs| == |params|
    ensures forall i :: 0 <= i < |params| ==> defs[i] == Resolve(g, params[i]).value
  {
    if params == [] then [] else [Resolve(g, params[0]).value] + ParamDefs(g, params[1..])
  }

  /** The names of the first `n` parameters. */
  function ParamNames(defs: seq<Definition>, n: nat): set<string>
    requires n <= |defs|
  {
    set i | 0 <= i < n :: defs[i].name
  }

  /** A parameter without a fixed policy and without `schema`: an example value
      already present for it is kept. */
  predicate PassThrough(d: Definition)
  {
    d.name != "resourceGroupName" && d.name != "api-version" && d.schema.None?
  }

  /** Of the first `n` parameters, only pass-through ones are named `k`. */
  predicate OnlyPassThrough(defs: seq<Definition>, n: nat, k: string)
    requires n <= |defs|
  {
    forall j :: 0 <= j < n && defs[j].name == k ==> PassThrough(defs[j])
  }

  /** Of the first `n` parameters, only the `j`-th has its name. */
  predicate UniqueName(defs: seq<Definition>, n: nat, j: nat)
    requires j < n <= |defs|
  {
    forall i :: 0 <= i < n && defs[i].name == defs[j].name ==> i == j
  }

  /** What `mockRequest` promises after the first `n` parameters: every parameter
      name is a key, `resourceGroupName` is `"rg" + rp`, `api-version` is the
      API version, and an example value that only pass-through parameters name
      is left as it was. */
  predicate RequestMocked(before: map<string, Value>, defs: seq<Definition>, n: nat,
                          rp: string, version: Value, after: map<string, Value>)
    requires n <= |defs|
  {
    var names := ParamNames(defs, n);
    after.Keys == before.Keys + names &&
    ("resourceGroupName" in names ==> after["resourceGroupName"] == Str("rg" + rp)) &&
    ("api-version" in names ==> after["api-version"] == version) &&
    (forall k :: k in before && OnlyPassThrough(defs, n, k) ==> after[k] == before[k])
  }

  /** One parameter `p` handled: its name becomes a key, other keys are kept, the
      policy values are set, and a present pass-through value is left alone. */
  predicate ParameterMocked(p: Definition, rp: string, version: Value,
                            before: map<string, Value>, after: map<string, Value>)
  {
    after.Keys == before.Keys + {p.name} &&
    (forall k :: k in before && k != p.name ==> after[k] == before[k]) &&
    (p.name == "resourceGroupName" ==> after[p.name] == Str("rg" + rp)) &&
    (p.name == "api-version" ==> after[p.name] == version) &&
    (PassThrough(p) && p.name in before ==> after == before)
  }

  /** Handling parameter `i` extends what `mockRequest` promises from the first `i`
      parameters to the first `i + 1`. */
  lemma RequestMockedStep(before: map<string, Value>, defs: seq<Definition>, i: nat,
                          rp: string, version: Value, current: map<string, Value>, next: map<string, Value>)
    requires i < |defs|
    requires RequestMocked(before, defs, i, rp, version, current)
    requires ParameterMocked(defs[i], rp, version, current, next)
    ensures RequestMocked(before, defs, i + 1, rp, version, next)
  {
    NamesStep(defs, i);
    PoliciesStep(before, defs, i, rp, version, current, next);
    PassThroughStep(before, defs, i, rp, version, current, next);
  }

  /** The fixed policies for `resourceGroupName` and `api-version` survive one
      more parameter. */
  lemma PoliciesStep(before: map<string, Value>, defs: seq<Definition>, i: nat,
                     rp: string, version: Value, current: map<string, Value>, next: map<string, Value>)
    requires i < |defs|
    requires RequestMocked(before, defs, i, rp, version, current)
    requires ParameterMocked(defs[i], rp, version, current, next)
    ensures var names := ParamNames(defs, i) + {defs[i].name};
      ("resourceGroupName" in names ==> next["resourceGroupName"] == Str("rg" + rp)) &&
      ("api-version" in names ==> next["api-version"] == version)
  {
  }

  /** Values only pass-through parameters name stay as they were across one more
      parameter. */
  lemma PassThroughStep(before: map<string, Value>, defs: seq<Definition>, i: nat,
                        rp: string, version: Value, current: map<string, Value>, next: map<string, Value>)
    requires i < |defs|
    requires RequestMocked(before, defs, i, rp, version, current)
    requires ParameterMocked(defs[i], rp, version, current, next)
    ensures forall k :: k in before && OnlyPassThrough(defs, i + 1, k) ==> k in next && next[k] == before[k]
  {
    forall k | k in before && OnlyPassThrough(defs, i + 1, k)
      ensures k in next && next[k] == before[k]
    {
      OnlyPassThroughStep(defs, i, k);
    }
  }

  /** The names of the first `i + 1` parameters add the `i`-th name. */
  lemma NamesStep(defs: seq<Definition>, i: nat)
    requires i < |defs|
    ensures ParamNames(defs, i + 1) == ParamNames(defs, i) + {defs[i].name}
  {
  }

  /** A name only pass-through parameters carry among the first `i + 1` does so
      among the first `i`, and so does the `i`-th if it carries it. */
  lemma OnlyPassThroughStep(defs: seq<Definition>, i: nat, k: string)
    requires i < |defs| && OnlyPassThrough(defs, i + 1, k)
    ensures OnlyPassThrough(defs, i, k)
    ensures defs[i].name == k ==> PassThrough(defs[i])
  {
  }

  /** A parameter that no earlier parameter names sees the caller's value for it. */
  lemma FirstOfItsName(before: map<string, Value>, defs: seq<Definition>, i: nat, rp: string, version: Value,
                       current: map<string, Value>)
    requires i < |defs| && UniqueName(defs, i + 1, i)
    requires RequestMocked(before, defs, i, rp, version, current)
    ensures var name := defs[i].name;
      (name in current <==> name in before) && MapGet(current, name) == MapGet(before, name)
  {
    var name := defs[i].name;
    assert name !in ParamNames(defs, i);
    if name in before {
      assert OnlyPassThrough(defs, i, name);
    }
  }

  /** `example[key]` on an object of values. */
  function MapGet(m: map<string, Value>, key: string): (v: Value)
    ensures key in m ==> v == m[key]
    ensures key !in m ==> v == Undefined
  {
    if key in m then m[key] else Undefined
  }

  // ---------------------------------------------------------------------------
  // A well-formed graph the unbounded walk never finishes on: `Node` has an
  // inline object property `parent` that inherits from `Node` through `allOf`.

  const LoopRef := "#/definitions/Node"

  /** `{type: "object", allOf: [{$ref: Node}]}`, the schema of `parent`. */
  function LoopParent(): (d: Definition)
    ensures d.allOf == [RefNode(LoopRef)] && d.properties == map[]
  {
    Definition("", "object", map[], [RefNode(LoopRef)], None, NoVariants, NotSchema(false), NotSchema(false),
               Undefined, Undefined, None)
  }

  /** `Node: {type: "object", properties: {parent: …}}`. */
  function LoopNode(): (d: Definition)
    ensures d.properties == map["parent" := InlineNode(LoopParent())] && d.allOf == []
  {
    Definition("", "object", map["parent" := InlineNode(LoopParent())], [], None, NoVariants, NotSchema(false),
               NotSchema(false), Undefined, Undefined, None)
  }

  function LoopGraph(): (g: SchemaGraph)
    ensures g.defs == map[LoopRef := LoopNode()]
  {
    SchemaGraph(map[LoopRef := LoopNode()], map[LoopRef := 0], {})
  }

  /** The graph is well formed, and gathering `parent`'s properties yields
      `parent` again, through `Node`. */
  lemma LoopGraphGathered()
    ensures GraphOk(LoopGraph()) && DefOk(LoopGraph(), LoopParent())
    ensures Gathered(LoopGraph(), LoopParent()) == map["parent" := InlineNode(LoopParent())]
  {
    var g := LoopGraph();
    assert GatheredUpTo(g, LoopNode(), 0) == map[];
    assert Gathered(g, LoopNode()) == map["parent" := InlineNode(LoopParent())];
    assert GatheredUpTo(g, LoopParent(), 1) == GatheredUpTo(g, LoopParent(), 0) + MemberProperties(g, LoopParent(), 0);
  }

  /** How many times `parent` nests inside a walk result. */
  function ParentDepth(s: Slot): nat
  {
    if s.Item? && s.item.Trunk? && s.item.child.Entries? && "parent" in s.item.child.fields
    then 1 + ParentDepth(s.item.child.fields["parent"])
    else 0
  }

  /** The path of references being walked (`visited`). */
  class PathSet {
    var refs: set<string>

    constructor()
      ensures refs == {}
    {
      refs := {};
    }
  }

  /** The caller's example of one operation: parameter values and responses by status. */
  class OperationExample {
    var parameters: map<string, Value>
    var responses: map<string, Value>

    constructor(parameters: map<string, Value>, responses: map<string, Value>)
      ensures this.parameters == parameters && this.responses == responses
    {
      this.parameters := parameters;
      this.responses := responses;
    }
  }

  class SwaggerMocker {
    const loader: SchemaGraph
    const mockCache: MockerCache
    const payloadCache: PayloadCache
    const isObject: Definition -> bool
    const mockValue: (Definition, string) -> Value
    const mockArray: (Definition, string, Slot) -> seq<Slot>
    const pollingAttr: OperationSpec -> string
    /** How deep the walk may go; see the notes on termination. */
    const depthLimit: nat
    var spec: Option<ApiSpec>

    constructor(jsonLoader: SchemaGraph, mockerCache: MockerCache, payloadCache: PayloadCache,
                isObject: Definition -> bool, mockValue: (Definition, string) -> Value,
                mockArray: (Definition, string, Slot) -> seq<Slot>, pollingAttr: OperationSpec -> string,
                depthLimit: nat)
      ensures loader == jsonLoader && mockCache == mockerCache && this.payloadCache == payloadCache
      ensures this.isObject == isObject && this.mockValue == mockValue && this.mockArray == mockArray
      ensures this.pollingAttr == pollingAttr && this.depthLimit == depthLimit
      ensures spec == None
    {
      loader := jsonLoader;
      mockCache := mockerCache;
      this.payloadCache := payloadCache;
      this.isObject := isObject;
      this.mockValue := mockValue;
      this.mockArray := mockArray;
      this.pollingAttr := pollingAttr;
      this.depthLimit := depthLimit;
      spec := None;
    }

    /** The graph is well formed and the primitive mocker never yields `null`. */
    ghost predicate Valid()
    {
      GraphOk(loader) && forall d, name :: mockValue(d, name) != Null
    }

    /** The caches as the walk reads them. */
    function Snapshot(): CacheState
      reads mockCache, payloadCache
    {
      CacheState(payloadCache.mergedCaches, mockCache.caches)
    }

    // -------------------------------------------------------------------------
    // What the walk yields. `n` is the number of levels the walk may still go
    // down; `cs` is the state of the caches, which may have grown since the walk.

    /** A slot the walk of `schema` over `example` may yield: `undefined` (the guard
        fired, which only a non-object or a reference can make it do, or the depth
        ran out), the item cached for the reference, or an item synthesised from the
        schema. */
    ghost predicate ResultFor(n: nat, cs: CacheState, objName: string, schema: SchemaNode, example: Value, s: Slot)
      requires Valid() && NodeOk(loader, schema)
      decreases n, 3
    {
      match s
      case Plain(v) => v == Undefined && (n == 0 || !schema.InlineNode?)
      case Item(item) =>
        Lookup(cs, schema) == Some(item) ||
        (n > 0 && schema.IsObject() && Synthesized(n, cs, objName, schema, example, item))
    }

    /** An item synthesised from `schema`, branch by branch: options from the
        resolved definition; an object becomes a map trunk (`ObjectSynthesized`);
        an array becomes the list the primitive mocker builds around the walk of
        `items` over the example's first element; anything else keeps a truthy
        example value, calling the primitive mocker only when it is missing. */
    ghost predicate Synthesized(n: nat, cs: CacheState, objName: string, schema: SchemaNode, example: Value,
                                item: CacheItem)
      requires Valid() && NodeOk(loader, schema) && schema.IsObject() && n > 0
      decreases n, 2
    {
      ResolvedOk(loader, schema);
      var d := Resolve(loader, schema).value;
      item.options == BuildItemOption(Some(d)) &&
      (isObject(d) ==>
        item.Trunk? && item.child.Entries? && ObjectSynthesized(n, cs, objName, d, example, item.child.fields)) &&
      (!isObject(d) && d.typeName == "array" ==>
        item.Trunk? &&
        exists arrItem :: ResultFor(n - 1, cs, objName + "'s item", d.items, ArrayExample(example), arrItem) &&
          item.child == Elements(mockArray(d, objName, arrItem))) &&
      (!isObject(d) && d.typeName != "array" ==>
        item == Wrap(if Truthy(example) then example else mockValue(d, objName), BuildItemOption(Some(d))))
    }

    /** The fields of an object item. Without a discriminator, every gathered
        property holds the walk of its schema over the caller's value for it and
        every other key keeps the caller's value, but for the one
        `additionalProperties` key. With one, the first variant is walked over `{}`
        and spread over the example (`Discriminated`), and then the
        `additionalProperties` key is added. */
    ghost predicate ObjectSynthesized(n: nat, cs: CacheState, objName: string, d: Definition, example: Value,
                                      fields: map<string, Slot>)
      requires Valid() && DefOk(loader, d) && n > 0
      decreases n, 1
    {
      var start, props := StartFields(example), Gathered(loader, d);
      GatheredOk(loader, d);
      if DiscriminatorGathered(loader, d) then
        var disc := d.discriminator.value;
        var schema := props[disc];
        if !FirstVariantUsable(Resolve(loader, schema).value) then
          start.Keys <= fields.Keys && AdditionalSynthesized(n, cs, d, props, ChangedKeys(start, fields), fields)
        else
          exists variant :: VariantFor(n, cs, schema, disc, variant) &&
            (var mid := Discriminated(loader, schema, start, disc, variant);
             mid.Keys <= fields.Keys && AdditionalSynthesized(n, cs, d, props, ChangedKeys(mid, fields), fields))
      else
        start.Keys + props.Keys <= fields.Keys &&
        (forall k :: k in props ==> ResultFor(n - 1, cs, k, props[k], Get(example, k), fields[k])) &&
        AdditionalSynthesized(n, cs, d, props, ChangedKeys(start, fields) - props.Keys, fields)
    }

    /** `variant` is the walk of the first `discriminatorMap` entry of the
        discriminator property `schema` over `{}`. */
    ghost predicate VariantFor(n: nat, cs: CacheState, schema: SchemaNode, discriminator: string, variant: Slot)
      requires Valid() && NodeOk(loader, schema) && schema.IsObject() && n > 0
      decreases n, 0
    {
      ResolvedOk(loader, schema);
      var dd := Resolve(loader, schema).value;
      FirstVariantUsable(dd) &&
      ResultFor(n - 1, cs, discriminator, dd.discriminatorMap.entries[0].schema, Obj(map[]), variant)
    }

    /** The `additionalProperties` step, given the keys it `changed`: at most one,
        never a gathered property, holding the walk of `additionalProperties` over
        `undefined`; none when `additionalProperties` is falsy. */
    ghost predicate AdditionalSynthesized(n: nat, cs: CacheState, d: Definition, props: map<string, SchemaNode>,
                                          changed: set<string>, fields: map<string, Slot>)
      requires Valid() && DefOk(loader, d) && n > 0
      decreases n, 0
    {
      AtMostOne(changed) &&
      (forall k :: k in changed ==>
        k in fields && k !in props && ResultFor(n - 1, cs, k, d.additionalProperties, Undefined, fields[k])) &&
      (!d.additionalProperties.IsTruthy() ==> changed == {})
    }

    /** What a walk yields stays what it yields while the caches grow. */
    lemma {:induction false} ResultForGrows(n: nat, a: CacheState, b: CacheState, objName: string,
                                             schema: SchemaNode, example: Value, s: Slot)
      requires Valid() && NodeOk(loader, schema) && Grown(a, b)
      requires ResultFor(n, a, objName, schema, example, s)
      ensures ResultFor(n, b, objName, schema, example, s)
      decreases n, 3
    {
      if Lookup(a, schema).Some? && s == Item(Lookup(a, schema).value) {
        LookupKept(a, b, schema);
      } else if s != Plain(Undefined) {
        SynthesizedGrows(n, a, b, objName, schema, example, s.item);
      }
    }

    lemma {:induction false} SynthesizedGrows(n: nat, a: CacheState, b: CacheState, objName: string,
                                               schema: SchemaNode, example: Value, item: CacheItem)
      requires Valid() && NodeOk(loader, schema) && schema.IsObject() && n > 0 && Grown(a, b)
      requires Synthesized(n, a, objName, schema, example, item)
      ensures Synthesized(n, b, objName, schema, example, item)
      decreases n, 2
    {
      ResolvedOk(loader, schema);
      var d := Resolve(loader, schema).value;
      if isObject(d) {
        ObjectSynthesizedGrows(n, a, b, objName, d, example, item.child.fields);
      } else if d.typeName == "array" {
        var arrItem :| ResultFor(n - 1, a, objName + "'s item", d.items, ArrayExample(example), arrItem) &&
          item.child == Elements(mockArray(d, objName, arrItem));
        ResultForGrows(n - 1, a, b, objName + "'s item", d.items, ArrayExample(example), arrItem);
      }
    }

    lemma {:induction false} ObjectSynthesizedGrows(n: nat, a: CacheState, b: CacheState, objName: string,
                                                     d: Definition, example: Value, fields: map<string, Slot>)
      requires Valid() && DefOk(loader, d) && n > 0 && Grown(a, b)
      requires ObjectSynthesized(n, a, objName, d, example, fields)
      ensures ObjectSynthesized(n, b, objName, d, example, fields)
      decreases n, 1
    {
      var start, props := StartFields(example), Gathered(loader, d);
      GatheredOk(loader, d);
      if DiscriminatorGathered(loader, d) {
        var disc := d.discriminator.value;
        var schema := props[disc];
        if !FirstVariantUsable(Resolve(loader, schema).value) {
          AdditionalGrows(n, a, b, d, props, ChangedKeys(start, fields), fields);
        } else {
          var variant :| VariantFor(n, a, schema, disc, variant) &&
            (var mid := Discriminated(loader, schema, start, disc, variant);
             mid.Keys <= fields.Keys && AdditionalSynthesized(n, a, d, props, ChangedKeys(mid, fields), fields));
          var mid := Discriminated(loader, schema, start, disc, variant);
          VariantForGrows(n, a, b, schema, disc, variant);
          AdditionalGrows(n, a, b, d, props, ChangedKeys(mid, fields), fields);
        }
      } else {
        forall k | k in props
          ensures ResultFor(n - 1, b, k, props[k], Get(example, k), fields[k])
        {
          ResultForGrows(n - 1, a, b, k, props[k], Get(example, k), fields[k]);
        }
        AdditionalGrows(n, a, b, d, props, ChangedKeys(start, fields) - props.Keys, fields);
      }
    }

    lemma {:induction false} VariantForGrows(n: nat, a: CacheState, b: CacheState, schema: SchemaNode,
                                              discriminator: string, variant: Slot)
      requires Valid() && NodeOk(loader, schema) && schema.IsObject() && n > 0 && Grown(a, b)
      requires VariantFor(n, a, schema, discriminator, variant)
      ensures VariantFor(n, b, schema, discriminator, variant)
      decreases n, 0
    {
      ResolvedOk(loader, schema);
      var dd := Resolve(loader, schema).value;
      ResultForGrows(n - 1, a, b, discriminator, dd.discriminatorMap.entries[0].schema, Obj(map[]), variant);
    }

    lemma {:induction false} AdditionalGrows(n: nat, a: CacheState, b: CacheState, d: Definition,
                                              props: map<string, SchemaNode>, changed: set<string>,
                                              fields: map<string, Slot>)
      requires Valid() && DefOk(loader, d) && n > 0 && Grown(a, b)
      requires AdditionalSynthesized(n, a, d, props, changed, fields)
      ensures AdditionalSynthesized(n, b, d, props, changed, fields)
      decreases n, 0
    {
      forall k | k in changed
        ensures ResultFor(n - 1, b, k, d.additionalProperties, Undefined, fields[k])
      {
        ResultForGrows(n - 1, a, b, k, d.additionalProperties, Undefined, fields[k]);
      }
    }

    /** What `mockObj` yields when it starts on the path `path`: the rendering, for
        the direction, of a walk result with the full depth left, which is
        `undefined` only when the guard fires on `path` or there is no depth. */
    ghost predicate Rendered(cs: CacheState, path: set<string>, objName: string, schema: SchemaNode, example: Value,
                             isRequest: bool, r: Value)
      requires Valid() && NodeOk(loader, schema)
    {
      exists s :: ResultFor(depthLimit, cs, objName, schema, example, s) && r == ReBuildExample(s, isRequest) &&
        (s == Plain(Undefined) ==> Guarded(schema, path) || depthLimit == 0)
    }

    lemma RenderedGrows(a: CacheState, b: CacheState, path: set<string>, objName: string, schema: SchemaNode,
                        example: Value, isRequest: bool, r: Value)
      requires Valid() && NodeOk(loader, schema) && Grown(a, b)
      requires Rendered(a, path, objName, schema, example, isRequest, r)
      ensures Rendered(b, path, objName, schema, example, isRequest, r)
    {
      var s :| ResultFor(depthLimit, a, objName, schema, example, s) && r == ReBuildExample(s, isRequest) &&
        (s == Plain(Undefined) ==> Guarded(schema, path) || depthLimit == 0);
      ResultForGrows(depthLimit, a, b, objName, schema, example, s);
    }

    // -------------------------------------------------------------------------
    // The walk

    /** `getDefSpec`: puts the schema's reference on the path and resolves it.
        Every caller reads the result, so resolution must succeed. */
    method GetDefSpec(schema: SchemaNode, visited: PathSet) returns (content: Definition)
      requires Resolve(loader, schema).Some?
      modifies visited
      ensures content == Resolve(loader, schema).value
      ensures visited.refs == old(visited.refs) + (if schema.RefNode? then {schema.ref} else {})
    {
      if schema.RefNode? {
        visited.refs := visited.refs + {schema.ref};
      }
      content := Resolve(loader, schema).value;
    }

    /** `removeFromSet`: takes the schema's reference off the path. */
    method RemoveFromSet(schema: SchemaNode, visited: PathSet)
      requires schema.IsObject()
      modifies visited
      ensures visited.refs == old(visited.refs) - (if schema.RefNode? then {schema.ref} else {})
    {
      if schema.RefNode? && schema.ref in visited.refs {
        visited.refs := visited.refs - {schema.ref};
      }
    }

    /** `getCache`: a reference is looked up by its fragment in the payload cache's
        merged map first, then in the mocker cache. */
    function GetCache(schema: SchemaNode): (r: Option<CacheItem>)
      requires schema.IsObject()
      reads mockCache, payloadCache
      ensures r == Lookup(Snapshot(), schema)
      ensures schema.RefNode? && payloadCache.Has(Fragment(schema.ref)) ==>
        r == payloadCache.Get(Fragment(schema.ref))
      ensures schema.RefNode? && !payloadCache.Has(Fragment(schema.ref)) ==>
        r == mockCache.Get(Fragment(schema.ref))
    {
      if schema.RefNode? then
        var key := Fragment(schema.ref);
        if payloadCache.Has(key) then payloadCache.Get(key)
        else if mockCache.Has(key) then mockCache.Get(key)
        else None
      else None
    }

    /** `getProperties`: gathers `d`'s properties through `allOf`, putting each
        member's reference on the path while it is folded in and taking it off after. */
    method GetProperties(d: Definition, visited: PathSet) returns (properties: map<string, SchemaNode>)
      requires Valid() && DefOk(loader, d)
      modifies visited
      ensures properties == Gathered(loader, d)
      ensures visited.refs == old(visited.refs) - InheritedRefs(loader, d)
      decreases InheritBound(loader, d), d
    {
      properties := map[];
      for i := 0 to |d.allOf|
        invariant properties == GatheredUpTo(loader, d, i)
        invariant visited.refs == old(visited.refs) - InheritedRefsUpTo(loader, d, i)
      {
        var item := d.allOf[i];
        MemberResolves(loader, d, i);
        var member := GetDefSpec(item, visited);
        var inherited := GetProperties(member, visited);
        properties := properties + inherited;
        RemoveFromSet(item, visited);
      }
      properties := properties + d.properties;
    }

    /** `mockObj`: synthesise, then render for the direction. */
    method MockObj(objName: string, schema: SchemaNode, example: Value, visited: PathSet, isRequest: bool)
      returns (r: Value)
      requires Valid() && NodeOk(loader, schema)
      modifies mockCache, visited
      ensures visited.refs <= old(visited.refs)
      ensures Grown(old(Snapshot()), Snapshot())
      ensures Rendered(Snapshot(), old(visited.refs), objName, schema, example, isRequest, r)
      ensures Guarded(schema, old(visited.refs)) ==> r == Undefined
      ensures !Guarded(schema, old(visited.refs)) && old(GetCache(schema)).Some? ==>
        r == ReBuildExample(Item(old(GetCache(schema)).value), isRequest)
      ensures !Guarded(schema, old(visited.refs)) && old(GetCache(schema)).None? && depthLimit > 0 ==>
        exists item :: Synthesized(depthLimit, Snapshot(), objName, schema, example, item) &&
          r == ReBuildExample(Item(item), isRequest)
    {
      var cache := MockCachedObj(objName, schema, example, visited, isRequest, depthLimit);
      r := ReBuildExample(cache, isRequest);
    }

    /** `mockCachedObj`: the cached item for `schema`, or a newly synthesised one.
        `fuel` bounds the depth of the walk; when it runs out the walk stops with
        `undefined`, as when the guard fires. */
    method MockCachedObj(objName: string, schema: SchemaNode, example: Value, visited: PathSet,
                         isRequest: bool, fuel: nat)
      returns (r: Slot)
      requires Valid() && NodeOk(loader, schema)
      modifies mockCache, visited
      decreases fuel, 3
      ensures ResultFor(fuel, Snapshot(), objName, schema, example, r)
      ensures visited.refs <= old(visited.refs)
      ensures Grown(old(Snapshot()), Snapshot())
      ensures Guarded(schema, old(visited.refs)) ==>
        r == Plain(Undefined) && visited.refs == old(visited.refs) && mockCache.caches == old(mockCache.caches)
      ensures !Guarded(schema, old(visited.refs)) && old(GetCache(schema)).Some? ==>
        r == Item(old(GetCache(schema)).value) &&
        visited.refs == old(visited.refs) && mockCache.caches == old(mockCache.caches)
      ensures !Guarded(schema, old(visited.refs)) && old(GetCache(schema)).None? && fuel > 0 ==>
        r.Item? && Synthesized(fuel, Snapshot(), objName, schema, example, r.item) &&
        (schema.RefNode? ==> schema.ref !in visited.refs) &&
        (schema.RefNode? && schema.ref != "" ==> GetCache(schema).Some?)
    {
      if !schema.IsObject() {
        return Plain(Undefined);
      }
      if schema.RefNode? && schema.ref in visited.refs {
        return Plain(Undefined);
      }
      var cache := GetCache(schema);
      if cache.Some? {
        return Item(cache.value);
      }
      if fuel == 0 {
        return Plain(Undefined);
      }
      var cacheItem := SynthesizeItem(objName, schema, example, visited, isRequest, fuel);
      ghost var built := Snapshot();
      if schema.RefNode? && schema.ref != "" {
        mockCache.CheckAndCache(schema, Some(cacheItem));
      }
      SynthesizedGrows(fuel, built, Snapshot(), objName, schema, example, cacheItem);
      r := Item(cacheItem);
    }

    /** The synthesis part of `mockCachedObj`, once the guard, the caches and the
        depth have let the walk through: resolve with the reference on the path,
        build the item by the definition's kind, then take the reference off the
        path again. */
    method SynthesizeItem(objName: string, schema: SchemaNode, example: Value, visited: PathSet,
                          isRequest: bool, fuel: nat)
      returns (cacheItem: CacheItem)
      requires Valid() && NodeOk(loader, schema) && schema.IsObject() && fuel > 0
      modifies mockCache, visited
      decreases fuel, 2
      ensures Synthesized(fuel, Snapshot(), objName, schema, example, cacheItem)
      ensures visited.refs <= old(visited.refs)
      ensures schema.RefNode? ==> schema.ref !in visited.refs
      ensures Grown(old(Snapshot()), Snapshot())
    {
      ResolvedOk(loader, schema);
      var definitionSpec := GetDefSpec(schema, visited);
      var option := BuildItemOption(Some(definitionSpec));
      if isObject(definitionSpec) {
        var fields := MockObjectBranch(objName, definitionSpec, example, visited, isRequest, fuel);
        cacheItem := CreateTrunkItem(Entries(fields), option);
      } else if definitionSpec.typeName == "array" {
        var arrItem := MockCachedObj(objName + "'s item", definitionSpec.items, ArrayExample(example), visited,
                                     isRequest, fuel - 1);
        cacheItem := CreateTrunkItem(Elements(mockArray(definitionSpec, objName, arrItem)), option);
      } else {
        cacheItem := Wrap(if Truthy(example) then example else mockValue(definitionSpec, objName), option);
      }
      RemoveFromSet(schema, visited);
    }

    /** The object branch of `mockCachedObj`: gather the properties, then either
        the discriminated variant or every property, then the
        `additionalProperties` key. A truthy example that is not an object is
        taken as `{}`. */
    method MockObjectBranch(objName: string, d: Definition, example: Value, visited: PathSet,
                            isRequest: bool, fuel: nat)
      returns (fields: map<string, Slot>)
      requires Valid() && DefOk(loader, d) && fuel > 0
      modifies mockCache, visited
      decreases fuel, 1
      ensures visited.refs <= old(visited.refs)
      ensures Grown(old(Snapshot()), Snapshot())
      ensures ObjectSynthesized(fuel, Snapshot(), objName, d, example, fields)
    {
      var properties := GetProperties(d, visited);
      GatheredOk(loader, d);
      var start := StartFields(example);
      var mid: map<string, Slot>;
      if d.discriminator.Some? && d.discriminator.value in properties {
        mid := MockForDiscriminator(properties[d.discriminator.value], start, d.discriminator.value,
                                    isRequest, visited, fuel);
      } else {
        mid := MockProperties(properties, start, example, visited, isRequest, fuel);
      }
      ghost var walked := Snapshot();
      fields := MockAdditionalProperty(objName, d, properties, mid, visited, isRequest, fuel);
      if DiscriminatorGathered(loader, d) {
        var disc := d.discriminator.value;
        var schema := properties[disc];
        if FirstVariantUsable(Resolve(loader, schema).value) {
          ghost var variant :| VariantFor(fuel, walked, schema, disc, variant) &&
            mid == Discriminated(loader, schema, start, disc, variant);
          VariantForGrows(fuel, walked, Snapshot(), schema, disc, variant);
        }
      } else {
        PropertiesBranchLifted(fuel, walked, Snapshot(), objName, d, example, mid, fields);
      }
    }

    /** The object branch without a discriminator: properties walked under the
        cache state `a`, then the `additionalProperties` key added under `b`,
        make the fields the walk yields under `b`. */
    lemma PropertiesBranchLifted(n: nat, a: CacheState, b: CacheState, objName: string, d: Definition,
                                 example: Value, mid: map<string, Slot>, fields: map<string, Slot>)
      requires Valid() && DefOk(loader, d) && n > 0 && Grown(a, b)
      requires !DiscriminatorGathered(loader, d)
      requires forall k :: k in Gathered(loader, d) ==> NodeOk(loader, Gathered(loader, d)[k])
      requires var start, props := StartFields(example), Gathered(loader, d);
        mid.Keys == start.Keys + props.Keys &&
        (forall k :: k in props ==> ResultFor(n - 1, a, k, props[k], Get(example, k), mid[k])) &&
        (forall k :: k in start && k !in props ==> mid[k] == start[k])
      requires mid.Keys <= fields.Keys
      requires AdditionalSynthesized(n, b, d, Gathered(loader, d), ChangedKeys(mid, fields), fields)
      ensures ObjectSynthesized(n, b, objName, d, example, fields)
    {
      var start, props := StartFields(example), Gathered(loader, d);
      forall k | k in props
        ensures ResultFor(n - 1, b, k, props[k], Get(example, k), fields[k])
      {
        assert k !in ChangedKeys(mid, fields);
        ResultForGrows(n - 1, a, b, k, props[k], Get(example, k), mid[k]);
      }
      ChangedOutside(start, mid, fields, props.Keys);
      AdditionalFewer(n, b, d, props, ChangedKeys(mid, fields), ChangedKeys(start, fields) - props.Keys, fields);
    }

    /** The `additionalProperties` step still holds for fewer changed keys. */
    lemma AdditionalFewer(n: nat, cs: CacheState, d: Definition, props: map<string, SchemaNode>,
                          changed: set<string>, fewer: set<string>, fields: map<string, Slot>)
      requires Valid() && DefOk(loader, d) && n > 0 && fewer <= changed
      requires AdditionalSynthesized(n, cs, d, props, changed, fields)
      ensures AdditionalSynthesized(n, cs, d, props, fewer, fields)
    {
    }

    /** The `forEach` over the gathered properties: each key is set to the result of
        walking its schema with the caller's value for it. */
    method MockProperties(props: map<string, SchemaNode>, start: map<string, Slot>, example: Value,
                          visited: PathSet, isRequest: bool, fuel: nat)
      returns (fields: map<string, Slot>)
      requires Valid() && fuel > 0
      requires forall k :: k in props ==> NodeOk(loader, props[k])
      modifies mockCache, visited
      decreases fuel, 0
      ensures fields.Keys == start.Keys + props.Keys
      ensures forall k :: k in props ==> ResultFor(fuel - 1, Snapshot(), k, props[k], Get(example, k), fields[k])
      ensures forall k :: k in start && k !in props ==> fields[k] == start[k]
      ensures visited.refs <= old(visited.refs)
      ensures Grown(old(Snapshot()), Snapshot())
    {
      fields := start;
      var pending := props.Keys;
      ghost var done: set<string> := {};
      while pending != {}
        invariant done !! pending && done + pending == props.Keys
        invariant fields.Keys == start.Keys + done
        invariant forall k :: k in done ==>
          ResultFor(fuel - 1, Snapshot(), k, props[k], Get(example, k), fields[k])
        invariant forall k :: k in start && k !in done ==> fields[k] == start[k]
        invariant visited.refs <= old(visited.refs)
        invariant Grown(old(Snapshot()), Snapshot())
        decreases pending
      {
        var key :| key in pending;
        ghost var before := Snapshot();
        var value := MockCachedObj(key, props[key], Get(example, key), visited, isRequest, fuel - 1);
        forall k | k in done
          ensures ResultFor(fuel - 1, Snapshot(), k, props[k], Get(example, k), fields[k])
        {
          ResultForGrows(fuel - 1, before, Snapshot(), k, props[k], Get(example, k), fields[k]);
        }
        GrownTransitive(old(Snapshot()), before, Snapshot());
        fields := fields[key := value];
        pending := pending - {key};
        done := done + {key};
      }
    }

    /** The `additionalProperties` step: when it is truthy, one random key is drawn;
        a key that names a gathered property is skipped (`console.error`), any
        other is set to the result of walking `additionalProperties`. */
    method MockAdditionalProperty(objName: string, d: Definition, props: map<string, SchemaNode>,
                                  before: map<string, Slot>, visited: PathSet, isRequest: bool, fuel: nat)
      returns (fields: map<string, Slot>)
      requires Valid() && DefOk(loader, d) && fuel > 0
      modifies mockCache, visited
      decreases fuel, 0
      ensures before.Keys <= fields.Keys
      ensures AdditionalSynthesized(fuel, Snapshot(), d, props, ChangedKeys(before, fields), fields)
      ensures !d.additionalProperties.IsTruthy() ==> fields == before
      ensures visited.refs <= old(visited.refs)
      ensures Grown(old(Snapshot()), Snapshot())
    {
      fields := before;
      if d.additionalProperties.IsTruthy() {
        var newKey: string :| true;
        if newKey !in props {
          var value := MockCachedObj(newKey, d.additionalProperties, Undefined, visited, isRequest, fuel - 1);
          fields := before[newKey := value];
          assert ChangedKeys(before, fields) <= {newKey};
        }
      }
    }

    /** `mockForDiscriminator`: the first `discriminatorMap` entry of the
        discriminator property is synthesised over `{}`; the discriminator key is
        set to a leaf holding the entry's tag and the variant's object child is laid
        over the example. Without a usable first entry the example is returned as
        it is. */
    method MockForDiscriminator(schema: SchemaNode, example: map<string, Slot>, discriminator: string,
                                isRequest: bool, visited: PathSet, fuel: nat)
      returns (r: map<string, Slot>)
      requires Valid() && NodeOk(loader, schema) && schema.IsObject() && fuel > 0
      modifies mockCache, visited
      decreases fuel, 0
      ensures example.Keys <= r.Keys
      ensures visited.refs <= old(visited.refs)
      ensures schema.RefNode? ==> schema.ref !in visited.refs
      ensures Grown(old(Snapshot()), Snapshot())
      ensures !FirstVariantUsable(Resolve(loader, schema).value) ==> r == example
      ensures FirstVariantUsable(Resolve(loader, schema).value) ==>
        exists variant :: VariantFor(fuel, Snapshot(), schema, discriminator, variant) &&
          r == Discriminated(loader, schema, example, discriminator, variant)
    {
      ResolvedOk(loader, schema);
      var disDetail := GetDefSpec(schema, visited);
      if disDetail.discriminatorMap.Variants? {
        var firstChildModel := disDetail.discriminatorMap.entries[0];
        var discriminatorSpec := firstChildModel.schema;
        if !discriminatorSpec.IsTruthy() {
          RemoveFromSet(schema, visited);
          return example;
        }
        var cacheItem := MockCachedObj(discriminator, discriminatorSpec, Obj(map[]), visited, isRequest, fuel - 1);
        var base := example[discriminator := Item(CreateLeafItem(Str(firstChildModel.tag), None))];
        RemoveFromSet(schema, visited);
        r := Spread(base, cacheItem);
        assert VariantFor(fuel, Snapshot(), schema, discriminator, cacheItem);
        return;
      }
      RemoveFromSet(schema, visited);
      r := example;
    }

    /** `mockHeaders`: a polling header only for 201 and 202. */
    function MockHeaders(statusCode: string, op: OperationSpec): (r: Value)
      ensures r != Undefined <==> (statusCode == "201" || statusCode == "202") && pollingAttr(op) != ""
      ensures r != Undefined ==> r == Obj(map[pollingAttr(op) := Str("LocationURl")])
    {
      if statusCode != "201" && statusCode != "202" then Undefined
      else
        var headerAttr := pollingAttr(op);
        if headerAttr == "" then Undefined
        else Obj(map[headerAttr := Str("LocationURl")])
    }

    /** One mocked response: `headers` and `body` keys; the headers are the
        example's `hearders` value if truthy, otherwise the polling header; the body
        is `undefined` when the response declares no schema, and otherwise the
        response rendering of the walk of the schema over the example's body or
        `{}`. */
    ghost predicate MockedResponse(cs: CacheState, statusCode: string, before: Value, op: OperationSpec, after: Value)
      requires Valid() && OperationOk(loader, op) && statusCode in op.responses
    {
      after.Obj? && after.fields.Keys == {"headers", "body"} &&
      after.fields["headers"] == Or(Get(before, "hearders"), MockHeaders(statusCode, op)) &&
      (op.responses[statusCode].schema.None? ==> after.fields["body"] == Undefined) &&
      (op.responses[statusCode].schema.Some? ==>
        Rendered(cs, {}, "response body", op.responses[statusCode].schema.value, Or(Get(before, "body"), Obj(map[])),
                 false, after.fields["body"]))
    }

    lemma MockedResponseGrows(a: CacheState, b: CacheState, statusCode: string, before: Value, op: OperationSpec,
                              after: Value)
      requires Valid() && OperationOk(loader, op) && statusCode in op.responses && Grown(a, b)
      requires MockedResponse(a, statusCode, before, op, after)
      ensures MockedResponse(b, statusCode, before, op, after)
    {
      if op.responses[statusCode].schema.Some? {
        RenderedGrows(a, b, {}, "response body", op.responses[statusCode].schema.value,
                      Or(Get(before, "body"), Obj(map[])), false, after.fields["body"]);
      }
    }

    /** `mockEachResponse`: the body is synthesised in the response direction over
        the example's body or `{}`, with a path of its own. */
    method MockEachResponse(statusCode: string, responseExample: Value, op: OperationSpec) returns (r: Value)
      requires Valid() && OperationOk(loader, op)
      requires statusCode in op.responses && !Nullish(responseExample)
      modifies mockCache
      ensures MockedResponse(Snapshot(), statusCode, responseExample, op, r)
      ensures Grown(old(Snapshot()), Snapshot())
    {
      var visited := new PathSet();
      var responseSpec := op.responses[statusCode];
      var headers := Or(Get(responseExample, "hearders"), MockHeaders(statusCode, op));
      var body := Undefined;
      if responseSpec.schema.Some? {
        body := MockObj("response body", responseSpec.schema.value, Or(Get(responseExample, "body"), Obj(map[])),
                        visited, false);
      }
      r := Obj(map["headers" := headers, "body" := body]);
    }

    /** `mockResponse`: every status of the example is replaced by its mocked
        response. */
    method MockResponse(responseExample: map<string, Value>, op: OperationSpec) returns (r: map<string, Value>)
      requires Valid() && OperationOk(loader, op)
      requires responseExample.Keys <= op.responses.Keys
      requires forall s :: s in responseExample ==> !Nullish(responseExample[s])
      modifies mockCache
      ensures r.Keys == responseExample.Keys
      ensures forall s :: s in r ==> MockedResponse(Snapshot(), s, responseExample[s], op, r[s])
      ensures Grown(old(Snapshot()), Snapshot())
    {
      r := responseExample;
      var pending := responseExample.Keys;
      while pending != {}
        invariant pending <= responseExample.Keys
        invariant r.Keys == responseExample.Keys
        invariant forall s :: s in r && s !in pending ==> MockedResponse(Snapshot(), s, responseExample[s], op, r[s])
        invariant forall s :: s in pending ==> r[s] == responseExample[s]
        invariant Grown(old(Snapshot()), Snapshot())
        decreases pending
      {
        var statusCode :| statusCode in pending;
        ghost var before := Snapshot();
        var mockedResp := MockEachResponse(statusCode, r[statusCode], op);
        forall s | s in r && s !in pending
          ensures MockedResponse(Snapshot(), s, responseExample[s], op, r[s])
        {
          MockedResponseGrows(before, Snapshot(), s, responseExample[s], op, r[s]);
        }
        GrownTransitive(old(Snapshot()), before, Snapshot());
        r := r[statusCode := mockedResp];
        pending := pending - {statusCode};
      }
    }

    /** The value `mockRequest` synthesises for the parameter `element`, if any: a
        body parameter gets the request rendering of the walk of its `schema` over
        the caller's value or `{}`; an absent parameter without a policy or
        `schema` gets the request rendering of the walk of the parameter node
        itself over `undefined`. */
    ghost predicate ParameterValueMocked(cs: CacheState, element: SchemaNode, before: map<string, Value>,
                                         after: map<string, Value>)
      requires Valid() && element.IsObject() && NodeOk(loader, element)
    {
      ResolvedOk(loader, element);
      var p := Resolve(loader, element).value;
      (p.name != "resourceGroupName" && p.name != "api-version" && p.schema.Some? ==>
        p.name in after &&
        Rendered(cs, OwnRef(element), p.name, p.schema.value, Or(MapGet(before, p.name), Obj(map[])), true,
                 after[p.name])) &&
      (PassThrough(p) && p.name !in before ==>
        p.name in after && Rendered(cs, {}, p.name, element, Undefined, true, after[p.name]))
    }

    /** A synthesised parameter value stays one while the caches grow and other
        keys change. */
    lemma ParameterValueCarried(a: CacheState, b: CacheState, element: SchemaNode, before: map<string, Value>,
                                after: map<string, Value>, later: map<string, Value>)
      requires Valid() && element.IsObject() && NodeOk(loader, element) && Grown(a, b)
      requires ParameterValueMocked(a, element, before, after)
      requires var name := Resolve(loader, element).value.name;
        name in after ==> name in later && later[name] == after[name]
      ensures ParameterValueMocked(b, element, before, later)
    {
      ResolvedOk(loader, element);
      var p := Resolve(loader, element).value;
      if p.name != "resourceGroupName" && p.name != "api-version" && p.schema.Some? {
        RenderedGrows(a, b, OwnRef(element), p.name, p.schema.value, Or(MapGet(before, p.name), Obj(map[])), true,
                      after[p.name]);
      }
      if PassThrough(p) && p.name !in before {
        RenderedGrows(a, b, {}, p.name, element, Undefined, true, after[p.name]);
      }
    }

    /** What `mockRequest` synthesises, for every parameter among the first `n`
        whose name no other of them has. */
    ghost predicate RequestValuesMocked(cs: CacheState, before: map<string, Value>, params: seq<SchemaNode>, n: nat,
                                        after: map<string, Value>)
      requires Valid() && ParamsOk(loader, params) && n <= |params|
    {
      var defs := ParamDefs(loader, params);
      forall j :: 0 <= j < n && UniqueName(defs, n, j) ==> ParameterValueMocked(cs, params[j], before, after)
    }

    /** Handling parameter `i` extends `RequestValuesMocked` from the first `i`
        parameters to the first `i + 1`. */
    lemma RequestValuesStep(a: CacheState, b: CacheState, before: map<string, Value>, params: seq<SchemaNode>,
                            i: nat, rp: string, version: Value, current: map<string, Value>, next: map<string, Value>)
      requires Valid() && ParamsOk(loader, params) && i < |params| && Grown(a, b)
      requires RequestMocked(before, ParamDefs(loader, params), i, rp, version, current)
      requires ParameterMocked(ParamDefs(loader, params)[i], rp, version, current, next)
      requires RequestValuesMocked(a, before, params, i, current)
      requires ParameterValueMocked(b, params[i], current, next)
      ensures RequestValuesMocked(b, before, params, i + 1, next)
    {
      var defs := ParamDefs(loader, params);
      var p := defs[i];
      forall j | 0 <= j < i + 1 && UniqueName(defs, i + 1, j)
        ensures ParameterValueMocked(b, params[j], before, next)
      {
        if j == i {
          FirstOfItsName(before, defs, i, rp, version, current);
          ParameterValueRebased(b, params[i], current, before, next);
        } else {
          assert UniqueName(defs, i, j);
          assert defs[j].name != p.name;
          ParameterValueCarried(a, b, params[j], before, current, next);
        }
      }
    }

    /** `ParameterValueMocked` reads the earlier example only at the parameter's name. */
    lemma ParameterValueRebased(cs: CacheState, element: SchemaNode, before: map<string, Value>,
                                other: map<string, Value>, after: map<string, Value>)
      requires Valid() && element.IsObject() && NodeOk(loader, element)
      requires var name := Resolve(loader, element).value.name;
        (name in before <==> name in other) && MapGet(before, name) == MapGet(other, name)
      requires ParameterValueMocked(cs, element, before, after)
      ensures ParameterValueMocked(cs, element, other, after)
    {
    }

    lemma RequestValuesGrow(a: CacheState, b: CacheState, before: map<string, Value>, params: seq<SchemaNode>,
                            n: nat, after: map<string, Value>)
      requires Valid() && ParamsOk(loader, params) && n <= |params| && Grown(a, b)
      requires RequestValuesMocked(a, before, params, n, after)
      ensures RequestValuesMocked(b, before, params, n, after)
    {
      forall j | 0 <= j < n && UniqueName(ParamDefs(loader, params), n, j)
        ensures ParameterValueMocked(b, params[j], before, after)
      {
        ParameterValueCarried(a, b, params[j], before, after, after);
      }
    }

    /** `mockRequest`: each parameter, with a path of its own, gets its policy
        value, a synthesised body, or, when absent, a synthesised value. */
    method MockRequest(paramExample: map<string, Value>, paramSpec: seq<SchemaNode>, rp: string)
      returns (r: map<string, Value>)
      requires Valid() && ParamsOk(loader, paramSpec) && spec.Some?
      modifies mockCache
      ensures RequestMocked(paramExample, ParamDefs(loader, paramSpec), |paramSpec|, rp, spec.value.version, r)
      ensures RequestValuesMocked(Snapshot(), paramExample, paramSpec, |paramSpec|, r)
      ensures Grown(old(Snapshot()), Snapshot())
    {
      r := paramExample;
      for i := 0 to |paramSpec|
        invariant RequestMocked(paramExample, ParamDefs(loader, paramSpec), i, rp, spec.value.version, r)
        invariant RequestValuesMocked(Snapshot(), paramExample, paramSpec, i, r)
        invariant Grown(old(Snapshot()), Snapshot())
      {
        ghost var before := Snapshot();
        var next := MockParameter(r, paramSpec[i], rp);
        RequestMockedStep(paramExample, ParamDefs(loader, paramSpec), i, rp, spec.value.version, r, next);
        RequestValuesStep(before, Snapshot(), paramExample, paramSpec, i, rp, spec.value.version, r, next);
        GrownTransitive(old(Snapshot()), before, Snapshot());
        r := next;
      }
    }

    /** One round of the loop of `mockRequest`, for the parameter `element`. */
    method MockParameter(paramExample: map<string, Value>, element: SchemaNode, rp: string)
      returns (r: map<string, Value>)
      requires Valid() && element.IsObject() && NodeOk(loader, element) && spec.Some?
      modifies mockCache
      ensures ParameterMocked(Resolve(loader, element).value, rp, spec.value.version, paramExample, r)
      ensures ParameterValueMocked(Snapshot(), element, paramExample, r)
      ensures Grown(old(Snapshot()), Snapshot())
    {
      r := paramExample;
      var visited := new PathSet();
      var paramEle := GetDefSpec(element, visited);
      if paramEle.name == "resourceGroupName" {
        r := r["resourceGroupName" := Str("rg" + rp)];
      } else if paramEle.name == "api-version" {
        r := r["api-version" := spec.value.version];
      } else if paramEle.schema.Some? {
        ResolvedOk(loader, element);
        var value := MockObj(paramEle.name, paramEle.schema.value, Or(MapGet(r, paramEle.name), Obj(map[])),
                             visited, true);
        BodyParameterMocked(Snapshot(), element, paramEle, rp, spec.value.version, r, value);
        r := r[paramEle.name := value];
      } else {
        if paramEle.name in r {
          return;
        }
        RemoveFromSet(element, visited);
        var value := MockObj(paramEle.name, element, MapGet(r, paramEle.name), visited, true);
        AbsentParameterMocked(Snapshot(), element, paramEle, rp, spec.value.version, r, value);
        r := r[paramEle.name := value];
      }
      RemoveFromSet(element, visited);
    }

    /** A body parameter set to the request rendering of its `schema`'s walk is
        mocked as `mockRequest` promises. */
    lemma BodyParameterMocked(cs: CacheState, element: SchemaNode, p: Definition, rp: string, version: Value,
                              before: map<string, Value>, value: Value)
      requires Valid() && element.IsObject() && NodeOk(loader, element)
      requires Resolve(loader, element) == Some(p) && DefOk(loader, p)
      requires p.name != "resourceGroupName" && p.name != "api-version" && p.schema.Some?
      requires Rendered(cs, OwnRef(element), p.name, p.schema.value, Or(MapGet(before, p.name), Obj(map[])), true,
                        value)
      ensures ParameterMocked(p, rp, version, before, before[p.name := value])
      ensures ParameterValueMocked(cs, element, before, before[p.name := value])
    {
    }

    /** An absent parameter without a policy or `schema`, set to the request
        rendering of its own walk over `undefined`, is mocked as `mockRequest`
        promises. */
    lemma AbsentParameterMocked(cs: CacheState, element: SchemaNode, p: Definition, rp: string, version: Value,
                                before: map<string, Value>, value: Value)
      requires Valid() && element.IsObject() && NodeOk(loader, element)
      requires Resolve(loader, element) == Some(p)
      requires PassThrough(p) && p.name !in before
      requires Rendered(cs, {}, p.name, element, MapGet(before, p.name), true, value)
      ensures ParameterMocked(p, rp, version, before, before[p.name := value])
      ensures ParameterValueMocked(cs, element, before, before[p.name := value])
    {
    }

    /** `mockForExample`: an example without responses first gets `{}` for every
        declared status except `default`; then the parameters and the responses
        are mocked in place. */
    method MockForExample(example: OperationExample, specItem: OperationSpec, spec: ApiSpec, rp: string)
      requires Valid() && OperationOk(loader, specItem)
      requires example.responses.Keys <= specItem.responses.Keys
      requires forall s :: s in example.responses ==> !Nullish(example.responses[s])
      modifies this, example, mockCache
      ensures this.spec == Some(spec)
      ensures RequestMocked(old(example.parameters), ParamDefs(loader, specItem.parameters), |specItem.parameters|,
                            rp, spec.version, example.parameters)
      ensures RequestValuesMocked(Snapshot(), old(example.parameters), specItem.parameters,
                                  |specItem.parameters|, example.parameters)
      ensures example.responses.Keys ==
        if old(example.responses) == map[] then specItem.responses.Keys - {"default"} else old(example.responses).Keys
      ensures forall s :: s in example.responses ==>
        MockedResponse(Snapshot(), s, if old(example.responses) == map[] then Obj(map[]) else old(example.responses)[s],
                       specItem, example.responses[s])
    {
      this.spec := Some(spec);
      if example.responses == map[] {
        var pending := specItem.responses.Keys;
        while pending != {}
          invariant pending <= specItem.responses.Keys
          invariant example.responses.Keys == (specItem.responses.Keys - pending) - {"default"}
          invariant forall s :: s in example.responses ==> example.responses[s] == Obj(map[])
          invariant this.spec == Some(spec) && example.parameters == old(example.parameters)
          decreases pending
        {
          var statusCode :| statusCode in pending;
          if statusCode != "default" {
            example.responses := example.responses[statusCode := Obj(map[])];
          }
          pending := pending - {statusCode};
        }
      }
      example.parameters := MockRequest(example.parameters, specItem.parameters, rp);
      ghost var requested := Snapshot();
      example.responses := MockResponse(example.responses, specItem);
      RequestValuesGrow(requested, Snapshot(), old(example.parameters), specItem.parameters,
                        |specItem.parameters|, example.parameters);
    }

    /** On `LoopGraph`, every walk of the inline `parent` schema nests `parent`
        exactly as deep as the bound `n` allows: no depth is ever enough, so the
        source's walk, which has no bound, never returns. */
    lemma {:induction false} InlineSelfReferenceNeverEnds(n: nat, cs: CacheState, example: Value, s: Slot)
      requires Valid() && loader == LoopGraph() && isObject(LoopParent())
      requires ResultFor(n, cs, "parent", InlineNode(LoopParent()), example, s)
      ensures ParentDepth(s) == n
      decreases n
    {
      LoopGraphGathered();
      var schema := InlineNode(LoopParent());
      if n > 0 {
        assert Lookup(cs, schema) == None;
        assert s.Item? && Synthesized(n, cs, "parent", schema, example, s.item);
        var fields := s.item.child.fields;
        assert ObjectSynthesized(n, cs, "parent", LoopParent(), example, fields);
        assert !DiscriminatorGathered(loader, LoopParent());
        InlineSelfReferenceNeverEnds(n - 1, cs, Get(example, "parent"), fields["parent"]);
      }
    }
  }
}
