/** The resolved API description the example engine walks: schema nodes, the
    definitions they resolve to, and the reference graph. Resolving a reference
    (`JsonLoader.resolveRefObj`) is a collaborator of the engine; here it is the
    finite map `SchemaGraph.defs` from a full `$ref` string to the definition the
    loader returns for it, reference chains already followed. */
module Schemas {
  import opened JsValues

  /** What stands where a schema is expected. */
  datatype SchemaNode =
      /** `undefined`, `null`, a boolean, a number or a string: not an object.
          `truthy` is its JavaScript truthiness (`additionalProperties: true`). */
    | NotSchema(truthy: bool)
      /** An object carrying `$ref`; its other keys are ignored by resolution. */
    | RefNode(ref: string)
      /** An object without `$ref`; it resolves to itself. */
    | InlineNode(def: Definition)
  {
    predicate IsObject() { !NotSchema? }
    predicate IsTruthy() { !NotSchema? || truthy }
  }

  /** The keys of a resolved schema or parameter object that the engine reads.
      An absent key is `NotSchema(false)`, `[]`, `map[]`, `None` or `Undefined`. */
  datatype Definition = Definition(
    name: string,                                         // a parameter's `name`
    typeName: string,                                     // `type`
    properties: map<string, SchemaNode>,                  // `properties`
    allOf: seq<SchemaNode>,                               // `allOf`
    discriminator: Option<string>,                        // `discriminator`
    discriminatorMap: VariantMap,                         // `discriminatorMap`
    additionalProperties: SchemaNode,                     // `additionalProperties`
    items: SchemaNode,                                    // `items`
    readOnly: Value,                                      // `readOnly`
    xMsSecret: Value,                                     // `x-ms-secret`
    schema: Option<SchemaNode>)                           // a parameter's or response's `schema`

  /** One entry of a `discriminatorMap`: a tag and the variant schema it selects. */
  datatype Variant = Variant(tag: string, schema: SchemaNode)

  /** A `discriminatorMap`, absent or its entries in declaration order. */
  datatype VariantMap = NoVariants | Variants(entries: seq<Variant>)

  /** `depth` witnesses that `allOf` inheritance is acyclic: a definition is
      deeper than every definition it inherits from (see `GraphOk`).
      `discriminators` holds every name some definition uses as its
      `discriminator`; a property of that name must be an object schema, since
      `mockForDiscriminator` evaluates `"$ref" in schema` on it. */
  datatype SchemaGraph = SchemaGraph(defs: map<string, Definition>, depth: map<string, nat>,
                                     discriminators: set<string>)

  function Depth(g: SchemaGraph, ref: string): nat
  {
    if ref in g.depth then g.depth[ref] else 0
  }

  /** `resolveRefObj`: a reference resolves through the graph, an inline object to
      itself, anything else to nothing. */
  function Resolve(g: SchemaGraph, node: SchemaNode): (r: Option<Definition>)
    ensures r.Some? <==> node.InlineNode? || (node.RefNode? && node.ref in g.defs)
    ensures node.RefNode? && node.ref in g.defs ==> r == Some(g.defs[node.ref])
    ensures node.InlineNode? ==> r == Some(node.def)
  {
    match node
    case NotSchema(_) => None
    case RefNode(ref) => if ref in g.defs then Some(g.defs[ref]) else None
    case InlineNode(def) => Some(def)
  }

  /** Every reference inside `node` (not following references) resolves, every
      `allOf` member is an object and so is every property schema named like a
      discriminator, as the engine needs in order not to throw (`"$ref" in item`).
      Any other property schema may be a non-object: the walk skips it. */
  predicate NodeOk(g: SchemaGraph, node: SchemaNode)
  {
    match node
    case NotSchema(_) => true
    case RefNode(ref) => ref in g.defs
    case InlineNode(def) => DefOk(g, def)
  }

  predicate DefOk(g: SchemaGraph, d: Definition)
  {
    (forall i :: 0 <= i < |d.allOf| ==> d.allOf[i].IsObject() && NodeOk(g, d.allOf[i])) &&
    (forall k :: k in d.properties ==>
      NodeOk(g, d.properties[k]) && (k in g.discriminators ==> d.properties[k].IsObject())) &&
    (d.discriminator.Some? ==> d.discriminator.value in g.discriminators) &&
    NodeOk(g, d.additionalProperties) &&
    NodeOk(g, d.items) &&
    (d.discriminatorMap.Variants? ==>
      |d.discriminatorMap.entries| > 0 &&
      forall i :: 0 <= i < |d.discriminatorMap.entries| ==> NodeOk(g, d.discriminatorMap.entries[i].schema)) &&
    (d.schema.Some? ==> NodeOk(g, d.schema.value))
  }

  /** One more than the deepest definition that `d` inherits from directly, looking
      through inline `allOf` members. */
  function InheritBound(g: SchemaGraph, d: Definition): nat
    decreases d, 1
  {
    InheritBoundUpTo(g, d, |d.allOf|)
  }

  function InheritBoundUpTo(g: SchemaGraph, d: Definition, n: nat): nat
    requires n <= |d.allOf|
    decreases d, 0, n
  {
    if n == 0 then 0
    else
      var member := d.allOf[n - 1];
      var b := match member
        case RefNode(ref) => Depth(g, ref) + 1
        case InlineNode(inner) => InheritBound(g, inner)
        case NotSchema(_) => 0;
      var rest := InheritBoundUpTo(g, d, n - 1);
      if rest < b then b else rest
  }

  /** The bound covers every member of the prefix it was computed over. */
  lemma {:induction false} InheritBoundCovers(g: SchemaGraph, d: Definition, n: nat, i: nat)
    requires i < n <= |d.allOf|
    ensures d.allOf[i].RefNode? ==> Depth(g, d.allOf[i].ref) < InheritBoundUpTo(g, d, n)
    ensures d.allOf[i].InlineNode? ==> InheritBound(g, d.allOf[i].def) <= InheritBoundUpTo(g, d, n)
  {
    if i < n - 1 {
      InheritBoundCovers(g, d, n - 1, i);
    }
  }

  /** The graph is closed under references and its `allOf` inheritance is acyclic. */
  predicate GraphOk(g: SchemaGraph)
  {
    forall ref :: ref in g.defs ==> DefOk(g, g.defs[ref]) && InheritBound(g, g.defs[ref]) <= Depth(g, ref)
  }

  /** A member of a well-formed definition's `allOf` resolves, to a definition that is
      itself well formed and strictly shallower in the inheritance order, or to an
      inline definition nested inside it. */
  lemma MemberResolves(g: SchemaGraph, d: Definition, i: nat)
    requires GraphOk(g) && DefOk(g, d) && i < |d.allOf|
    ensures Resolve(g, d.allOf[i]).Some?
    ensures DefOk(g, Resolve(g, d.allOf[i]).value)
    ensures InheritBound(g, Resolve(g, d.allOf[i]).value) <= InheritBound(g, d)
    ensures d.allOf[i].RefNode? ==> InheritBound(g, Resolve(g, d.allOf[i]).value) < InheritBound(g, d)
  {
    InheritBoundCovers(g, d, |d.allOf|, i);
  }

  /** A resolvable object node resolves to a well-formed definition. */
  lemma ResolvedOk(g: SchemaGraph, node: SchemaNode)
    requires GraphOk(g) && NodeOk(g, node) && node.IsObject()
    ensures Resolve(g, node).Some? && DefOk(g, Resolve(g, node).value)
  {
  }
}
