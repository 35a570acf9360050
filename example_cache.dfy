/** The cache tree of the example engine and its two caches
    (lib/generator/exampleCache.ts).

    A `CacheItem` is a tagged tree node: a leaf holding a value, or a trunk whose
    child is an ordered list or a name-to-item map. A trunk's child position holds
    a `Slot`: usually a `CacheItem`, but the synthesiser also stores `undefined`
    there (a property cut off by the cycle guard) and copies stray plain values
    from a caller's example, so a slot may hold a plain JavaScript value.
    Items are values here: the source's in-place update of a shared item is not
    modelled. */
module ExampleCache {
  import opened JsValues
  import opened Schemas

  /** `CacheItemOptions`; a flag the source leaves absent is `false`. */
  datatype ItemOptions = ItemOptions(isReadonly: bool, isXmsSecret: bool)

  /** `CacheItemChild`: an array of items or an object of items. */
  datatype Child = Elements(elems: seq<Slot>) | Entries(fields: map<string, Slot>)

  /** `CacheItem`: `isLeaf` holds exactly for `Leaf`, which carries `value`; a
      `Trunk` carries `child`. */
  datatype CacheItem =
    | Leaf(value: Value, options: Option<ItemOptions>)
    | Trunk(child: Child, options: Option<ItemOptions>)
  {
    predicate IsLeaf() { Leaf? }
  }

  /** What a trunk's child position, or a cache lookup, yields: an item, or a plain
      value that is not an item (`undefined` among them). Plain values are taken to
      carry none of the keys `isLeaf`, `child`, `options`. */
  datatype Slot = Plain(v: Value) | Item(item: CacheItem)

  predicate SlotTruthy(s: Slot)
  {
    s.Item? || Truthy(s.v)
  }

  predicate SlotNullish(s: Slot)
  {
    s.Plain? && Nullish(s.v)
  }

  /** A cache key: the fragment of a `$ref`. `None` is the `undefined` that
      `ref.split("#")[1]` yields for a reference without `#`, which a JavaScript
      `Map` accepts as a key of its own. */
  type CacheKey = Option<string>

  // ---------------------------------------------------------------------------
  // Keys

  /** Position of the first `c` in `s`, or `|s|`. */
  function IndexOf(s: string, c: char): (i: nat)
    ensures i <= |s| && c !in s[..i]
    ensures i < |s| ==> s[i] == c
  {
    if s == [] then 0
    else if s[0] == c then 0
    else
      var j := IndexOf(s[1..], c);
      assert s[..j + 1] == [s[0]] + s[1..][..j];
      j + 1
  }

  lemma {:induction false} IndexOfIsFirst(s: string, c: char, i: nat)
    requires i <= |s| && c !in s[..i] && (i < |s| ==> s[i] == c)
    ensures IndexOf(s, c) == i
  {
    if s != [] && s[0] != c {
      assert i > 0;
      assert s[1..][..i - 1] == s[..i][1..];
      IndexOfIsFirst(s[1..], c, i - 1);
    }
  }

  /** `ref.split("#")[1]`: the text between the first and the second `#` of the
      reference, or `undefined` when it has no `#`. */
  function Fragment(ref: string): (key: CacheKey)
    ensures key.None? <==> '#' !in ref
    ensures key.Some? ==> '#' !in key.value
  {
    var i := IndexOf(ref, '#');
    if i == |ref| then
      assert ref[..i] == ref;
      None
    else
      var rest := ref[i + 1..];
      Some(rest[..IndexOf(rest, '#')])
  }

  /** A reference `file#fragment`, or `file#fragment#more`, is cached under `fragment`. */
  lemma FragmentOfRef(file: string, frag: string, rest: string)
    requires '#' !in file && '#' !in frag
    ensures Fragment(file + "#" + frag) == Some(frag)
    ensures Fragment(file + "#" + frag + "#" + rest) == Some(frag)
  {
    var r1 := file + "#" + frag;
    var r2 := file + "#" + frag + "#" + rest;
    assert r1[..|file|] == file && r2[..|file|] == file;
    IndexOfIsFirst(r1, '#', |file|);
    IndexOfIsFirst(r2, '#', |file|);
    assert r1[|file| + 1..] == frag;
    assert r2[|file| + 1..] == frag + "#" + rest;
    assert frag[..|frag|] == frag;
    IndexOfIsFirst(frag, '#', |frag|);
    assert (frag + "#" + rest)[..|frag|] == frag;
    IndexOfIsFirst(frag + "#" + rest, '#', |frag|);
  }

  // ---------------------------------------------------------------------------
  // Building items

  /** `buildItemOption`: options only when the definition is read-only or secret. */
  function BuildItemOption(schema: Option<Definition>): (r: Option<ItemOptions>)
    ensures r.Some? <==> schema.Some? && (Truthy(schema.value.readOnly) || Truthy(schema.value.xMsSecret))
    ensures r.Some? ==> r.value.isReadonly == Truthy(schema.value.readOnly)
    ensures r.Some? ==> r.value.isXmsSecret == Truthy(schema.value.xMsSecret)
  {
    if schema.Some? then
      var isReadonly := Truthy(schema.value.readOnly);
      var isXmsSecret := Truthy(schema.value.xMsSecret);
      if !isReadonly && !isXmsSecret then None
      else
        var option := if isReadonly then ItemOptions(true, false) else ItemOptions(false, false);
        Some(if isXmsSecret then option.(isXmsSecret := true) else option)
    else None
  }

  /** `createLeafItem` */
  function CreateLeafItem(itemValue: Value, option: Option<ItemOptions>): (item: CacheItem)
    ensures item.IsLeaf() && item.value == itemValue
    ensures item.options == option
  {
    Leaf(itemValue, option)
  }

  /** `createTrunkItem` */
  function CreateTrunkItem(itemValue: Child, option: Option<ItemOptions>): (item: CacheItem)
    ensures !item.IsLeaf() && item.child == itemValue
    ensures item.options == option
  {
    Trunk(itemValue, option)
  }

  // ---------------------------------------------------------------------------
  // Rendering

  /** `shouldSkip`: the node is hidden in this direction. */
  predicate ShouldSkip(cache: Slot, isRequest: bool)
  {
    cache.Item? && cache.item.options.Some? &&
    ((isRequest && cache.item.options.value.isReadonly) ||
     (!isRequest && cache.item.options.value.isXmsSecret))
  }

  /** `reBuildExample`: the plain value a tree stands for in one direction.
      The skip test inside the source's two loops re-tests the parent, which has
      already passed it, so it never skips a child. */
  function ReBuildExample(cache: Slot, isRequest: bool): (r: Value)
    ensures !cache.Item? ==> r == Undefined
    ensures ShouldSkip(cache, isRequest) ==> r == Undefined
    ensures cache.Item? && cache.item.IsLeaf() && !ShouldSkip(cache, isRequest) ==> r == cache.item.value
    ensures cache.Item? && cache.item.Trunk? && !ShouldSkip(cache, isRequest) ==>
      r.Arr? == cache.item.child.Elements? && r.Obj? == cache.item.child.Entries?
  {
    match cache
    case Plain(_) => Undefined
    case Item(item) =>
      if ShouldSkip(cache, isRequest) then Undefined
      else match item
        case Leaf(value, _) => value
        case Trunk(Elements(elems), _) =>
          Arr(seq(|elems|, i requires 0 <= i < |elems| => ReBuildExample(elems[i], isRequest)))
        case Trunk(Entries(fields), _) =>
          Obj(map key | key in fields && ReBuildExample(fields[key], isRequest) != Undefined
                      :: ReBuildExample(fields[key], isRequest))
  }

  /** An array trunk renders one entry per child, in order. */
  lemma RenderedArray(item: CacheItem, isRequest: bool)
    requires item.Trunk? && item.child.Elements? && !ShouldSkip(Item(item), isRequest)
    ensures var r := ReBuildExample(Item(item), isRequest);
      r.Arr? && |r.elems| == |item.child.elems| &&
      forall i :: 0 <= i < |r.elems| ==> r.elems[i] == ReBuildExample(item.child.elems[i], isRequest)
  {
  }

  /** An object trunk renders exactly the keys whose child renders to a value. */
  lemma RenderedObject(item: CacheItem, isRequest: bool)
    requires item.Trunk? && item.child.Entries? && !ShouldSkip(Item(item), isRequest)
    ensures var r := ReBuildExample(Item(item), isRequest);
      r.Obj? &&
      (forall key :: key in r.fields <==>
        key in item.child.fields && ReBuildExample(item.child.fields[key], isRequest) != Undefined) &&
      (forall key :: key in r.fields ==> r.fields[key] == ReBuildExample(item.child.fields[key], isRequest))
  {
  }

  /** An object trunk whose children all vanish renders `{}`, not `undefined`. */
  lemma RenderedEmptyObject(item: CacheItem, isRequest: bool)
    requires item.Trunk? && item.child.Entries? && !ShouldSkip(Item(item), isRequest)
    requires forall key :: key in item.child.fields ==> ReBuildExample(item.child.fields[key], isRequest) == Undefined
    ensures ReBuildExample(Item(item), isRequest) == Obj(map[])
  {
    var r := ReBuildExample(Item(item), isRequest);
    assert r.fields.Keys == {};
  }

  /** Direction filtering: a read-only node vanishes from requests and a secret node
      from responses; otherwise the flag does not change the rendering. */
  lemma DirectionFiltering(item: CacheItem)
    requires item.options.Some?
    ensures item.options.value.isReadonly ==> ReBuildExample(Item(item), true) == Undefined
    ensures item.options.value.isXmsSecret ==> ReBuildExample(Item(item), false) == Undefined
    ensures !item.options.value.isReadonly ==>
      ReBuildExample(Item(item), true) == ReBuildExample(Item(item.(options := None)), true)
    ensures !item.options.value.isXmsSecret ==>
      ReBuildExample(Item(item), false) == ReBuildExample(Item(item.(options := None)), false)
  {
  }

  /** Every leaf value inside the tree is free of `undefined` keys. */
  predicate LeavesClean(cache: Slot)
  {
    cache.Item? ==>
      match cache.item
      case Leaf(value, _) => NoUndefinedFields(value)
      case Trunk(Elements(elems), _) => forall i :: 0 <= i < |elems| ==> LeavesClean(elems[i])
      case Trunk(Entries(fields), _) => forall key :: key in fields ==> LeavesClean(fields[key])
  }

  /** A key whose rendering is `undefined` is omitted at every depth: no rendered
      object holds `undefined`. */
  lemma {:induction false} RenderOmitsUndefined(cache: Slot, isRequest: bool)
    requires LeavesClean(cache)
    ensures NoUndefinedFields(ReBuildExample(cache, isRequest))
  {
    if cache.Item? && !ShouldSkip(cache, isRequest) {
      match cache.item
      case Leaf(_, _) =>
      case Trunk(Elements(elems), _) =>
        var r := ReBuildExample(cache, isRequest);
        forall i | 0 <= i < |r.elems| ensures NoUndefinedFields(r.elems[i]) {
          RenderOmitsUndefined(elems[i], isRequest);
        }
      case Trunk(Entries(fields), _) =>
        var r := ReBuildExample(cache, isRequest);
        forall key | key in r.fields ensures r.fields[key] != Undefined && NoUndefinedFields(r.fields[key]) {
          RenderOmitsUndefined(fields[key], isRequest);
        }
    }
  }

  // ---------------------------------------------------------------------------
  // Caches

  /** First-writer-wins insertion. */
  function SetOnce(m: map<CacheKey, CacheItem>, key: CacheKey, item: CacheItem): (r: map<CacheKey, CacheItem>)
    ensures r.Keys == m.Keys + {key}
    ensures r[key] == if key in m then m[key] else item
    ensures forall k :: k in m ==> r[k] == m[k]
  {
    if key in m then m else m[key := item]
  }

  /** A second insertion under a key never changes what the first one stored. */
  lemma {:induction false} FirstWriterWins(m: map<CacheKey, CacheItem>, key: CacheKey, first: CacheItem, second: CacheItem)
    ensures SetOnce(SetOnce(m, key, first), key, second) == SetOnce(m, key, first)
    ensures SetOnce(SetOnce(m, key, first), key, second)[key] == if key in m then m[key] else first
  {
  }

  /** `b` keeps every entry of `a`. */
  predicate Extends(a: map<CacheKey, CacheItem>, b: map<CacheKey, CacheItem>)
  {
    forall k :: k in a ==> k in b && b[k] == a[k]
  }

  /** `MockerCache`: reference fragment to item, first writer wins. */
  class MockerCache {
    var caches: map<CacheKey, CacheItem>

    constructor()
      ensures caches == map[]
    {
      caches := map[];
    }

    predicate Has(modelName: CacheKey)
      reads this
    {
      modelName in caches
    }

    function Get(modelName: CacheKey): (r: Option<CacheItem>)
      reads this
      ensures r.Some? <==> Has(modelName)
      ensures r.Some? ==> r.value == caches[modelName]
    {
      if Has(modelName) then Some(caches[modelName]) else None
    }

    method Set(modelName: CacheKey, example: CacheItem)
      modifies this
      ensures caches == SetOnce(old(caches), modelName, example)
    {
      if !Has(modelName) {
        caches := caches[modelName := example];
      }
    }

    /** Caches `example` under the schema's reference fragment unless that key is
        taken; nothing happens for a missing schema or item or a schema without
        `$ref`. A truthy non-object schema makes `"$ref" in schema` throw. */
    method CheckAndCache(schema: SchemaNode, example: Option<CacheItem>)
      requires schema.IsObject() || !schema.IsTruthy()
      modifies this
      ensures caches ==
        if schema.RefNode? && example.Some? then SetOnce(old(caches), Fragment(schema.ref), example.value)
        else old(caches)
    {
      if !schema.IsTruthy() || example.None? {
        return;
      }
      if schema.RefNode? && !Has(Fragment(schema.ref)) {
        caches := caches[Fragment(schema.ref) := example.value];
      }
    }
  }

  // ---------------------------------------------------------------------------
  // Merging

  /** `mergeItem(target, source)` as a value: array children gain the source's
      extra tail, object children gain the source's keys and merge shared keys,
      anything else leaves the target as it is. A source entry that is `undefined`
      or `null` under a truthy target entry leaves that entry alone (the source
      throws there; see `MergeItemAsWritten`). */
  function Merged(target: Slot, source: Slot): (r: Slot)
    ensures target.Item? ==> r.Item? && r.item.IsLeaf() == target.item.IsLeaf()
    ensures target.Item? ==> r.item.options == target.item.options
    ensures target.Item? && target.item.Trunk? ==> r.item.child.Elements? == target.item.child.Elements?
    ensures !(target.Item? && target.item.Trunk? && source.Item? && source.item.Trunk?) ==> r == target
    decreases source, 1
  {
    if target.Item? && target.item.Trunk? && source.Item? && source.item.Trunk? then
      match (target.item.child, source.item.child)
      case (Elements(te), Elements(se)) =>
        if |te| < |se| then Item(target.item.(child := Elements(te + se[|te|..]))) else target
      case (Entries(tf), Entries(sf)) =>
        Item(target.item.(child := Entries(map key | key in tf.Keys + sf.Keys :: MergedEntry(target, source, key))))
      case _ => target
    else target
  }

  /** The merged value of one key of two object trunks. */
  function MergedEntry(target: Slot, source: Slot, key: string): Slot
    requires target.Item? && target.item.Trunk? && target.item.child.Entries?
    requires source.Item? && source.item.Trunk? && source.item.child.Entries?
    decreases source, 0
  {
    var tf, sf := target.item.child.fields, source.item.child.fields;
    if key !in sf then (if key in tf then tf[key] else Plain(Undefined))
    else if key !in tf || !SlotTruthy(tf[key]) then sf[key]
    else if SlotNullish(sf[key]) then tf[key]
    else Merged(tf[key], sf[key])
  }

  /** Two trunks that meet during a merge hold the same kind of child, at every depth
      the merge reaches. */
  predicate Compatible(target: Slot, source: Slot)
    decreases source
  {
    target.Item? && target.item.Trunk? && source.Item? && source.item.Trunk? ==>
      match (target.item.child, source.item.child)
      case (Elements(_), Elements(_)) => true
      case (Entries(tf), Entries(sf)) =>
        forall key :: key in sf && key in tf && SlotTruthy(tf[key]) ==> Compatible(tf[key], sf[key])
      case _ => false
  }

  /** Array children: the target's elements stay as a prefix, the result is as long
      as the longer list, and the extra elements are the source's tail in order. */
  lemma MergedElements(target: CacheItem, source: CacheItem)
    requires target.Trunk? && target.child.Elements? && source.Trunk? && source.child.Elements?
    ensures var r := Merged(Item(target), Item(source)).item.child.elems;
      var te, se := target.child.elems, source.child.elems;
      |r| == (if |te| < |se| then |se| else |te|) &&
      r[..|te|] == te &&
      (forall i :: |te| <= i < |r| ==> r[i] == se[i])
  {
  }

  /** Object children: the key set is the union; target-only keys are untouched;
      source-only keys and keys whose target entry is falsy take the source entry;
      shared keys are merged recursively. */
  lemma MergedEntries(target: CacheItem, source: CacheItem)
    requires target.Trunk? && target.child.Entries? && source.Trunk? && source.child.Entries?
    ensures var r := Merged(Item(target), Item(source)).item.child.fields;
      var tf, sf := target.child.fields, source.child.fields;
      r.Keys == tf.Keys + sf.Keys &&
      (forall key :: key in tf && key !in sf ==> r[key] == tf[key]) &&
      (forall key :: key in sf && (key !in tf || !SlotTruthy(tf[key])) ==> r[key] == sf[key]) &&
      (forall key :: key in sf && key in tf && SlotTruthy(tf[key]) && !SlotNullish(sf[key]) ==>
        r[key] == Merged(tf[key], sf[key]))
  {
  }

  /** Merging never loses anything the target rendered: in either direction the
      rendering of the merged tree carries the rendering of the target. */
  lemma {:induction false} MergeKeepsTargetRendering(target: Slot, source: Slot, isRequest: bool)
    ensures SubValue(ReBuildExample(target, isRequest), ReBuildExample(Merged(target, source), isRequest))
    decreases source
  {
    var before := ReBuildExample(target, isRequest);
    var merged := Merged(target, source);
    var after := ReBuildExample(merged, isRequest);
    if target.Item? && target.item.Trunk? && source.Item? && source.item.Trunk? && !ShouldSkip(target, isRequest) {
      assert !ShouldSkip(merged, isRequest);
      match (target.item.child, source.item.child)
      case (Elements(te), Elements(se)) =>
        var me := merged.item.child.elems;
        assert |te| <= |me| && me[..|te|] == te;
        forall i | 0 <= i < |before.elems| ensures SubValue(before.elems[i], after.elems[i]) {
          assert me[i] == te[i];
          SubValueReflexive(before.elems[i]);
        }
      case (Entries(tf), Entries(sf)) =>
        var mf := merged.item.child.fields;
        forall key | key in before.fields
          ensures key in after.fields && SubValue(before.fields[key], after.fields[key])
        {
          var b := ReBuildExample(tf[key], isRequest);
          assert b == before.fields[key] && b != Undefined;
          assert mf[key] == MergedEntry(target, source, key);
          if key in sf && !SlotNullish(sf[key]) {
            MergeKeepsTargetRendering(tf[key], sf[key], isRequest);
          } else {
            SubValueReflexive(b);
          }
          SubValueKeepsPresence(b, ReBuildExample(mf[key], isRequest));
        }
      case _ =>
        SubValueReflexive(before);
    } else {
      SubValueReflexive(before);
    }
  }

  /** Merging a tree with itself changes nothing. */
  lemma {:induction false} MergeSelfIsIdentity(item: Slot)
    ensures Merged(item, item) == item
    decreases item
  {
    if item.Item? && item.item.Trunk? && item.item.child.Entries? {
      var tf := item.item.child.fields;
      var mf := Merged(item, item).item.child.fields;
      forall key | key in tf ensures mf[key] == tf[key] {
        assert mf[key] == MergedEntry(item, item, key);
        if SlotTruthy(tf[key]) && !SlotNullish(tf[key]) {
          MergeSelfIsIdentity(tf[key]);
        }
      }
      assert mf == tf;
    }
  }

  /** `mergeItem` exactly as written: `None` where it throws a TypeError, which it
      does whenever it reads `child` of an `undefined` or `null` target or source,
      as it does for a source entry that is `undefined` under a truthy target entry. */
  function MergeItemAsWritten(target: Slot, source: Slot): (r: Option<Slot>)
    requires Compatible(target, source)
    ensures SlotNullish(target) || SlotNullish(source) ==> r.None?
    ensures (!SlotNullish(target) && !SlotNullish(source) &&
             !(target.Item? && target.item.Trunk? && source.Item? && source.item.Trunk?)) ==>
      r == Some(target)
    decreases source
  {
    if SlotNullish(target) || SlotNullish(source) then None
    else if target.Item? && target.item.Trunk? && source.Item? && source.item.Trunk? then
      match (target.item.child, source.item.child)
      case (Elements(te), Elements(se)) =>
        Some(if |te| < |se| then Item(target.item.(child := Elements(te + se[|te|..]))) else target)
      case (Entries(tf), Entries(sf)) =>
        if exists key :: key in sf && key in tf && SlotTruthy(tf[key]) && MergeItemAsWritten(tf[key], sf[key]).None?
        then None
        else Some(Item(target.item.(child := Entries(map key | key in tf.Keys + sf.Keys ::
          if key in sf && key in tf && SlotTruthy(tf[key]) then MergeItemAsWritten(tf[key], sf[key]).value
          else if key in sf then sf[key]
          else tf[key]))))
    else Some(target)
  }

  /** Wherever the source does not throw, it computes `Merged`. */
  lemma {:induction false} AsWrittenAgreesWhenItReturns(target: Slot, source: Slot)
    requires Compatible(target, source)
    requires MergeItemAsWritten(target, source).Some?
    ensures MergeItemAsWritten(target, source).value == Merged(target, source)
    decreases source
  {
    if target.Item? && target.item.Trunk? && source.Item? && source.item.Trunk? &&
       target.item.child.Entries? && source.item.child.Entries? {
      var tf, sf := target.item.child.fields, source.item.child.fields;
      var aw := MergeItemAsWritten(target, source).value.item.child.fields;
      var mf := Merged(target, source).item.child.fields;
      forall key | key in tf.Keys + sf.Keys ensures aw[key] == mf[key] {
        assert mf[key] == MergedEntry(target, source, key);
        if key in sf && key in tf && SlotTruthy(tf[key]) {
          assert MergeItemAsWritten(tf[key], sf[key]).Some?;
          assert !SlotNullish(sf[key]);
          AsWrittenAgreesWhenItReturns(tf[key], sf[key]);
        }
      }
      assert aw == mf;
    }
  }

  /** The source throws on a response tree that lacks a value the request tree has:
      request `{a: 1}` merged with response `{a: undefined}`. */
  lemma AsWrittenThrowsOnUndefinedSourceEntry()
    ensures var target := Item(Trunk(Entries(map["a" := Item(Leaf(Num(1), None))]), None));
      var source := Item(Trunk(Entries(map["a" := Plain(Undefined)]), None));
      Compatible(target, source) &&
      MergeItemAsWritten(target, source).None? &&
      Merged(target, source) == target
  {
    var target := Item(Trunk(Entries(map["a" := Item(Leaf(Num(1), None))]), None));
    var source := Item(Trunk(Entries(map["a" := Plain(Undefined)]), None));
    var tf, sf := target.item.child.fields, source.item.child.fields;
    assert MergeItemAsWritten(tf["a"], sf["a"]).None?;
    assert Merged(target, source).item.child.fields == tf;
  }

  // ---------------------------------------------------------------------------
  // Reconciling the two directions

  /** The item `mergeCache` stores for a key of either direction map. */
  function ReconciledItem(req: map<CacheKey, CacheItem>, resp: map<CacheKey, CacheItem>, key: CacheKey): CacheItem
    requires key in req || key in resp
  {
    if key in req then
      if key in resp && !req[key].IsLeaf() && !resp[key].IsLeaf() then Merged(Item(req[key]), Item(resp[key])).item
      else req[key]
    else resp[key]
  }

  function Reconciled(req: map<CacheKey, CacheItem>, resp: map<CacheKey, CacheItem>): (r: map<CacheKey, CacheItem>)
    ensures r.Keys == req.Keys + resp.Keys
  {
    map key | key in req.Keys + resp.Keys :: ReconciledItem(req, resp, key)
  }

  /** First-writer-wins insertion of every entry of `incoming`. */
  function Absorb(merged: map<CacheKey, CacheItem>, incoming: map<CacheKey, CacheItem>): (r: map<CacheKey, CacheItem>)
    ensures r.Keys == merged.Keys + incoming.Keys
    ensures Extends(merged, r)
    ensures forall key :: key in incoming && key !in merged ==> r[key] == incoming[key]
  {
    map key | key in merged.Keys + incoming.Keys :: if key in merged then merged[key] else incoming[key]
  }

  /** Keys whose request item is a trunk and whose response item is a leaf. */
  function Inconsistent(req: map<CacheKey, CacheItem>, resp: map<CacheKey, CacheItem>): (r: set<CacheKey>)
    ensures forall key :: key in r <==> key in req && key in resp && !req[key].IsLeaf() && resp[key].IsLeaf()
  {
    set key | key in req && key in resp && !req[key].IsLeaf() && resp[key].IsLeaf()
  }

  /** The outcome of `mergeCache` for one key, case by case. */
  lemma ReconciledCases(merged: map<CacheKey, CacheItem>, req: map<CacheKey, CacheItem>,
                        resp: map<CacheKey, CacheItem>, key: CacheKey)
    requires key in merged || key in req || key in resp
    ensures var r := Absorb(merged, Reconciled(req, resp));
      key in r &&
      (key in merged ==> r[key] == merged[key]) &&
      (key !in merged && key in req && key !in resp ==> r[key] == req[key]) &&
      (key !in merged && key in req && req[key].IsLeaf() ==> r[key] == req[key]) &&
      (key !in merged && key in req && key in resp && !req[key].IsLeaf() && resp[key].IsLeaf() ==>
        r[key] == req[key] && key in Inconsistent(req, resp)) &&
      (key !in merged && key in req && key in resp && !req[key].IsLeaf() && !resp[key].IsLeaf() ==>
        r[key] == Merged(Item(req[key]), Item(resp[key])).item) &&
      (key !in merged && key !in req ==> r[key] == resp[key])
  {
  }

  /** The canonical view of a key that `mergeCache` adds carries everything the
      request view rendered, in both directions. */
  lemma CanonicalKeepsRequestRendering(merged: map<CacheKey, CacheItem>, req: map<CacheKey, CacheItem>,
                                       resp: map<CacheKey, CacheItem>, key: CacheKey, isRequest: bool)
    requires key in req && key !in merged
    ensures var r := Absorb(merged, Reconciled(req, resp));
      SubValue(ReBuildExample(Item(req[key]), isRequest), ReBuildExample(Item(r[key]), isRequest))
  {
    var r := Absorb(merged, Reconciled(req, resp));
    if key in resp && !req[key].IsLeaf() && !resp[key].IsLeaf() {
      MergeKeepsTargetRendering(Item(req[key]), Item(resp[key]), isRequest);
    } else {
      SubValueReflexive(ReBuildExample(Item(req[key]), isRequest));
    }
  }

  /** `PayloadCache`: request-direction and response-direction maps, filled while
      examples are synthesised, and the merged map they are reconciled into. */
  class PayloadCache {
    var requestCaches: map<CacheKey, CacheItem>
    var responseCaches: map<CacheKey, CacheItem>
    var mergedCaches: map<CacheKey, CacheItem>
    /** The keys `mergeCache` has reported as inconsistent (`console.error`). */
    ghost var inconsistencies: set<CacheKey>

    constructor()
      ensures requestCaches == map[] && responseCaches == map[] && mergedCaches == map[]
      ensures inconsistencies == {}
    {
      requestCaches, responseCaches, mergedCaches := map[], map[], map[];
      inconsistencies := {};
    }

    predicate HasByDirection(modelName: CacheKey, isRequest: bool)
      reads this
    {
      modelName in (if isRequest then requestCaches else responseCaches)
    }

    method SetByDirection(modelName: CacheKey, example: CacheItem, isRequest: bool)
      modifies this
      ensures isRequest ==> requestCaches == SetOnce(old(requestCaches), modelName, example)
      ensures isRequest ==> responseCaches == old(responseCaches)
      ensures !isRequest ==> responseCaches == SetOnce(old(responseCaches), modelName, example)
      ensures !isRequest ==> requestCaches == old(requestCaches)
      ensures mergedCaches == old(mergedCaches) && inconsistencies == old(inconsistencies)
    {
      if !HasByDirection(modelName, isRequest) {
        if isRequest {
          requestCaches := requestCaches[modelName := example];
        } else {
          responseCaches := responseCaches[modelName := example];
        }
      }
    }

    function GetByDirection(modelName: CacheKey, isRequest: bool): (r: Option<CacheItem>)
      reads this
      ensures r.Some? <==> HasByDirection(modelName, isRequest)
      ensures r.Some? ==> r.value == (if isRequest then requestCaches else responseCaches)[modelName]
    {
      var cache := if isRequest then requestCaches else responseCaches;
      if modelName in cache then Some(cache[modelName]) else None
    }

    function Get(modelName: CacheKey): (r: Option<CacheItem>)
      reads this
      ensures r.Some? <==> Has(modelName)
      ensures r.Some? ==> r.value == mergedCaches[modelName]
    {
      if modelName in mergedCaches then Some(mergedCaches[modelName]) else None
    }

    method Set(key: CacheKey, value: CacheItem)
      modifies this
      ensures mergedCaches == SetOnce(old(mergedCaches), key, value)
      ensures requestCaches == old(requestCaches) && responseCaches == old(responseCaches)
      ensures inconsistencies == old(inconsistencies)
    {
      if key !in mergedCaches {
        mergedCaches := mergedCaches[key := value];
      }
    }

    predicate Has(modelName: CacheKey)
      reads this
    {
      modelName in mergedCaches
    }

    /** Caches `example` in the map of one direction only, first writer wins. */
    method CheckAndCache(schema: SchemaNode, example: Option<CacheItem>, isRequest: bool)
      requires schema.IsObject() || !schema.IsTruthy()
      modifies this
      ensures mergedCaches == old(mergedCaches) && inconsistencies == old(inconsistencies)
      ensures isRequest ==> responseCaches == old(responseCaches)
      ensures !isRequest ==> requestCaches == old(requestCaches)
      ensures isRequest ==> (requestCaches ==
        if schema.RefNode? && example.Some? then SetOnce(old(requestCaches), Fragment(schema.ref), example.value)
        else old(requestCaches))
      ensures !isRequest ==> (responseCaches ==
        if schema.RefNode? && example.Some? then SetOnce(old(responseCaches), Fragment(schema.ref), example.value)
        else old(responseCaches))
    {
      if !schema.IsTruthy() || example.None? {
        return;
      }
      if schema.RefNode? && !HasByDirection(Fragment(schema.ref), isRequest) {
        SetByDirection(Fragment(schema.ref), example.value, isRequest);
      }
    }

    /** `mergeItem`: the loop over the source's keys writes into the target's
        object one key at a time. */
    method MergeItem(target: Slot, source: Slot) returns (result: Slot)
      requires Compatible(target, source)
      ensures result == Merged(target, source)
      decreases source
    {
      result := target;
      if target.Item? && target.item.Trunk? && source.Item? && source.item.Trunk? {
        if target.item.child.Elements? && source.item.child.Elements? {
          var te, se := target.item.child.elems, source.item.child.elems;
          if |te| < |se| {
            result := Item(target.item.(child := Elements(te + se[|te|..])));
          }
        } else if target.item.child.Entries? && source.item.child.Entries? {
          var tf, sf := target.item.child.fields, source.item.child.fields;
          var resultObj := tf;
          var keys := sf.Keys;
          while keys != {}
            invariant keys <= sf.Keys
            invariant resultObj.Keys == tf.Keys + (sf.Keys - keys)
            invariant forall key :: key in resultObj ==>
              resultObj[key] == if key in sf.Keys - keys then MergedEntry(target, source, key) else tf[key]
            decreases keys
          {
            var key :| key in keys;
            if key !in resultObj || !SlotTruthy(resultObj[key]) {
              resultObj := resultObj[key := sf[key]];
            } else if !SlotNullish(sf[key]) {
              var m := MergeItem(resultObj[key], sf[key]);
              resultObj := resultObj[key := m];
            }
            keys := keys - {key};
          }
          result := Item(target.item.(child := Entries(resultObj)));
          assert resultObj == Merged(target, source).item.child.fields;
        }
      }
    }

    /** One round of the loop over the request map in `mergeCache`. */
    method ReconcileRequestEntry(key: CacheKey)
      requires key in requestCaches
      requires key in responseCaches ==> Compatible(Item(requestCaches[key]), Item(responseCaches[key]))
      modifies this
      ensures requestCaches == old(requestCaches) && responseCaches == old(responseCaches)
      ensures mergedCaches == SetOnce(old(mergedCaches), key, ReconciledItem(requestCaches, responseCaches, key))
      ensures inconsistencies ==
        old(inconsistencies) + (if key in Inconsistent(requestCaches, responseCaches) then {key} else {})
    {
      var requestCache := requestCaches[key];
      if HasByDirection(key, false) && !requestCache.IsLeaf() {
        var responseCache := GetByDirection(key, false);
        if responseCache.Some? {
          if responseCache.value.IsLeaf() {
            inconsistencies := inconsistencies + {key};
          } else {
            var mergedCache := MergeItem(Item(requestCache), Item(responseCache.value));
            Set(key, mergedCache.item);
            return;
          }
        }
      }
      Set(key, requestCache);
    }

    /** The loop of `mergeCache` over the request map. */
    method MergeRequestEntries()
      requires forall key :: key in requestCaches && key in responseCaches ==>
        Compatible(Item(requestCaches[key]), Item(responseCaches[key]))
      modifies this
      ensures requestCaches == old(requestCaches) && responseCaches == old(responseCaches)
      ensures mergedCaches.Keys == old(mergedCaches).Keys + requestCaches.Keys
      ensures forall key :: key in mergedCaches ==>
        mergedCaches[key] ==
          if key in old(mergedCaches) then old(mergedCaches)[key] else ReconciledItem(requestCaches, responseCaches, key)
      ensures inconsistencies == old(inconsistencies) + Inconsistent(requestCaches, responseCaches)
    {
      ghost var m0, req, resp := mergedCaches, requestCaches, responseCaches;
      var pending := requestCaches.Keys;
      while pending != {}
        invariant pending <= req.Keys
        invariant requestCaches == req && responseCaches == resp
        invariant mergedCaches.Keys == m0.Keys + (req.Keys - pending)
        invariant forall key :: key in mergedCaches ==>
          mergedCaches[key] == if key in m0 then m0[key] else ReconciledItem(req, resp, key)
        invariant inconsistencies == old(inconsistencies) + (Inconsistent(req, resp) - pending)
        decreases pending
      {
        var key :| key in pending;
        pending := pending - {key};
        ReconcileRequestEntry(key);
      }
    }

    /** The loop of `mergeCache` over the response map: a key the request map lacks
        is stored as it is, first writer wins. */
    method AddResponseOnlyEntries()
      modifies this
      ensures requestCaches == old(requestCaches) && responseCaches == old(responseCaches)
      ensures inconsistencies == old(inconsistencies)
      ensures mergedCaches.Keys == old(mergedCaches).Keys + (responseCaches.Keys - requestCaches.Keys)
      ensures forall key :: key in mergedCaches ==>
        mergedCaches[key] == if key in old(mergedCaches) then old(mergedCaches)[key] else responseCaches[key]
    {
      ghost var m0 := mergedCaches;
      var pending := responseCaches.Keys;
      while pending != {}
        invariant pending <= responseCaches.Keys
        invariant requestCaches == old(requestCaches) && responseCaches == old(responseCaches)
        invariant inconsistencies == old(inconsistencies)
        invariant mergedCaches.Keys == m0.Keys + ((responseCaches.Keys - pending) - requestCaches.Keys)
        invariant forall key :: key in mergedCaches ==>
          mergedCaches[key] == if key in m0 then m0[key] else responseCaches[key]
        decreases pending
      {
        var key :| key in pending;
        pending := pending - {key};
        if !HasByDirection(key, true) {
          Set(key, responseCaches[key]);
        }
      }
    }

    /** `mergeCache`: reconcile both direction maps into the merged map, then
        drain them. Entries already in the merged map are never replaced. */
    method MergeCache()
      requires forall key :: key in requestCaches && key in responseCaches ==>
        Compatible(Item(requestCaches[key]), Item(responseCaches[key]))
      modifies this
      ensures requestCaches == map[] && responseCaches == map[]
      ensures mergedCaches == Absorb(old(mergedCaches), Reconciled(old(requestCaches), old(responseCaches)))
      ensures inconsistencies == old(inconsistencies) + Inconsistent(old(requestCaches), old(responseCaches))
    {
      ghost var m0, req, resp := mergedCaches, requestCaches, responseCaches;
      MergeRequestEntries();
      AddResponseOnlyEntries();
      ghost var expected := Absorb(m0, Reconciled(req, resp));
      assert mergedCaches.Keys == expected.Keys;
      forall key | key in expected ensures mergedCaches[key] == expected[key] {
      }
      assert mergedCaches == expected;
      requestCaches := map[];
      responseCaches := map[];
    }
  }
}
