/** The JavaScript values that examples are made of, as the example engine sees them.
    `Undefined` is JavaScript's `undefined`: a rendered tree uses it for an omitted
    field, and an example object may hold it as the value of a key. Numbers are
    modelled as integers; nothing in the engine does arithmetic on them. */
module JsValues {

  datatype Option<+T> = None | Some(value: T)

  datatype Value =
    | Undefined
    | Null
    | Bool(b: bool)
    | Num(n: int)
    | Str(s: string)
    | Arr(elems: seq<Value>)
    | Obj(fields: map<string, Value>)

  /** JavaScript truthiness: `undefined`, `null`, `false`, `0` and `""` are falsy,
      every array and object is truthy. */
  predicate Truthy(v: Value)
  {
    match v
    case Undefined => false
    case Null => false
    case Bool(b) => b
    case Num(n) => n != 0
    case Str(s) => s != ""
    case Arr(_) => true
    case Obj(_) => true
  }

  /** The two values on which reading a property throws a TypeError. */
  predicate Nullish(v: Value)
  {
    v.Undefined? || v.Null?
  }

  /** `v || fallback` */
  function Or(v: Value, fallback: Value): (r: Value)
    ensures Truthy(v) ==> r == v
    ensures !Truthy(v) ==> r == fallback
  {
    if Truthy(v) then v else fallback
  }

  /** The property read `v[key]` on a value that is not nullish: an own key of an
      object, and `undefined` for every other value. */
  function Get(v: Value, key: string): (r: Value)
    ensures v.Obj? && key in v.fields ==> r == v.fields[key]
    ensures !(v.Obj? && key in v.fields) ==> r == Undefined
  {
    if v.Obj? && key in v.fields then v.fields[key] else Undefined
  }

  /** The property read `v[0]` on a truthy value: the first element of an array,
      the first character of a string, the key "0" of an object. */
  function First(v: Value): (r: Value)
    ensures v.Arr? ==> r == if |v.elems| > 0 then v.elems[0] else Undefined
    ensures v.Str? ==> r == if |v.s| > 0 then Str([v.s[0]]) else Undefined
    ensures v.Obj? ==> r == Get(v, "0")
    ensures !(v.Arr? || v.Str? || v.Obj?) ==> r == Undefined
  {
    match v
    case Arr(elems) => if |elems| > 0 then elems[0] else Undefined
    case Str(s) => if |s| > 0 then Str([s[0]]) else Undefined
    case Obj(_) => Get(v, "0")
    case _ => Undefined
  }

  /** `b` carries at least what `a` carries: an omitted value is carried by
      anything, an object's keys and an array's prefix must be carried member by
      member, and any other value must be carried as it is. */
  predicate SubValue(a: Value, b: Value)
  {
    match a
    case Undefined => true
    case Obj(fa) =>
      b.Obj? && forall k :: k in fa ==> k in b.fields && SubValue(fa[k], b.fields[k])
    case Arr(ea) =>
      b.Arr? && |ea| <= |b.elems| && forall i :: 0 <= i < |ea| ==> SubValue(ea[i], b.elems[i])
    case _ => a == b
  }

  lemma {:induction false} SubValueReflexive(a: Value)
    ensures SubValue(a, a)
  {
    match a
    case Obj(fa) =>
      forall k | k in fa ensures SubValue(fa[k], fa[k]) {
        SubValueReflexive(fa[k]);
      }
    case Arr(ea) =>
      forall i | 0 <= i < |ea| ensures SubValue(ea[i], ea[i]) {
        SubValueReflexive(ea[i]);
      }
    case _ =>
  }

  /** A present value is only carried by a present value. */
  lemma SubValueKeepsPresence(a: Value, b: Value)
    requires SubValue(a, b) && a != Undefined
    ensures b != Undefined
  {
  }

  /** No object anywhere inside `v` holds `undefined` as the value of a key
      (arrays may: JavaScript keeps `undefined` array elements). */
  predicate NoUndefinedFields(v: Value)
  {
    match v
    case Obj(f) => forall k :: k in f ==> f[k] != Undefined && NoUndefinedFields(f[k])
    case Arr(e) => forall i :: 0 <= i < |e| ==> NoUndefinedFields(e[i])
    case _ => true
  }
}
