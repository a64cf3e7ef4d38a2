/**
 * The slice of JavaScript value semantics the frontend relies on: decoded JSON values,
 * truthiness, `||`, optional property reads, object spread and `String(x)`.
 * Numbers are integers here; the frontend's floating-point uses are not modelled.
 */
module Js {
  import opened Wrappers
  import opened Text

  /** A decoded JSON value, plus `undefined` for a missing property. */
  datatype Json =
    | JUndef
    | JNull
    | JBool(b: bool)
    | JNum(n: int)
    | JStr(s: string)
    | JArr(items: seq<Json>)
    | JObj(fields: map<string, Json>)

  /** A plain JavaScript object, keyed by property name. */
  type Obj = map<string, Json>

  /**
   * The properties every plain object inherits from `Object.prototype` (section 20.1.3 of
   * ECMA-262, with `__proto__` and the legacy accessors of its Annex B.2.2). Reading one of
   * them from `{}` gives a function, or the prototype itself for `__proto__`: never a falsy
   * value, and never an array.
   */
  const PROTOTYPE_KEYS: set<string> := {"constructor", "hasOwnProperty", "isPrototypeOf",
    "propertyIsEnumerable", "toLocaleString", "toString", "valueOf", "__proto__",
    "__defineGetter__", "__defineSetter__", "__lookupGetter__", "__lookupSetter__"}

  /** JavaScript truthiness: `undefined`, `null`, `false`, `0` and `""` are falsy. */
  predicate Truthy(j: Json) {
    match j
    case JUndef => false
    case JNull => false
    case JBool(b) => b
    case JNum(n) => n != 0
    case JStr(s) => s != ""
    case JArr(_) => true
    case JObj(_) => true
  }

  /** `a || b`: the first operand when it is truthy, otherwise the second. */
  function Or(a: Json, b: Json): (r: Json)
    ensures Truthy(a) ==> r == a
    ensures !Truthy(a) ==> r == b
  {
    if Truthy(a) then a else b
  }

  /** Whether reading a property of `j` raises a `TypeError` (`null` and `undefined` do). */
  predicate Nullish(j: Json) {
    j.JUndef? || j.JNull?
  }

  /**
   * The message of the `TypeError` that reading property `k` of `null` or `undefined` raises,
   * in the V8 engine's wording.
   */
  function NullReadMessage(j: Json, k: string): (m: string)
    requires Nullish(j)
  {
    "Cannot read properties of " + (if j.JNull? then "null" else "undefined") + " (reading '" + k + "')"
  }

  /** `j?.k`: the property `k` of an object, `undefined` for anything else. */
  function Prop(j: Json, k: string): (r: Json)
    ensures !j.JObj? ==> r == JUndef
    ensures j.JObj? && k !in j.fields ==> r == JUndef
  {
    if j.JObj? && k in j.fields then j.fields[k] else JUndef
  }

  /** Property `k` of a plain object, `undefined` when absent. */
  function Get(o: Obj, k: string): (r: Json)
    ensures k in o ==> r == o[k]
    ensures k !in o ==> r == JUndef
  {
    if k in o then o[k] else JUndef
  }

  /** `j?.length`: an array's or a string's length, an object's own `length` property. */
  function Length(j: Json): (r: Json)
    ensures j.JArr? ==> r == JNum(|j.items|)
    ensures j.JStr? ==> r == JNum(|j.s|)
    ensures Nullish(j) ==> r == JUndef
  {
    match j
    case JArr(xs) => JNum(|xs|)
    case JStr(s) => JNum(|s|)
    case JObj(_) => Prop(j, "length")
    case _ => JUndef
  }

  /** `x.data?.length || 0`, how the admin pages count a collection response. */
  function DataCount(x: Json): (r: Json)
    ensures Prop(x, "data").JArr? && Prop(x, "data").items != [] ==> r == JNum(|Prop(x, "data").items|)
    ensures Prop(x, "data").JArr? && Prop(x, "data").items == [] ==> r == JNum(0)
    ensures !Truthy(Prop(x, "data")) ==> r == JNum(0)
  {
    Or(Length(Prop(x, "data")), JNum(0))
  }

  /**
   * Whether `(x.data || []).map(f)`, with `f` reading a property of each element, runs
   * without a `TypeError`: `x` is not null, the list is an array and none of its elements is null.
   */
  predicate Listable(x: Json) {
    var xs := Or(Prop(x, "data"), JArr([]));
    !Nullish(x) && xs.JArr? && forall i | 0 <= i < |xs.items| :: !Nullish(xs.items[i])
  }

  /** The list `x.data || []` of a listable response. */
  function ListOf(x: Json): (xs: seq<Json>)
    requires Listable(x)
    ensures Prop(x, "data").JArr? ==> xs == Prop(x, "data").items
    ensures !Truthy(Prop(x, "data")) ==> xs == []
  {
    Or(Prop(x, "data"), JArr([])).items
  }

  /**
   * What a public section's `fetch(...).then(r => r.json()).then(d => setX(d.data))` leaves for
   * its render to iterate. `loaded` is the decoded body, `None` when the fetch or the decoding
   * threw. A throw, including the one from reading `d.data` of a `null` body, is caught and the
   * initial [] stays; otherwise `d.data` is stored unchecked, and the render's `.map` or
   * `.reduce` throws (`None`) unless it is an array.
   */
  function StoredList(loaded: Option<Json>): (r: Option<seq<Json>>)
    ensures loaded.None? || Nullish(loaded.value) ==> r == Some([])
    ensures loaded.Some? && !Nullish(loaded.value) ==>
              (r.Some? <==> Prop(loaded.value, "data").JArr?)
    ensures loaded.Some? && Prop(loaded.value, "data").JArr? ==> r == Some(Prop(loaded.value, "data").items)
  {
    match loaded
    case None => Some([])
    case Some(d) =>
      if Nullish(d) then Some([])
      else if Prop(d, "data").JArr? then Some(Prop(d, "data").items)
      else None
  }

  /** `Array.isArray(j) ? j : []`. */
  function ArrayOrEmpty(j: Json): (r: seq<Json>)
    ensures j.JArr? ==> r == j.items
    ensures !j.JArr? ==> r == []
  {
    if j.JArr? then j.items else []
  }

  /** The object `{"0": xs[0], "1": xs[1], ...}` that spreading an array produces. */
  function IndexMap(xs: seq<Json>): (m: Obj)
    ensures forall i | 0 <= i < |xs| :: NatToString(i) in m
  {
    if xs == [] then map[]
    else IndexMap(xs[..|xs| - 1])[NatToString(|xs| - 1) := xs[|xs| - 1]]
  }

  /**
   * The own properties `{...j}` copies: an object's fields, an array's or a string's indices;
   * `null`, `undefined`, booleans and numbers contribute nothing.
   */
  function Spread(j: Json): (m: Obj)
    ensures j.JObj? ==> m == j.fields
    ensures !Truthy(j) ==> m == map[]
  {
    match j
    case JObj(f) => f
    case JArr(xs) => IndexMap(xs)
    case JStr(s) => IndexMap(seq(|s|, i requires 0 <= i < |s| => JStr([s[i]])))
    case _ => map[]
  }

  /** `{...o, [k]: v}`: the object with one property set and every other one kept. */
  function WithProp(o: Obj, k: string, v: Json): (r: Obj)
    ensures r.Keys == o.Keys + {k}
    ensures r[k] == v
    ensures forall k' | k' in o && k' != k :: r[k'] == o[k']
  {
    o[k := v]
  }

  /** `String(j)`, which template literals `${j}` and `new Error(j).message` also apply. */
  function JsString(j: Json): string
    decreases j, 0
  {
    match j
    case JUndef => "undefined"
    case JNull => "null"
    case JBool(b) => if b then "true" else "false"
    case JNum(n) => IntToString(n)
    case JStr(s) => s
    case JArr(xs) => Join(seq(|xs|, i requires 0 <= i < |xs| => ElementString(xs[i])), ",")
    case JObj(_) => "[object Object]"
  }

  /** How `Array.prototype.join` writes one element: `null` and `undefined` become empty. */
  function ElementString(j: Json): string
    decreases j, 1
  {
    if j.JUndef? || j.JNull? then "" else JsString(j)
  }
}
