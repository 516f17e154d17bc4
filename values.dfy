/**
  The values the application passes around: JavaScript objects as they are
  sent to and received from the backend. A row of a table is a `Record`, a map
  from property names to JSON values; a property that is absent reads as
  `undefined`. Timestamps are integers.
 */
module Values {
  import Text

  datatype Option<+T> = None | Some(value: T)

  /** A JSON value. Numbers are integers: no floating point is modelled. */
  datatype Json =
    | JNull
    | JBool(b: bool)
    | JNum(n: int)
    | JStr(s: string)
    | JArr(items: seq<Json>)
    | JObj(fields: map<string, Json>)

  /** A JavaScript object whose properties are JSON values. */
  type Record = map<string, Json>

  /** An error object `{ code, message }`; the services build some without a `code`. */
  datatype Error = Error(code: Option<string>, message: string)

  /** JavaScript truthiness: `null`, `false`, `0` and `""` are falsy. */
  predicate Truthy(v: Json) {
    match v
    case JNull => false
    case JBool(b) => b
    case JNum(n) => n != 0
    case JStr(s) => s != ""
    case _ => true
  }

  /** `r.k` as a value, `None` when the property is `undefined`. */
  function Get(r: Record, k: string): (v: Option<Json>)
    ensures v.Some? <==> k in r
    ensures v.Some? ==> v.value == r[k]
  {
    if k in r then Some(r[k]) else None
  }

  /** `r.k` is truthy (an absent property is `undefined`, which is falsy). */
  predicate Has(r: Record, k: string) {
    k in r && Truthy(r[k])
  }

  /** `r.k`, with `undefined` read as `null`. */
  function Prop(r: Record, k: string): Json {
    if k in r then r[k] else JNull
  }

  /** `a || b` */
  function Or(a: Json, b: Json): (v: Json)
    ensures Truthy(a) ==> v == a
    ensures !Truthy(a) ==> v == b
  {
    if Truthy(a) then a else b
  }

  /** `r.k` when it is a non-empty string: the guard `r.k && r.k.toLowerCase()` lets exactly those through. */
  function NonEmptyStr(r: Record, k: string): (v: Option<string>)
    ensures v.Some? <==> k in r && r[k].JStr? && r[k].s != ""
    ensures v.Some? ==> r[k] == JStr(v.value)
  {
    if k in r && r[k].JStr? && r[k].s != "" then Some(r[k].s) else None
  }

  /** `r.k` when it is a string, empty or not: what `r.k?.toLowerCase()` reads. */
  function StrProp(r: Record, k: string): (v: Option<string>)
    ensures v.Some? <==> k in r && r[k].JStr?
    ensures v.Some? ==> r[k] == JStr(v.value)
  {
    if k in r && r[k].JStr? then Some(r[k].s) else None
  }

  /** `Object.keys(v).length`: properties of an object, indices of an array or a string, none for the rest. */
  function KeyCount(v: Json): nat {
    match v
    case JObj(m) => |m|
    case JArr(a) => |a|
    case JStr(s) => |s|
    case _ => 0
  }

  /** The elements of `xs` under their indices written in decimal, as an array's properties. */
  function Indexed(xs: seq<Json>): (e: map<string, Json>)
    ensures forall i :: 0 <= i < |xs| ==> Text.NatToString(i) in e && e[Text.NatToString(i)] == xs[i]
    ensures forall k :: k in e ==> exists i :: 0 <= i < |xs| && Text.NatToString(i) == k
  {
    assert forall j: nat, k: nat :: Text.NatToString(j) == Text.NatToString(k) ==> j == k by {
      forall j: nat, k: nat | Text.NatToString(j) == Text.NatToString(k) ensures j == k {
        Text.NatToStringInjective(j, k);
      }
    }
    map i | 0 <= i < |xs| :: Text.NatToString(i) := xs[i]
  }

  /**
    `v[key]` for each key `Object.keys(v)` and `Object.entries(v)` list: an
    object's properties, an array's elements and a string's characters
    (each a string of its own) under their indices; numbers, booleans and
    null have none.
   */
  function Entries(v: Json): (e: map<string, Json>)
    ensures v.JObj? ==> e == v.fields
    ensures v.JArr? ==> e == Indexed(v.items)
    ensures v.JStr? ==> forall i :: 0 <= i < |v.s| ==> Text.NatToString(i) in e && e[Text.NatToString(i)] == JStr([v.s[i]])
    ensures v.JStr? ==> forall k :: k in e ==> exists i :: 0 <= i < |v.s| && Text.NatToString(i) == k
    ensures !(v.JObj? || v.JArr? || v.JStr?) ==> e == map[]
  {
    match v
    case JObj(m) => m
    case JArr(a) => Indexed(a)
    case JStr(s) => Indexed(seq(|s|, i requires 0 <= i < |s| => JStr([s[i]])))
    case _ => map[]
  }

  /** `typeof v === 'object' && v !== null` */
  predicate IsObject(v: Json) {
    v.JObj? || v.JArr?
  }

  /** A record's numeric property, or `None` when it is absent or not a number. */
  function NumProp(r: Record, k: string): (v: Option<int>)
    ensures v.Some? <==> k in r && r[k].JNum?
    ensures v.Some? ==> r[k] == JNum(v.value)
  {
    if k in r && r[k].JNum? then Some(r[k].n) else None
  }

  /** Properties whose value is `undefined` are dropped when an object is serialised. */
  function Defined(r: Record, k: string, v: Option<Json>): (r': Record)
    ensures v.Some? ==> r' == r[k := v.value]
    ensures v.None? ==> r' == r - {k}
  {
    if v.Some? then r[k := v.value] else r - {k}
  }

  /** The text a template literal `${v}` inserts: `String(v)`. */
  function Display(v: Json): (t: string)
    ensures v.JStr? ==> t == v.s
    ensures v.JNull? ==> t == "null"
    decreases v
  {
    match v
    case JNull => "null"
    case JBool(b) => if b then "true" else "false"
    case JNum(n) => Text.IntToString(n)
    case JStr(s) => s
    case JObj(_) => "[object Object]"
    case JArr(items) =>
      Text.Join(seq(|items|, i requires 0 <= i < |items| => if items[i].JNull? then "" else Display(items[i])), ",")
  }
}
