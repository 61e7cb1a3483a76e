/**
 * JSON values as the handlers receive them from `req.json()`,
 * `response.json()` and `JSON.parse`, together with the few pieces of
 * JavaScript semantics the handlers rely on: property access, indexing,
 * truthiness (for `||` and `&&`) and conversion to a string (for
 * `new Error(value).message`).
 */
module Json {
  import opened Common

  /**
   * An object keeps its members in source order; a key may occur twice in
   * the text, in which case `JSON.parse` keeps the last value.
   * Numbers are integers in this model.
   */
  datatype Json =
    | JNull
    | JBool(b: bool)
    | JNum(n: int)
    | JStr(s: string)
    | JArr(items: seq<Json>)
    | JObj(fields: seq<(string, Json)>)

  /** JavaScript truthiness of a JSON value. */
  predicate Truthy(v: Json)
  {
    match v
    case JNull => false
    case JBool(b) => b
    case JNum(n) => n != 0
    case JStr(s) => s != ""
    case JArr(_) => true
    case JObj(_) => true
  }

  /** `undefined` is `None`; a present value is truthy or not as above. */
  predicate PresentAndTruthy(v: Option<Json>)
  {
    v.Some? && Truthy(v.value)
  }

  /** The value `JSON.parse` binds to `name`: the last member with that key. */
  function Lookup(fields: seq<(string, Json)>, name: string): (r: Option<Json>)
    ensures r.None? <==> forall i :: 0 <= i < |fields| ==> fields[i].0 != name
    ensures r.Some? ==>
      exists i :: 0 <= i < |fields| && fields[i] == (name, r.value) &&
        forall j :: i < j < |fields| ==> fields[j].0 != name
    decreases |fields|
  {
    if |fields| == 0 then None
    else if fields[|fields| - 1].0 == name then Some(fields[|fields| - 1].1)
    else Lookup(fields[..|fields| - 1], name)
  }

  /** The schema check `z.string().min(1)` on a member that may be absent. */
  function NonEmptyText(v: Option<Json>): (r: Option<string>)
    ensures r.Some? <==> v.Some? && v.value.JStr? && v.value.s != ""
    ensures r.Some? ==> v == Some(JStr(r.value))
  {
    match v
    case Some(JStr(s)) => if |s| >= 1 then Some(s) else None
    case _ => None
  }

  /** Keys that occur at most once. */
  predicate DistinctKeys(fields: seq<(string, Json)>)
  {
    forall i, j :: 0 <= i < j < |fields| ==> fields[i].0 != fields[j].0
  }

  lemma LookupDistinct(fields: seq<(string, Json)>, k: nat)
    requires DistinctKeys(fields) && k < |fields|
    ensures Lookup(fields, fields[k].0) == Some(fields[k].1)
  {
    LookupLast(fields, k);
  }

  /** A member whose key is not given again later is the one bound to that key. */
  lemma {:induction false} LookupLast(fields: seq<(string, Json)>, k: nat)
    requires k < |fields|
    requires forall j :: k < j < |fields| ==> fields[j].0 != fields[k].0
    ensures Lookup(fields, fields[k].0) == Some(fields[k].1)
    decreases |fields|
  {
    if k < |fields| - 1 {
      var front := fields[..|fields| - 1];
      assert front[k] == fields[k];
      LookupLast(front, k);
    }
  }

  /**
   * Property access `v.name` on a value that is not null, for a name that
   * is neither an array index nor `length`: only objects have such
   * properties; on any other value the result is `undefined`.
   */
  function Member(v: Json, name: string): Option<Json>
  {
    match v
    case JObj(fields) => Lookup(fields, name)
    case _ => None
  }

  /** `v[0]` on a value that is not null or undefined. */
  function Index0(v: Json): (r: Option<Json>)
    ensures v.JArr? ==> (r.Some? <==> |v.items| > 0)
    ensures v.JArr? && r.Some? ==> r.value == v.items[0]
    ensures v.JStr? && r.Some? ==> r.value.JStr? && |r.value.s| == 1
    ensures v.JNull? || v.JBool? || v.JNum? ==> r.None?
  {
    match v
    case JArr(items) => if |items| == 0 then None else Some(items[0])
    case JStr(s) => if |s| == 0 then None else Some(JStr([s[0]]))
    case JObj(fields) => Lookup(fields, "0")
    case _ => None
  }

  /**
   * `v[Object.keys(v)[0]]` on a value that is not null or undefined: the
   * value under the first own key, or `undefined` when there is none.
   * Object keys come in insertion order, which for a parsed object is the
   * position of a key's first occurrence.
   */
  function FirstKeyValue(v: Json): (r: Option<Json>)
    ensures v.JObj? && DistinctKeys(v.fields) && |v.fields| > 0 ==> r == Some(v.fields[0].1)
    ensures v.JObj? && |v.fields| == 0 ==> r.None?
    ensures v.JArr? || v.JStr? ==> r == Index0(v)
  {
    match v
    case JObj(fields) => if |fields| == 0 then None else Lookup(fields, fields[0].0)
    case JArr(_) => Index0(v)
    case JStr(_) => Index0(v)
    case _ => None
  }

  /** The decimal digit for `d`. */
  function Digit(d: nat): char
    requires d < 10
  {
    "0123456789"[d]
  }

  /** `String(n)` for an integer. */
  function Decimal(n: int): (r: string)
    ensures r != ""
    ensures n < 0 <==> r[0] == '-'
    decreases if n < 0 then -n + 1 else n
  {
    if n < 0 then "-" + Decimal(-n)
    else if n < 10 then [Digit(n)]
    else Decimal(n / 10) + [Digit(n % 10)]
  }

  /** `parts.join(sep)`. */
  function Join(parts: seq<string>, sep: string): (r: string)
    ensures |parts| == 0 ==> r == ""
    ensures |parts| == 1 ==> r == parts[0]
  {
    if |parts| == 0 then ""
    else if |parts| == 1 then parts[0]
    else parts[0] + sep + Join(parts[1..], sep)
  }

  /** What V8's `TypeError` says when an object has no usable `toString`. */
  const ConversionErrorMessage := "Cannot convert object to primitive value"

  /**
   * `String(v)`, or `None` when the conversion throws. An array converts by
   * joining its elements with commas, null elements becoming empty text.
   * An object converts to "[object Object]" unless it has an own `toString`
   * member: a parsed value is never callable, so the conversion skips it,
   * finds no primitive and throws a `TypeError`.
   */
  function ToText(v: Json): (r: Option<string>)
    ensures v.JNull? || v.JBool? || v.JNum? || v.JStr? ==> r.Some?
    ensures v.JNull? ==> r == Some("null")
    ensures v.JBool? ==> r == Some(if v.b then "true" else "false")
    ensures v.JStr? ==> r == Some(v.s)
    ensures v.JNum? ==> r == Some(Decimal(v.n))
    ensures v.JObj? && r.Some? ==> r.value == "[object Object]"
    ensures v.JObj? ==> (r.None? <==> Lookup(v.fields, "toString").Some?)
    ensures v.JArr? && r.None? ==>
      exists i :: 0 <= i < |v.items| && v.items[i] != JNull && ToText(v.items[i]).None?
    decreases v
  {
    match v
    case JNull => Some("null")
    case JBool(b) => Some(if b then "true" else "false")
    case JNum(n) => Some(Decimal(n))
    case JStr(s) => Some(s)
    case JObj(fields) => if Lookup(fields, "toString").Some? then None else Some("[object Object]")
    case JArr(items) =>
      if exists i :: 0 <= i < |items| && items[i] != JNull && ToText(items[i]).None? then None
      else
        Some(Join(seq(|items|, i requires 0 <= i < |items| =>
                               if items[i] == JNull then "" else ToText(items[i]).value), ","))
  }

  /**
   * The message `new Error(v)` carries: `String(v)`, or, when that throws,
   * the message of the `TypeError` thrown in its place.
   */
  function Render(v: Json): (r: string)
    ensures ToText(v).Some? ==> r == ToText(v).value
    ensures ToText(v).None? ==> r == ConversionErrorMessage
  {
    match ToText(v)
    case Some(s) => s
    case None => ConversionErrorMessage
  }

  /** A truthy value that is not an array never converts to empty text. */
  lemma RenderNonEmpty(v: Json)
    requires Truthy(v) && !v.JArr?
    ensures Render(v) != ""
  {
  }
}
