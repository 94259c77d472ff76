/**
 * `JSON.stringify` on the values of JsValue, as the store uses it to write
 * the user object to storage: no whitespace, members in insertion order,
 * members whose value is `undefined` omitted, `undefined` array elements
 * written as `null`, and strings quoted with the escapes of the JSON grammar.
 */
module JsonStringify {

  import opened JsValue
  import Decimal

  /** The escape JSON.stringify writes for one character of a string. */
  function EscapeChar(c: char): string
  {
    if c == '"' then "\\\""
    else if c == '\\' then "\\\\"
    else if c as int == 0x08 then "\\b"
    else if c as int == 0x0C then "\\f"
    else if c == '\n' then "\\n"
    else if c == '\r' then "\\r"
    else if c == '\t' then "\\t"
    else if (c as int) < 0x20 then
      "\\u00" + [Decimal.HexChar((c as int) / 16), Decimal.HexChar((c as int) % 16)]
    else [c]
  }

  function Escape(s: string): string
  {
    if s == [] then "" else EscapeChar(s[0]) + Escape(s[1..])
  }

  function Quote(s: string): string
  {
    "\"" + Escape(s) + "\""
  }

  /** The text of a value that is not `undefined` (JSON.stringify gives no text for that). */
  function Stringify(v: Value): (t: string)
    requires v != Undefined
    ensures |t| > 0
    decreases v, 1, 0
  {
    match v
    case Null => "null"
    case Bool(b) => if b then "true" else "false"
    case Num(n) => Decimal.IntToString(n)
    case Str(s) => Quote(s)
    case Arr(xs) => "[" + Elements(xs, 0) + "]"
    case Obj(fs) => "{" + Members(fs, 0, false) + "}"
  }

  /** The array elements from index `i` on, each after a comma except the first one. */
  function Elements(xs: seq<Value>, i: nat): string
    requires i <= |xs|
    decreases Arr(xs), 0, |xs| - i
  {
    if i == |xs| then ""
    else (if i > 0 then "," else "") + Element(xs[i]) + Elements(xs, i + 1)
  }

  function Element(x: Value): string
    decreases x, 2, 0
  {
    if x == Undefined then "null" else Stringify(x)
  }

  /**
   * The members from index `i` on whose value is not `undefined`, as
   * `"key":value`, separated by commas; `sep` says whether one was written
   * before.
   */
  function Members(fs: Fields, i: nat, sep: bool): string
    requires i <= |fs|
    decreases Obj(fs), 0, |fs| - i
  {
    if i == |fs| then ""
    else if fs[i].1 == Undefined then Members(fs, i + 1, sep)
    else (if sep then "," else "") + Quote(fs[i].0) + ":" + Stringify(fs[i].1) + Members(fs, i + 1, true)
  }

  /**
   * The value `JSON.parse(JSON.stringify(v))` denotes: `undefined` members
   * dropped, `undefined` elements turned into `null`.
   */
  function ToJson(v: Value): Value
    requires v != Undefined
    decreases v, 1
  {
    match v
    case Arr(xs) => Arr(ElementsJson(xs, 0))
    case Obj(fs) => Obj(PresentJson(fs, 0))
    case _ => v
  }

  function ElementJson(x: Value): Value
    decreases x, 2
  {
    if x == Undefined then Null else ToJson(x)
  }

  /** The array elements from index `i` on, converted. */
  function ElementsJson(xs: seq<Value>, i: nat): seq<Value>
    requires i <= |xs|
    decreases Arr(xs), 0, |xs| - i
  {
    if i == |xs| then [] else [ElementJson(xs[i])] + ElementsJson(xs, i + 1)
  }

  /** The members from index `i` on that JSON.stringify keeps, converted. */
  function PresentJson(fs: Fields, i: nat): Fields
    requires i <= |fs|
    decreases Obj(fs), 0, |fs| - i
  {
    if i == |fs| then []
    else if fs[i].1 == Undefined then PresentJson(fs, i + 1)
    else [(fs[i].0, ToJson(fs[i].1))] + PresentJson(fs, i + 1)
  }
}
