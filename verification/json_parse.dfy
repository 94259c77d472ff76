/**
 * `JSON.parse` for the JSON the store reads back from storage. Every
 * function takes the remaining input and answers the value read and the
 * input after it, or None where JSON.parse throws a SyntaxError. Numbers
 * are read as integers only (see README "Left out").
 */
module JsonParse {

  import opened Wrappers
  import opened JsValue
  import Decimal

  type Parsed<T> = Option<(T, string)>

  predicate IsWs(c: char) {
    c == ' ' || c == '\t' || c == '\n' || c == '\r'
  }

  function SkipWs(s: string): (t: string)
    ensures |t| <= |s| && (t == [] || !IsWs(t[0]))
  {
    if s != [] && IsWs(s[0]) then SkipWs(s[1..]) else s
  }

  /** The escape after a backslash inside a string literal. */
  function Unescape(s: string): (r: Parsed<char>)
    ensures r.Some? ==> |r.value.1| < |s|
  {
    if s == [] then None
    else if s[0] == '"' then Some(('"', s[1..]))
    else if s[0] == '\\' then Some(('\\', s[1..]))
    else if s[0] == '/' then Some(('/', s[1..]))
    else if s[0] == 'b' then Some((0x08 as char, s[1..]))
    else if s[0] == 'f' then Some((0x0C as char, s[1..]))
    else if s[0] == 'n' then Some(('\n', s[1..]))
    else if s[0] == 'r' then Some(('\r', s[1..]))
    else if s[0] == 't' then Some(('\t', s[1..]))
    else if s[0] == 'u' && |s| >= 5 && forall i :: 1 <= i < 5 ==> Decimal.IsHexDigit(s[i]) then
      var code := Decimal.Hex4Value(s[1..5]);
      // a lone surrogate half is a UTF-16 code unit with no `char` of its own
      if 0xD800 <= code < 0xE000 then None else Some((code as char, s[5..]))
    else None
  }

  /** The body of a string literal after its opening quote; `acc` is what was read so far. */
  function ParseStringBody(s: string, acc: string): (r: Parsed<string>)
    ensures r.Some? ==> |r.value.1| < |s|
    decreases |s|
  {
    if s == [] then None
    else if s[0] == '"' then Some((acc, s[1..]))
    else if s[0] == '\\' then
      match Unescape(s[1..])
      case None => None
      case Some((c, rest)) => ParseStringBody(rest, acc + [c])
    else if (s[0] as int) < 0x20 then None
    else ParseStringBody(s[1..], acc + [s[0]])
  }

  /** A number token `-?(0|[1-9][0-9]*)`. */
  function ParseNumber(s: string): (r: Parsed<Value>)
    ensures r.Some? ==> |r.value.1| < |s|
  {
    var neg := s != [] && s[0] == '-';
    var u := if neg then s[1..] else s;
    if u == [] || !Decimal.IsDigit(u[0]) then None
    else if u[0] == '0' then Some((Num(0), u[1..]))
    else
      var k := Decimal.DigitRun(u);
      var n: int := Decimal.DigitsValue(u[..k]);
      Some((Num(if neg then -n else n), u[k..]))
  }

  /** A string, number or literal token at the start of `t`. */
  function ParseScalar(t: string): (r: Parsed<Value>)
    ensures r.Some? ==> |r.value.1| < |t|
  {
    if t == [] then None
    else if t[0] == '"' then
      match ParseStringBody(t[1..], "")
      case None => None
      case Some((str, rest)) => Some((Str(str), rest))
    else if t[0] == '-' || Decimal.IsDigit(t[0]) then ParseNumber(t)
    else if |t| >= 4 && t[..4] == "null" then Some((Null, t[4..]))
    else if |t| >= 4 && t[..4] == "true" then Some((Bool(true), t[4..]))
    else if |t| >= 5 && t[..5] == "false" then Some((Bool(false), t[5..]))
    else None
  }

  /** A value, after optional whitespace. */
  function ParseValue(s: string): (r: Parsed<Value>)
    ensures r.Some? ==> |r.value.1| < |s|
    decreases |s|, 0
  {
    var t := SkipWs(s);
    if t == [] then None
    else if t[0] == '{' then ParseObject(t[1..])
    else if t[0] == '[' then ParseArray(t[1..])
    else ParseScalar(t)
  }

  /** An array after its `[`. */
  function ParseArray(s: string): (r: Parsed<Value>)
    ensures r.Some? ==> |r.value.1| < |s|
    decreases |s|, 2
  {
    var t := SkipWs(s);
    if t != [] && t[0] == ']' then Some((Arr([]), t[1..]))
    else ParseElements(t, [])
  }

  /** The elements of an array from the next one up to and including `]`. */
  function ParseElements(s: string, acc: seq<Value>): (r: Parsed<Value>)
    ensures r.Some? ==> |r.value.1| < |s|
    decreases |s|, 1
  {
    match ParseValue(s)
    case None => None
    case Some((v, rest)) =>
      var t := SkipWs(rest);
      if t == [] then None
      else if t[0] == ',' then ParseElements(t[1..], acc + [v])
      else if t[0] == ']' then Some((Arr(acc + [v]), t[1..]))
      else None
  }

  /** An object after its `{`. */
  function ParseObject(s: string): (r: Parsed<Value>)
    ensures r.Some? ==> |r.value.1| < |s|
    decreases |s|, 2
  {
    var t := SkipWs(s);
    if t != [] && t[0] == '}' then Some((Obj([]), t[1..]))
    else ParseMembers(t, [])
  }

  /**
   * The members of an object from the next one up to and including `}`.
   * A repeated key keeps its first position and takes the later value,
   * which is property assignment (Put).
   */
  function ParseMembers(s: string, acc: Fields): (r: Parsed<Value>)
    ensures r.Some? ==> |r.value.1| < |s|
    decreases |s|, 1
  {
    var t := SkipWs(s);
    if t == [] || t[0] != '"' then None
    else
      match ParseStringBody(t[1..], "")
      case None => None
      case Some((key, rest)) =>
        var u := SkipWs(rest);
        if u == [] || u[0] != ':' then None
        else
          match ParseValue(u[1..])
          case None => None
          case Some((v, rest')) =>
            var w := SkipWs(rest');
            if w == [] then None
            else if w[0] == ',' then ParseMembers(w[1..], Put(acc, key, v))
            else if w[0] == '}' then Some((Obj(Put(acc, key, v)), w[1..]))
            else None
  }

  /** `JSON.parse(text)`: one value, surrounded by nothing but whitespace. */
  function Parse(text: string): Option<Value>
  {
    match ParseValue(text)
    case None => None
    case Some((v, rest)) => if SkipWs(rest) == [] then Some(v) else None
  }
}
