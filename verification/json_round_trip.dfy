/**
 * What the store relies on when it reads back the user it wrote:
 * `JSON.parse(JSON.stringify(v))` gives `ToJson(v)`, which is `v` itself
 * for every value that came out of JSON in the first place.
 */
module JsonRoundTrip {

  import opened Wrappers
  import opened JsValue
  import Decimal
  import opened JsonStringify
  import opened JsonParse

  /** Text that cannot extend a number token written just before it. */
  predicate Delimited(rest: string) {
    rest == [] || !Decimal.IsDigit(rest[0])
  }

  lemma EscapeCharRoundTrip(c: char, tail: string, acc: string)
    ensures ParseStringBody(EscapeChar(c) + tail, acc) == ParseStringBody(tail, acc + [c])
  {
    var e := EscapeChar(c);
    var s := e + tail;
    if c == '"' || c == '\\' || c as int == 0x08 || c as int == 0x0C || c == '\n' || c == '\r' || c == '\t' {
      assert s[0] == '\\' && s[1..] == [e[1]] + tail;
    } else if (c as int) < 0x20 {
      var h := [Decimal.HexChar((c as int) / 16), Decimal.HexChar((c as int) % 16)];
      assert e == "\\u00" + h;
      assert s[0] == '\\';
      var u := s[1..];
      assert u == "u00" + h + tail;
      assert u[1..5] == "00" + h;
      assert Decimal.Hex4Value(u[1..5]) == c as int;
      assert u[5..] == tail;
    } else {
      assert s[0] == c && s[1..] == tail;
    }
  }

  lemma {:induction false} EscapeRoundTrip(s: string, rest: string, acc: string)
    ensures ParseStringBody(Escape(s) + "\"" + rest, acc) == Some((acc + s, rest))
  {
    if s == [] {
      var t := Escape(s) + "\"" + rest;
      assert t == "\"" + rest;
      assert t[0] == '"' && t[1..] == rest;
      assert acc + s == acc;
    } else {
      assert Escape(s) + "\"" + rest == EscapeChar(s[0]) + (Escape(s[1..]) + "\"" + rest);
      EscapeCharRoundTrip(s[0], Escape(s[1..]) + "\"" + rest, acc);
      EscapeRoundTrip(s[1..], rest, acc + [s[0]]);
      assert acc + [s[0]] + s[1..] == acc + s;
    }
  }

  // One lemma per way ParseValue can start, so that no proof unfolds all of it.

  lemma ValueAtObject(t: string)
    requires t != [] && t[0] == '{'
    ensures ParseValue(t) == ParseObject(t[1..])
  {
    assert SkipWs(t) == t;
  }

  lemma ValueAtArray(t: string)
    requires t != [] && t[0] == '['
    ensures ParseValue(t) == ParseArray(t[1..])
  {
    assert SkipWs(t) == t;
  }

  lemma ValueAtScalar(t: string)
    requires t != [] && !IsWs(t[0]) && t[0] != '{' && t[0] != '['
    ensures ParseValue(t) == ParseScalar(t)
  {
    assert SkipWs(t) == t;
  }

  lemma StringRoundTrip(s: string, rest: string)
    ensures ParseValue(Quote(s) + rest) == Some((Str(s), rest))
  {
    var t := Quote(s) + rest;
    assert t[0] == '"' && t[1..] == Escape(s) + "\"" + rest;
    EscapeRoundTrip(s, rest, "");
    assert "" + s == s;
    ValueAtScalar(t);
  }

  lemma LiteralRoundTrip(lit: string, v: Value, rest: string)
    requires (lit, v) in {("null", Null), ("true", Bool(true)), ("false", Bool(false))}
    ensures ParseValue(lit + rest) == Some((v, rest))
  {
    var t := lit + rest;
    assert t[..|lit|] == lit && t[|lit|..] == rest;
    ValueAtScalar(t);
  }

  /** The digits of a natural number, followed by a delimiter, read back as that number. */
  lemma NatDigitsRoundTrip(m: nat, rest: string)
    requires Delimited(rest)
    ensures var u := Decimal.NatToString(m) + rest;
      u != [] && Decimal.IsDigit(u[0]) && (u[0] == '0' <==> m == 0)
      && (m == 0 ==> u[1..] == rest)
      && (m != 0 ==> (var k := Decimal.DigitRun(u); Decimal.DigitsValue(u[..k]) == m && u[k..] == rest))
  {
    var d := Decimal.NatToString(m);
    Decimal.DigitRunOfDigits(d, rest);
    Decimal.DigitsValueOfNatToString(m);
    if m == 0 {
      assert d == "0";
    }
  }

  /** ParseNumber on text that starts with a digit, unfolded. */
  lemma PlainNumberUnfold(u: string)
    requires u != [] && Decimal.IsDigit(u[0])
    ensures ParseNumber(u)
         == if u[0] == '0' then Some((Num(0), u[1..]))
            else (var k := Decimal.DigitRun(u); Some((Num(Decimal.DigitsValue(u[..k])), u[k..])))
  {
  }

  /** ParseNumber on a minus sign followed by a digit, unfolded. */
  lemma NegatedNumberUnfold(u: string)
    requires u != [] && Decimal.IsDigit(u[0])
    ensures ParseNumber("-" + u)
         == if u[0] == '0' then Some((Num(0), u[1..]))
            else (var k := Decimal.DigitRun(u); var n: int := Decimal.DigitsValue(u[..k]); Some((Num(-n), u[k..])))
  {
    assert ("-" + u)[1..] == u;
  }

  lemma NonNegativeNumberParse(m: nat, rest: string)
    requires Delimited(rest)
    ensures ParseNumber(Decimal.NatToString(m) + rest) == Some((Num(m), rest))
  {
    NatDigitsRoundTrip(m, rest);
    PlainNumberUnfold(Decimal.NatToString(m) + rest);
  }

  lemma NegativeNumberParse(m: nat, rest: string)
    requires m > 0 && Delimited(rest)
    ensures ParseNumber("-" + (Decimal.NatToString(m) + rest)) == Some((Num(-(m as int)), rest))
  {
    NatDigitsRoundTrip(m, rest);
    NegatedNumberUnfold(Decimal.NatToString(m) + rest);
  }

  lemma NumberParse(n: int, rest: string)
    requires Delimited(rest)
    ensures ParseNumber(Decimal.IntToString(n) + rest) == Some((Num(n), rest))
  {
    if n < 0 {
      assert Decimal.IntToString(n) + rest == "-" + (Decimal.NatToString(-n) + rest);
      NegativeNumberParse(-n, rest);
    } else {
      NonNegativeNumberParse(n, rest);
    }
  }

  lemma NumberRoundTrip(n: int, rest: string)
    requires Delimited(rest)
    ensures ParseValue(Decimal.IntToString(n) + rest) == Some((Num(n), rest))
  {
    var text := Decimal.IntToString(n) + rest;
    NumberParse(n, rest);
    assert text[0] == Decimal.IntToString(n)[0];
    assert n >= 0 ==> Decimal.IsDigit(Decimal.NatToString(n)[0]);
    ValueAtNumber(text);
  }

  lemma ValueAtNumber(t: string)
    requires t != [] && (t[0] == '-' || Decimal.IsDigit(t[0]))
    ensures ParseValue(t) == ParseNumber(t)
  {
    ValueAtScalar(t);
  }

  lemma {:induction false} ValueRoundTrip(v: Value, rest: string)
    requires v != Undefined && WellKeyed(v) && Delimited(rest)
    ensures ParseValue(Stringify(v) + rest) == Some((ToJson(v), rest))
    decreases v, 1, 0
  {
    match v
    case Null => LiteralRoundTrip("null", Null, rest);
    case Bool(b) =>
      if b { LiteralRoundTrip("true", v, rest); } else { LiteralRoundTrip("false", v, rest); }
    case Num(n) => NumberRoundTrip(n, rest);
    case Str(s) => StringRoundTrip(s, rest);
    case Arr(xs) => ArrayRoundTrip(xs, rest);
    case Obj(fs) => ObjectRoundTrip(fs, rest);
  }

  lemma ArrayUnfold(t: string)
    requires t != [] && !IsWs(t[0])
    ensures ParseArray(t) == if t[0] == ']' then Some((Arr([]), t[1..])) else ParseElements(t, [])
  {
    assert SkipWs(t) == t;
  }

  lemma ObjectUnfold(t: string)
    requires t != [] && !IsWs(t[0])
    ensures ParseObject(t) == if t[0] == '}' then Some((Obj([]), t[1..])) else ParseMembers(t, [])
  {
    assert SkipWs(t) == t;
  }

  lemma ElementsCons(xs: seq<Value>, i: nat)
    requires i < |xs|
    ensures Elements(xs, i) == (if i > 0 then "," else "") + Element(xs[i]) + Elements(xs, i + 1)
  {
  }

  lemma ElementsFirst(xs: seq<Value>, rest: string)
    requires xs != []
    ensures Elements(xs, 0) + "]" + rest == Element(xs[0]) + Elements(xs, 1) + "]" + rest
  {
    ElementsCons(xs, 0);
    assert "" + Element(xs[0]) == Element(xs[0]);
  }

  lemma ValueAfterOpen(open: char, t: string)
    requires open == '[' || open == '{'
    ensures ParseValue([open] + t) == if open == '[' then ParseArray(t) else ParseObject(t)
  {
    var u := [open] + t;
    assert u[1..] == t;
    if open == '[' { ValueAtArray(u); } else { ValueAtObject(u); }
  }

  lemma {:induction false} ArrayRoundTrip(xs: seq<Value>, rest: string)
    requires WellKeyed(Arr(xs)) && Delimited(rest)
    ensures ParseValue(Stringify(Arr(xs)) + rest) == Some((ToJson(Arr(xs)), rest))
    decreases Arr(xs), 0, |xs| + 2
  {
    var t := Elements(xs, 0) + "]" + rest;
    Assoc4("[", Elements(xs, 0), "]", rest);
    ValueAfterOpen('[', t);
    assert ToJson(Arr(xs)) == Arr(ElementsJson(xs, 0));
    ArrayBodyRoundTrip(xs, rest);
  }

  /** The closing bracket of an empty array ends it. */
  lemma EmptyArrayBody(rest: string)
    ensures ParseArray(Elements([], 0) + "]" + rest) == Some((Arr(ElementsJson([], 0)), rest))
  {
    var t := Elements([], 0) + "]" + rest;
    assert t == "]" + rest;
    ArrayUnfold(t);
    assert t[1..] == rest;
  }

  /** What follows the opening bracket of a stringified array parses back to its JSON image. */
  lemma {:induction false} ArrayBodyRoundTrip(xs: seq<Value>, rest: string)
    requires WellKeyed(Arr(xs)) && Delimited(rest)
    ensures ParseArray(Elements(xs, 0) + "]" + rest) == Some((Arr(ElementsJson(xs, 0)), rest))
    decreases Arr(xs), 0, |xs| + 1
  {
    if xs == [] {
      EmptyArrayBody(rest);
    } else {
      var t := Elements(xs, 0) + "]" + rest;
      ElementsFirst(xs, rest);
      assert t != [] && !IsWs(t[0]) && t[0] != ']' by {
        ElementStart(xs[0]);
        assert t[0] == Element(xs[0])[0];
      }
      ArrayUnfold(t);
      ElementsRoundTrip(xs, 0, rest, []);
      assert [] + ElementsJson(xs, 0) == ElementsJson(xs, 0);
    }
  }

  lemma {:induction false} ObjectRoundTrip(fs: Fields, rest: string)
    requires WellKeyed(Obj(fs)) && Delimited(rest)
    ensures ParseValue(Stringify(Obj(fs)) + rest) == Some((ToJson(Obj(fs)), rest))
    decreases Obj(fs), 0, |fs| + 2
  {
    var t := Members(fs, 0, false) + "}" + rest;
    Assoc4("{", Members(fs, 0, false), "}", rest);
    ValueAfterOpen('{', t);
    assert ToJson(Obj(fs)) == Obj(PresentJson(fs, 0));
    ObjectBodyRoundTrip(fs, rest);
  }

  /** What follows the opening brace of a stringified object parses back to its JSON image. */
  lemma {:induction false} ObjectBodyRoundTrip(fs: Fields, rest: string)
    requires WellKeyed(Obj(fs)) && Delimited(rest)
    ensures ParseObject(Members(fs, 0, false) + "}" + rest) == Some((Obj(PresentJson(fs, 0)), rest))
    decreases Obj(fs), 0, |fs| + 1
  {
    var t := Members(fs, 0, false) + "}" + rest;
    if PresentJson(fs, 0) == [] {
      MembersEmpty(fs, 0, false);
      assert t == "}" + rest;
      ObjectUnfold(t);
      assert t[1..] == rest;
    } else {
      assert t != [] && t[0] == '"' by {
        MembersStart(fs, 0, false);
      }
      ObjectUnfold(t);
      MembersRoundTrip(fs, 0, rest, []);
      assert [] + PresentJson(fs, 0) == PresentJson(fs, 0);
    }
  }

  /** The text of a value never starts with whitespace. */
  lemma ElementStart(x: Value)
    ensures Element(x) != [] && !IsWs(Element(x)[0])
  {
    if x != Undefined {
      match x
      case Num(n) => assert Decimal.IsDigit(Decimal.NatToString(if n < 0 then -n else n)[0]);
      case _ =>
    }
  }

  lemma {:induction false} ElementRoundTrip(x: Value, rest: string)
    requires WellKeyed(x) && Delimited(rest)
    ensures ParseValue(Element(x) + rest) == Some((ElementJson(x), rest))
    decreases x, 2, 0
  {
    if x == Undefined {
      LiteralRoundTrip("null", Null, rest);
    } else {
      ValueRoundTrip(x, rest);
    }
  }

  /** ParseElements on one element followed by `tail`, up to the separator after it. */
  lemma ElementStep(x: Value, tail: string, acc: seq<Value>)
    requires WellKeyed(x) && Delimited(tail)
    ensures ParseElements(Element(x) + tail, acc)
         == (var t := SkipWs(tail);
             if t == [] then None
             else if t[0] == ',' then ParseElements(t[1..], acc + [ElementJson(x)])
             else if t[0] == ']' then Some((Arr(acc + [ElementJson(x)]), t[1..]))
             else None)
    decreases x, 3
  {
    ElementRoundTrip(x, tail);
  }

  /** Concatenation regroups; stated once so that proofs need not re-derive it on long texts. */
  lemma Assoc<T>(a: seq<T>, b: seq<T>, c: seq<T>)
    ensures a + b + c == a + (b + c)
  {
  }

  lemma Assoc4<T>(a: seq<T>, m: seq<T>, close: seq<T>, rest: seq<T>)
    ensures a + m + close + rest == a + (m + close + rest)
  {
    Assoc(a, m, close);
    Assoc(a, m + close, rest);
    Assoc(m, close, rest);
  }

  /** The last element: parsing it closes the array. */
  lemma ElementLastRoundTrip(xs: seq<Value>, i: nat, rest: string, acc: seq<Value>)
    requires i + 1 == |xs| && WellKeyed(xs[i])
    ensures ParseElements(Element(xs[i]) + (Elements(xs, i + 1) + "]" + rest), acc)
         == Some((Arr(acc + [ElementJson(xs[i])]), rest))
    decreases Arr(xs), 0, 0
  {
    var tail := Elements(xs, i + 1) + "]" + rest;
    assert Elements(xs, i + 1) == "";
    assert tail == "]" + rest;
    assert SkipWs(tail) == tail && tail[1..] == rest;
    ElementStep(xs[i], tail, acc);
  }

  /** An element followed by more: parsing it adds the element and goes on after the comma. */
  lemma ElementNextRoundTrip(xs: seq<Value>, i: nat, rest: string, acc: seq<Value>)
    requires i + 1 < |xs| && WellKeyed(xs[i])
    ensures ParseElements(Element(xs[i]) + (Elements(xs, i + 1) + "]" + rest), acc)
         == ParseElements(Element(xs[i + 1]) + Elements(xs, i + 2) + "]" + rest, acc + [ElementJson(xs[i])])
    decreases Arr(xs), 0, 0
  {
    var tail := Elements(xs, i + 1) + "]" + rest;
    var more := Element(xs[i + 1]) + Elements(xs, i + 2) + "]" + rest;
    ElementsCons(xs, i + 1);
    Assoc4(",", Element(xs[i + 1]) + Elements(xs, i + 2), "]", rest);
    assert tail == "," + more;
    assert SkipWs(tail) == tail && tail[1..] == more;
    ElementStep(xs[i], tail, acc);
  }

  lemma {:induction false} ElementsRoundTrip(xs: seq<Value>, i: nat, rest: string, acc: seq<Value>)
    requires i < |xs|
    requires forall j :: 0 <= j < |xs| ==> WellKeyed(xs[j])
    requires Delimited(rest)
    ensures ParseElements(Element(xs[i]) + Elements(xs, i + 1) + "]" + rest, acc)
         == Some((Arr(acc + ElementsJson(xs, i)), rest))
    decreases Arr(xs), 0, |xs| - i
  {
    var x := ElementJson(xs[i]);
    Assoc4(Element(xs[i]), Elements(xs, i + 1), "]", rest);
    assert ElementsJson(xs, i) == [x] + ElementsJson(xs, i + 1);
    if i + 1 == |xs| {
      ElementLastRoundTrip(xs, i, rest, acc);
      assert ElementsJson(xs, i + 1) == [];
      assert [x] + ElementsJson(xs, i + 1) == [x];
    } else {
      ElementNextRoundTrip(xs, i, rest, acc);
      ElementsRoundTrip(xs, i + 1, rest, acc + [x]);
      Assoc(acc, [x], ElementsJson(xs, i + 1));
    }
  }

  /** Members writes nothing exactly when no member survives. */
  lemma {:induction false} MembersEmpty(fs: Fields, i: nat, sep: bool)
    requires i <= |fs|
    ensures (Members(fs, i, sep) == "") <==> (PresentJson(fs, i) == [])
    decreases |fs| - i
  {
    if i < |fs| && fs[i].1 == Undefined {
      MembersEmpty(fs, i + 1, sep);
    }
  }

  /** When some member survives, the text is its key, after a comma when one was written before. */
  lemma {:induction false} MembersStart(fs: Fields, i: nat, sep: bool)
    requires i <= |fs| && PresentJson(fs, i) != []
    ensures Members(fs, i, sep) == (if sep then "," else "") + Members(fs, i, false)
    ensures Members(fs, i, false) != [] && Members(fs, i, false)[0] == '"'
    decreases |fs| - i
  {
    if fs[i].1 == Undefined {
      MembersStart(fs, i + 1, sep);
    } else {
      var m := Quote(fs[i].0) + ":" + Stringify(fs[i].1) + Members(fs, i + 1, true);
      assert Members(fs, i, false) == m;
    }
  }

  /** A key none of the remaining members has is not among their JSON members. */
  lemma {:induction false} PresentJsonAbsent(fs: Fields, i: nat, k: string)
    requires i <= |fs|
    requires forall j :: i <= j < |fs| ==> fs[j].0 != k
    ensures !HasKey(PresentJson(fs, i), k)
    decreases |fs| - i
  {
    if i < |fs| {
      PresentJsonAbsent(fs, i + 1, k);
      var p := PresentJson(fs, i);
      if fs[i].1 != Undefined {
        forall n | 0 <= n < |p| ensures p[n].0 != k {
          if n > 0 { assert p[n] == PresentJson(fs, i + 1)[n - 1]; }
        }
      }
    }
  }

  lemma DistinctCons(entry: (string, Value), tail: Fields)
    requires DistinctKeys(tail) && !HasKey(tail, entry.0)
    ensures DistinctKeys([entry] + tail)
  {
    var p := [entry] + tail;
    forall a, b | 0 <= a < b < |p| ensures p[a].0 != p[b].0 {
      assert p[b] == tail[b - 1];
      if a > 0 { assert p[a] == tail[a - 1]; }
    }
  }

  lemma {:induction false} PresentJsonDistinct(fs: Fields, i: nat)
    requires i <= |fs| && DistinctKeys(fs)
    ensures DistinctKeys(PresentJson(fs, i))
    decreases |fs| - i
  {
    if i < |fs| {
      PresentJsonDistinct(fs, i + 1);
      if fs[i].1 != Undefined {
        PresentJsonAbsent(fs, i + 1, fs[i].0);
        DistinctCons((fs[i].0, ToJson(fs[i].1)), PresentJson(fs, i + 1));
      }
    }
  }

  lemma KeyRoundTrip(k: string, rest: string)
    ensures Quote(k) + rest != [] && (Quote(k) + rest)[0] == '"'
    ensures ParseStringBody((Quote(k) + rest)[1..], "") == Some((k, rest))
  {
    assert (Quote(k) + rest)[1..] == Escape(k) + "\"" + rest;
    EscapeRoundTrip(k, rest, "");
    assert "" + k == k;
  }

  /** ParseMembers unfolded once, for a member whose pieces are already known. */
  lemma MembersUnfold(t: string, key: string, after: string, v: Value, tail: string, acc: Fields)
    requires t != [] && t[0] == '"' && ParseStringBody(t[1..], "") == Some((key, after))
    requires after != [] && after[0] == ':' && ParseValue(after[1..]) == Some((v, tail))
    ensures ParseMembers(t, acc)
         == (var w := SkipWs(tail);
             if w == [] then None
             else if w[0] == ',' then ParseMembers(w[1..], Put(acc, key, v))
             else if w[0] == '}' then Some((Obj(Put(acc, key, v)), w[1..]))
             else None)
  {
    assert SkipWs(t) == t;
    assert SkipWs(after) == after;
  }

  /** ParseMembers on one member followed by `tail`, up to the separator after it. */
  lemma MemberStep(k: string, v: Value, tail: string, acc: Fields)
    requires v != Undefined && WellKeyed(v) && Delimited(tail)
    ensures ParseMembers(Quote(k) + ":" + Stringify(v) + tail, acc)
         == (var w := SkipWs(tail);
             if w == [] then None
             else if w[0] == ',' then ParseMembers(w[1..], Put(acc, k, ToJson(v)))
             else if w[0] == '}' then Some((Obj(Put(acc, k, ToJson(v))), w[1..]))
             else None)
    decreases v, 2
  {
    var after := ":" + Stringify(v) + tail;
    var text := Quote(k) + after;
    Assoc4(Quote(k), ":", Stringify(v), tail);
    KeyRoundTrip(k, after);
    assert after[1..] == Stringify(v) + tail;
    ValueRoundTrip(v, tail);
    MembersUnfold(text, k, after, ToJson(v), tail, acc);
  }

  /** The text of a present member, unfolded once, and its JSON image. */
  lemma MembersPresent(fs: Fields, i: nat)
    requires i < |fs| && fs[i].1 != Undefined
    ensures Members(fs, i, false) == Quote(fs[i].0) + ":" + Stringify(fs[i].1) + Members(fs, i + 1, true)
    ensures PresentJson(fs, i) == [(fs[i].0, ToJson(fs[i].1))] + PresentJson(fs, i + 1)
  {
    assert "" + Quote(fs[i].0) == Quote(fs[i].0);
  }

  /** The last present member: parsing it closes the object. */
  lemma MemberLastRoundTrip(fs: Fields, i: nat, rest: string, acc: Fields)
    requires i < |fs| && fs[i].1 != Undefined && WellKeyed(fs[i].1) && PresentJson(fs, i + 1) == []
    ensures ParseMembers(Members(fs, i, false) + "}" + rest, acc)
         == Some((Obj(Put(acc, fs[i].0, ToJson(fs[i].1))), rest))
    decreases Obj(fs), 0, 0
  {
    var k, v := fs[i].0, fs[i].1;
    var tail := Members(fs, i + 1, true) + "}" + rest;
    MembersPresent(fs, i);
    Assoc4(Quote(k) + ":" + Stringify(v), Members(fs, i + 1, true), "}", rest);
    MembersEmpty(fs, i + 1, true);
    assert tail == "}" + rest;
    assert SkipWs(tail) == tail && tail[1..] == rest;
    MemberStep(k, v, tail, acc);
  }

  /** A present member followed by more: parsing it adds the member and goes on after the comma. */
  lemma MemberNextRoundTrip(fs: Fields, i: nat, rest: string, acc: Fields)
    requires i < |fs| && fs[i].1 != Undefined && WellKeyed(fs[i].1) && PresentJson(fs, i + 1) != []
    ensures ParseMembers(Members(fs, i, false) + "}" + rest, acc)
         == ParseMembers(Members(fs, i + 1, false) + "}" + rest, Put(acc, fs[i].0, ToJson(fs[i].1)))
    decreases Obj(fs), 0, 0
  {
    var k, v := fs[i].0, fs[i].1;
    var tail := Members(fs, i + 1, true) + "}" + rest;
    var more := Members(fs, i + 1, false) + "}" + rest;
    MembersPresent(fs, i);
    Assoc4(Quote(k) + ":" + Stringify(v), Members(fs, i + 1, true), "}", rest);
    MembersStart(fs, i + 1, true);
    assert tail == "," + more;
    assert SkipWs(tail) == tail && tail[1..] == more;
    MemberStep(k, v, tail, acc);
  }

  lemma {:induction false} MembersRoundTrip(fs: Fields, i: nat, rest: string, acc: Fields)
    requires i <= |fs| && PresentJson(fs, i) != []
    requires DistinctKeys(fs) && forall j :: 0 <= j < |fs| ==> WellKeyed(fs[j].1)
    requires forall j :: i <= j < |fs| ==> !HasKey(acc, fs[j].0)
    ensures ParseMembers(Members(fs, i, false) + "}" + rest, acc)
         == Some((Obj(acc + PresentJson(fs, i)), rest))
    decreases Obj(fs), 0, |fs| - i
  {
    if fs[i].1 == Undefined {
      MembersRoundTrip(fs, i + 1, rest, acc);
    } else if PresentJson(fs, i + 1) == [] {
      MemberLastRoundTrip(fs, i, rest, acc);
      MembersPresent(fs, i);
      assert Put(acc, fs[i].0, ToJson(fs[i].1)) == acc + PresentJson(fs, i);
    } else {
      var k, x := fs[i].0, ToJson(fs[i].1);
      MemberNextRoundTrip(fs, i, rest, acc);
      var acc' := Put(acc, k, x);
      assert acc' == acc + [(k, x)];
      forall j | i + 1 <= j < |fs| ensures !HasKey(acc', fs[j].0) {
        PutHasKey(acc, k, x, fs[j].0);
      }
      MembersRoundTrip(fs, i + 1, rest, acc');
      MembersPresent(fs, i);
      Assoc(acc, [(k, x)], PresentJson(fs, i + 1));
    }
  }

  /** JSON.parse(JSON.stringify(v)) == ToJson(v). */
  lemma ParseStringify(v: Value)
    requires v != Undefined && WellKeyed(v)
    ensures Parse(Stringify(v)) == Some(ToJson(v))
  {
    ValueRoundTrip(v, []);
    assert Stringify(v) + [] == Stringify(v);
  }

  // ---------------------------------------------------------------------
  // Values JSON.parse can produce come back unchanged

  lemma {:induction false} JsonLikeWellKeyed(v: Value)
    requires JsonLike(v)
    ensures WellKeyed(v)
    decreases v
  {
    match v
    case Arr(xs) =>
      forall i | 0 <= i < |xs| ensures WellKeyed(xs[i]) {
        JsonLikeWellKeyed(xs[i]);
      }
    case Obj(fs) =>
      forall i | 0 <= i < |fs| ensures WellKeyed(fs[i].1) {
        JsonLikeWellKeyed(fs[i].1);
      }
    case _ =>
  }

  // ---------------------------------------------------------------------
  // What JSON.parse produces

  lemma ScalarJsonLike(t: string)
    ensures ParseScalar(t).Some? ==> JsonLike(ParseScalar(t).value.0)
  {
  }

  /** Every value read from text has no `undefined` in it and no repeated key. */
  lemma {:induction false} ValueJsonLike(s: string)
    ensures ParseValue(s).Some? ==> JsonLike(ParseValue(s).value.0)
    decreases |s|, 0
  {
    var t := SkipWs(s);
    if t != [] && t[0] == '{' {
      ValueAtObject(t);
      ObjectJsonLike(t[1..]);
    } else if t != [] && t[0] == '[' {
      ValueAtArray(t);
      ArrayJsonLike(t[1..]);
    } else if t != [] {
      ValueAtScalar(t);
      ScalarJsonLike(t);
    }
  }

  lemma {:induction false} ArrayJsonLike(s: string)
    ensures ParseArray(s).Some? ==> JsonLike(ParseArray(s).value.0)
    decreases |s|, 2
  {
    var t := SkipWs(s);
    if !(t != [] && t[0] == ']') {
      ElementsJsonLike(t, []);
    }
  }

  lemma {:induction false} ElementsJsonLike(s: string, acc: seq<Value>)
    requires forall i :: 0 <= i < |acc| ==> JsonLike(acc[i])
    ensures ParseElements(s, acc).Some? ==> JsonLike(ParseElements(s, acc).value.0)
    decreases |s|, 1
  {
    ValueJsonLike(s);
    if ParseValue(s).Some? {
      var (v, rest) := ParseValue(s).value;
      var acc' := acc + [v];
      assert forall i :: 0 <= i < |acc'| ==> JsonLike(acc'[i]) by {
        forall i | 0 <= i < |acc'| ensures JsonLike(acc'[i]) {
          if i < |acc| { assert acc'[i] == acc[i]; }
        }
      }
      var t := SkipWs(rest);
      if t != [] && t[0] == ',' {
        ElementsJsonLike(t[1..], acc');
      }
    }
  }

  lemma {:induction false} ObjectJsonLike(s: string)
    ensures ParseObject(s).Some? ==> JsonLike(ParseObject(s).value.0)
    decreases |s|, 2
  {
    var t := SkipWs(s);
    if !(t != [] && t[0] == '}') {
      MembersJsonLike(t, []);
    }
  }

  lemma {:induction false} MembersJsonLike(s: string, acc: Fields)
    requires DistinctKeys(acc) && forall i :: 0 <= i < |acc| ==> JsonLike(acc[i].1)
    ensures ParseMembers(s, acc).Some? ==> JsonLike(ParseMembers(s, acc).value.0)
    decreases |s|, 1
  {
    var t := SkipWs(s);
    if t != [] && t[0] == '"' && ParseStringBody(t[1..], "").Some? {
      var (key, rest) := ParseStringBody(t[1..], "").value;
      var u := SkipWs(rest);
      if u != [] && u[0] == ':' {
        ValueJsonLike(u[1..]);
        if ParseValue(u[1..]).Some? {
          var (v, rest') := ParseValue(u[1..]).value;
          PutDistinct(acc, key, v);
          PutJsonLike(acc, key, v);
          var w := SkipWs(rest');
          if w != [] && w[0] == ',' {
            MembersJsonLike(w[1..], Put(acc, key, v));
          }
        }
      }
    }
  }

  /** `JSON.parse` never produces `undefined` or a repeated key. */
  lemma ParseJsonLike(text: string)
    ensures Parse(text).Some? ==> JsonLike(Parse(text).value)
  {
    ValueJsonLike(text);
  }

  /** A value with no `undefined` in it is its own JSON image. */
  lemma {:induction false} ToJsonOfJsonLike(v: Value)
    requires JsonLike(v)
    ensures ToJson(v) == v
    decreases v, 1
  {
    match v
    case Arr(xs) =>
      ElementsJsonOfJsonLike(xs, 0);
    case Obj(fs) =>
      PresentJsonOfJsonLike(fs, 0);
    case _ =>
  }

  lemma {:induction false} ElementsJsonOfJsonLike(xs: seq<Value>, i: nat)
    requires i <= |xs| && forall j :: i <= j < |xs| ==> JsonLike(xs[j])
    ensures ElementsJson(xs, i) == xs[i..]
    decreases Arr(xs), 0, |xs| - i
  {
    if i < |xs| {
      ToJsonOfJsonLike(xs[i]);
      ElementsJsonOfJsonLike(xs, i + 1);
      assert xs[i..] == [xs[i]] + xs[i + 1..];
    }
  }

  lemma {:induction false} PresentJsonOfJsonLike(fs: Fields, i: nat)
    requires i <= |fs| && forall j :: i <= j < |fs| ==> JsonLike(fs[j].1)
    ensures PresentJson(fs, i) == fs[i..]
    decreases Obj(fs), 0, |fs| - i
  {
    if i < |fs| {
      ToJsonOfJsonLike(fs[i].1);
      PresentJsonOfJsonLike(fs, i + 1);
      assert fs[i..] == [fs[i]] + fs[i + 1..];
    }
  }
}
