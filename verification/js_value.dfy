/**
 * The JavaScript values the session store handles: what `JSON.parse` can
 * produce, plus `undefined`, which appears in memory (a user object whose
 * `id` property was filled from a missing `_id`) but is never written as JSON.
 *
 * An object is its list of own properties in insertion order, keys distinct
 * (DistinctKeys). Assigning a property (Put) replaces the value of an
 * existing key where it stands and appends a new key at the end; the object
 * spread `{...src}` (Spread) is that assignment repeated over `src`.
 */
module JsValue {

  import Decimal

  datatype Value =
    | Undefined
    | Null
    | Bool(b: bool)
    | Num(n: int)
    | Str(s: string)
    | Arr(items: seq<Value>)
    | Obj(fields: seq<(string, Value)>)

  type Fields = seq<(string, Value)>

  /** JavaScript truthiness: `false`, `0`, `""`, `null` and `undefined` are falsy. */
  predicate Truthy(v: Value) {
    match v
    case Undefined => false
    case Null => false
    case Bool(b) => b
    case Num(n) => n != 0
    case Str(s) => s != ""
    case Arr(_) => true
    case Obj(_) => true
  }

  /** `a || b` */
  function Or(a: Value, b: Value): Value
  {
    if Truthy(a) then a else b
  }

  predicate HasKey(fs: Fields, k: string) {
    exists i :: 0 <= i < |fs| && fs[i].0 == k
  }

  predicate DistinctKeys(fs: Fields) {
    forall i, j :: 0 <= i < j < |fs| ==> fs[i].0 != fs[j].0
  }

  /** Property read `o[k]`: the value stored under `k`, `undefined` when absent. */
  function Get(fs: Fields, k: string): (v: Value)
    ensures !HasKey(fs, k) ==> v == Undefined
    ensures forall i :: 0 <= i < |fs| && fs[i].0 == k && DistinctKeys(fs) ==> v == fs[i].1
  {
    if fs == [] then Undefined
    else if fs[0].0 == k then fs[0].1
    else
      assert forall i :: 1 <= i < |fs| ==> fs[i] == fs[1..][i - 1];
      Get(fs[1..], k)
  }

  /** Property assignment `o[k] = v`. */
  function Put(fs: Fields, k: string, v: Value): (r: Fields)
    ensures HasKey(fs, k) ==> |r| == |fs|
    ensures !HasKey(fs, k) ==> r == fs + [(k, v)]
    ensures forall i :: 0 <= i < |fs| ==> r[i].0 == fs[i].0
    ensures forall i :: 0 <= i < |fs| && fs[i].0 != k ==> r[i] == fs[i]
  {
    if fs == [] then [(k, v)]
    else if fs[0].0 == k then [(k, v)] + fs[1..]
    else
      assert forall i :: 1 <= i < |fs| ==> fs[i] == fs[1..][i - 1];
      [fs[0]] + Put(fs[1..], k, v)
  }

  /** `{...target, ...src}` read as `for (k in src) target[k] = src[k]`. */
  function Spread(target: Fields, src: Fields): (r: Fields)
    ensures |r| >= |target|
    ensures forall i :: 0 <= i < |target| ==> r[i].0 == target[i].0
    decreases |src|
  {
    if src == [] then target else Spread(Put(target, src[0].0, src[0].1), src[1..])
  }

  /** The properties an object spread copies out of a value. */
  function OwnEntries(v: Value): Fields
  {
    match v
    case Obj(fs) => fs
    case Str(s) => seq(|s|, i requires 0 <= i < |s| => (Decimal.NatToString(i), Str([s[i]])))
    case Arr(xs) => seq(|xs|, i requires 0 <= i < |xs| => (Decimal.NatToString(i), xs[i]))
    case _ => []
  }

  /** Property read on any value; only objects have properties named by non-index keys. */
  function Prop(v: Value, k: string): Value
  {
    if v.Obj? then Get(v.fields, k) else Undefined
  }

  /** A value `JSON.parse` can produce: no `undefined`, no repeated key. */
  predicate JsonLike(v: Value)
    decreases v
  {
    match v
    case Undefined => false
    case Arr(xs) => forall i :: 0 <= i < |xs| ==> JsonLike(xs[i])
    case Obj(fs) => DistinctKeys(fs) && forall i :: 0 <= i < |fs| ==> JsonLike(fs[i].1)
    case _ => true
  }

  /** No object anywhere inside `v` repeats a key (true of every real JavaScript object). */
  predicate WellKeyed(v: Value)
    decreases v
  {
    match v
    case Arr(xs) => forall i :: 0 <= i < |xs| ==> WellKeyed(xs[i])
    case Obj(fs) => DistinctKeys(fs) && forall i :: 0 <= i < |fs| ==> WellKeyed(fs[i].1)
    case _ => true
  }

  // ---------------------------------------------------------------------
  // Properties of assignment and spread

  lemma {:induction false} PutGet(fs: Fields, k: string, v: Value, k': string)
    ensures Get(Put(fs, k, v), k') == if k' == k then v else Get(fs, k')
  {
    if fs != [] && fs[0].0 != k {
      PutGet(fs[1..], k, v, k');
      assert Put(fs, k, v)[1..] == Put(fs[1..], k, v);
    }
  }

  lemma {:induction false} PutHasKey(fs: Fields, k: string, v: Value, k': string)
    ensures HasKey(Put(fs, k, v), k') <==> k' == k || HasKey(fs, k')
  {
    var r := Put(fs, k, v);
    if HasKey(fs, k) {
      var j :| 0 <= j < |fs| && fs[j].0 == k;
      assert r[j].0 == k;
      if HasKey(r, k') {
        var i :| 0 <= i < |r| && r[i].0 == k';
        assert fs[i].0 == k';
      }
      if HasKey(fs, k') {
        var i :| 0 <= i < |fs| && fs[i].0 == k';
        assert r[i].0 == k';
      }
    } else {
      assert r[|fs|].0 == k;
      if HasKey(r, k') && k' != k {
        var i :| 0 <= i < |r| && r[i].0 == k';
        assert i < |fs| && fs[i].0 == k';
      }
      if HasKey(fs, k') {
        var i :| 0 <= i < |fs| && fs[i].0 == k';
        assert r[i].0 == k';
      }
    }
  }

  lemma PutDistinct(fs: Fields, k: string, v: Value)
    requires DistinctKeys(fs)
    ensures DistinctKeys(Put(fs, k, v))
  {
    var r := Put(fs, k, v);
    if !HasKey(fs, k) {
      forall i, j | 0 <= i < j < |r| ensures r[i].0 != r[j].0 {
        if j == |fs| {
          assert r[i].0 == fs[i].0;
        }
      }
    }
  }

  lemma {:induction false} SpreadDistinct(target: Fields, src: Fields)
    requires DistinctKeys(target)
    ensures DistinctKeys(Spread(target, src))
    decreases |src|
  {
    if src != [] {
      PutDistinct(target, src[0].0, src[0].1);
      SpreadDistinct(Put(target, src[0].0, src[0].1), src[1..]);
    }
  }

  lemma {:induction false} SpreadHasKey(target: Fields, src: Fields, k: string)
    ensures HasKey(Spread(target, src), k) <==> HasKey(target, k) || HasKey(src, k)
    decreases |src|
  {
    if src != [] {
      PutHasKey(target, src[0].0, src[0].1, k);
      SpreadHasKey(Put(target, src[0].0, src[0].1), src[1..], k);
      if HasKey(src[1..], k) {
        var i :| 0 <= i < |src[1..]| && src[1..][i].0 == k;
        assert src[i + 1].0 == k;
      }
      if HasKey(src, k) && src[0].0 != k {
        var i :| 0 <= i < |src| && src[i].0 == k;
        assert src[1..][i - 1].0 == k;
      }
    }
  }

  /** After a spread, a key of `src` reads as in `src`, any other key as in `target`. */
  lemma {:induction false} SpreadGet(target: Fields, src: Fields, k: string)
    requires DistinctKeys(src)
    ensures Get(Spread(target, src), k) == if HasKey(src, k) then Get(src, k) else Get(target, k)
    decreases |src|
  {
    if src != [] {
      var t' := Put(target, src[0].0, src[0].1);
      assert DistinctKeys(src[1..]) by {
        forall i, j | 0 <= i < j < |src[1..]| ensures src[1..][i].0 != src[1..][j].0 {
          assert src[1..][i] == src[i + 1] && src[1..][j] == src[j + 1];
        }
      }
      SpreadGet(t', src[1..], k);
      PutGet(target, src[0].0, src[0].1, k);
      if src[0].0 == k {
        forall i | 0 <= i < |src[1..]| ensures src[1..][i].0 != k {
          assert src[1..][i] == src[i + 1];
        }
      } else {
        assert Get(src, k) == Get(src[1..], k);
        if HasKey(src, k) {
          var i :| 0 <= i < |src| && src[i].0 == k;
          assert src[1..][i - 1].0 == k;
        }
        if HasKey(src[1..], k) {
          var i :| 0 <= i < |src[1..]| && src[1..][i].0 == k;
          assert src[i + 1].0 == k;
        }
      }
    }
  }

  /** Spreading properties the target does not have appends them in order. */
  lemma {:induction false} SpreadFresh(target: Fields, src: Fields)
    requires DistinctKeys(src)
    requires forall i :: 0 <= i < |src| ==> !HasKey(target, src[i].0)
    ensures Spread(target, src) == target + src
    decreases |src|
  {
    if src != [] {
      var t' := Put(target, src[0].0, src[0].1);
      assert t' == target + [src[0]];
      forall i | 0 <= i < |src[1..]| ensures !HasKey(t', src[1..][i].0) {
        assert src[1..][i] == src[i + 1];
        PutHasKey(target, src[0].0, src[0].1, src[i + 1].0);
      }
      assert DistinctKeys(src[1..]) by {
        forall i, j | 0 <= i < j < |src[1..]| ensures src[1..][i].0 != src[1..][j].0 {
          assert src[1..][i] == src[i + 1] && src[1..][j] == src[j + 1];
        }
      }
      SpreadFresh(t', src[1..]);
      assert target + [src[0]] + src[1..] == target + src;
    }
  }

  /** Assigning a JSON-like value into an object whose values are JSON-like keeps them JSON-like. */
  lemma {:induction false} PutJsonLike(fs: Fields, k: string, v: Value)
    requires forall i :: 0 <= i < |fs| ==> JsonLike(fs[i].1)
    requires JsonLike(v)
    ensures forall i :: 0 <= i < |Put(fs, k, v)| ==> JsonLike(Put(fs, k, v)[i].1)
  {
    if fs != [] && fs[0].0 != k {
      PutJsonLike(fs[1..], k, v);
      var r := Put(fs[1..], k, v);
      assert Put(fs, k, v) == [fs[0]] + r;
      forall i | 0 <= i < |Put(fs, k, v)| ensures JsonLike(Put(fs, k, v)[i].1) {
        if i > 0 { assert Put(fs, k, v)[i] == r[i - 1]; }
      }
    }
  }
}
