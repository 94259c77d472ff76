/**
 * The normalisation the session store applies to every user record it keeps
 * (src/store/authStore.js lines 15, 29 and 67): a falsy record becomes
 * `null`; any other record `u` becomes `{ id: u.id || u._id, ...u }`, a new
 * object whose first property is `id` and which then receives a copy of
 * every own property of `u`. Because the spread comes after `id`, a record
 * that has its own `id` keeps that value, even a falsy one; only a record
 * without an `id` key gets its `_id`.
 */
module UserId {

  import opened JsValue
  import opened JsonStringify
  import JsonRoundTrip
  import Decimal

  /** The object literal `{ id: u.id || u._id }` that the spread starts from. */
  function IdSeed(u: Value): Fields
  {
    [("id", Or(Prop(u, "id"), Prop(u, "_id")))]
  }

  /** An object whose first property is `id`, with no key repeated. */
  predicate IdFirst(v: Value)
  {
    v.Obj? && |v.fields| > 0 && v.fields[0].0 == "id" && DistinctKeys(v.fields)
  }

  /** `u ? { id: u.id || u._id, ...u } : null` */
  function Normalize(u: Value): (r: Value)
    ensures r == Null <==> !Truthy(u)
    ensures r != Null ==> IdFirst(r)
  {
    if !Truthy(u) then Null
    else
      SpreadDistinct(IdSeed(u), OwnEntries(u));
      Obj(Spread(IdSeed(u), OwnEntries(u)))
  }

  // ---------------------------------------------------------------------
  // What a spread copies out of a value

  /** Strings and arrays spread their elements under the keys "0", "1", ... */
  lemma OwnEntriesIndexKeys(v: Value, i: nat)
    requires !v.Obj? && i < |OwnEntries(v)|
    ensures Decimal.AllDigits(OwnEntries(v)[i].0)
    ensures OwnEntries(v)[i].0 != "id" && OwnEntries(v)[i].0 != "_id"
  {
    var k := OwnEntries(v)[i].0;
    assert k == Decimal.NatToString(i);
    assert Decimal.IsDigit(k[0]);
  }

  lemma OwnEntriesNoIdKeys(v: Value)
    requires !v.Obj?
    ensures !HasKey(OwnEntries(v), "id") && !HasKey(OwnEntries(v), "_id")
  {
    forall i | 0 <= i < |OwnEntries(v)| ensures OwnEntries(v)[i].0 != "id" && OwnEntries(v)[i].0 != "_id" {
      OwnEntriesIndexKeys(v, i);
    }
  }

  lemma OwnEntriesDistinct(v: Value)
    requires v.Obj? ==> DistinctKeys(v.fields)
    ensures DistinctKeys(OwnEntries(v))
  {
    if !v.Obj? {
      var e := OwnEntries(v);
      forall i, j | 0 <= i < j < |e| ensures e[i].0 != e[j].0 {
        if e[i].0 == e[j].0 {
          Decimal.NatToStringInjective(i, j);
        }
      }
    }
  }

  lemma OwnEntriesJsonLike(v: Value)
    requires JsonLike(v)
    ensures forall j :: 0 <= j < |OwnEntries(v)| ==> JsonLike(OwnEntries(v)[j].1)
  {
  }

  lemma OwnEntriesWellKeyed(v: Value)
    requires WellKeyed(v)
    ensures forall j :: 0 <= j < |OwnEntries(v)| ==> WellKeyed(OwnEntries(v)[j].1)
  {
  }

  // ---------------------------------------------------------------------
  // The shape of a normalised record

  /**
   * The first property is `id`, holding the record's own `id` when it has
   * one and `u.id || u._id` otherwise; every other property is one of the
   * record's own, with its value.
   */
  lemma NormalizeEntries(u: Value)
    requires Truthy(u) && DistinctKeys(OwnEntries(u))
    ensures var g := Normalize(u).fields; var e := OwnEntries(u);
      g[0] == ("id", if HasKey(e, "id") then Get(e, "id") else Or(Prop(u, "id"), Prop(u, "_id")))
      && (forall k :: HasKey(g, k) <==> k == "id" || HasKey(e, k))
      && (forall i :: 1 <= i < |g| ==> HasKey(e, g[i].0) && g[i].1 == Get(e, g[i].0))
  {
    var g := Normalize(u).fields;
    var e := OwnEntries(u);
    var seed := IdSeed(u);
    SpreadGet(seed, e, "id");
    forall k ensures HasKey(g, k) <==> k == "id" || HasKey(e, k) {
      SpreadHasKey(seed, e, k);
    }
    forall i | 1 <= i < |g| ensures HasKey(e, g[i].0) && g[i].1 == Get(e, g[i].0) {
      var k := g[i].0;
      assert g[0].0 == "id" && k != "id";
      SpreadHasKey(seed, e, k);
      SpreadGet(seed, e, k);
    }
  }

  /** The `id` of a normalised object record: its own `id` if it has one, else its `_id`. */
  lemma NormalizeIdOfObject(fs: Fields)
    requires DistinctKeys(fs)
    ensures Get(Normalize(Obj(fs)).fields, "id") == if HasKey(fs, "id") then Get(fs, "id") else Get(fs, "_id")
  {
    SpreadGet(IdSeed(Obj(fs)), fs, "id");
  }

  /** Every other property of an object record is copied unchanged, and no other is added. */
  lemma NormalizeCopiesObject(fs: Fields, k: string)
    requires DistinctKeys(fs) && k != "id"
    ensures Get(Normalize(Obj(fs)).fields, k) == Get(fs, k)
    ensures HasKey(Normalize(Obj(fs)).fields, k) <==> HasKey(fs, k)
  {
    SpreadGet(IdSeed(Obj(fs)), fs, k);
    SpreadHasKey(IdSeed(Obj(fs)), fs, k);
  }

  /** A truthy record that is not an object gets `id: undefined` and its index-keyed elements. */
  lemma {:induction false} NormalizeNonObject(u: Value)
    requires Truthy(u) && !u.Obj?
    ensures Normalize(u) == Obj([("id", Undefined)] + OwnEntries(u))
  {
    var e := OwnEntries(u);
    OwnEntriesDistinct(u);
    OwnEntriesNoIdKeys(u);
    forall i | 0 <= i < |e| ensures !HasKey(IdSeed(u), e[i].0) {
      OwnEntriesIndexKeys(u, i);
    }
    SpreadFresh(IdSeed(u), e);
  }

  /** A record already in normal form is left as it is. */
  lemma {:induction false} IdFirstFixed(g: Fields)
    requires IdFirst(Obj(g))
    ensures Normalize(Obj(g)) == Obj(g)
  {
    var seed := IdSeed(Obj(g));
    assert Put(seed, g[0].0, g[0].1) == [g[0]];
    assert Spread(seed, g) == Spread([g[0]], g[1..]);
    assert DistinctKeys(g[1..]) by {
      forall i, j | 0 <= i < j < |g[1..]| ensures g[1..][i].0 != g[1..][j].0 {
        assert g[1..][i] == g[i + 1] && g[1..][j] == g[j + 1];
      }
    }
    forall i | 0 <= i < |g[1..]| ensures !HasKey([g[0]], g[1..][i].0) {
      assert g[1..][i] == g[i + 1];
    }
    SpreadFresh([g[0]], g[1..]);
    assert [g[0]] + g[1..] == g;
  }

  /** Normalising twice is normalising once. */
  lemma NormalizeIdempotent(u: Value)
    ensures Normalize(Normalize(u)) == Normalize(u)
  {
    if Truthy(u) {
      IdFirstFixed(Normalize(u).fields);
    }
  }

  lemma NormalizeWellKeyed(u: Value)
    requires WellKeyed(u)
    ensures WellKeyed(Normalize(u))
  {
    if Truthy(u) {
      var g := Normalize(u).fields;
      var e := OwnEntries(u);
      OwnEntriesDistinct(u);
      OwnEntriesWellKeyed(u);
      NormalizeEntries(u);
      forall i | 0 <= i < |g| ensures WellKeyed(g[i].1) {
        if i == 0 && !HasKey(e, "id") {
          if u.Obj? && HasKey(e, "_id") {
            var j :| 0 <= j < |e| && e[j].0 == "_id";
            assert Get(e, "_id") == e[j].1;
          }
        } else {
          var j :| 0 <= j < |e| && e[j].0 == g[i].0;
          assert Get(e, g[i].0) == e[j].1;
        }
      }
    }
  }

  /** Every property after `id` of a normalised JSON-like record holds a JSON-like value. */
  lemma NormalizeTailJsonLike(u: Value)
    requires Truthy(u) && JsonLike(u)
    ensures forall i :: 1 <= i < |Normalize(u).fields| ==> JsonLike(Normalize(u).fields[i].1)
  {
    var g := Normalize(u).fields;
    var e := OwnEntries(u);
    OwnEntriesDistinct(u);
    OwnEntriesJsonLike(u);
    NormalizeEntries(u);
    forall i | 1 <= i < |g| ensures JsonLike(g[i].1) {
      var j :| 0 <= j < |e| && e[j].0 == g[i].0;
      assert Get(e, g[i].0) == e[j].1;
    }
  }

  /** The `id` slot is JSON-like when the record has an `id` or `_id` key, and `undefined` otherwise. */
  lemma IdSlot(u: Value)
    requires Truthy(u) && JsonLike(u)
    ensures var e := OwnEntries(u); var x := Normalize(u).fields[0].1;
      (HasKey(e, "id") || HasKey(e, "_id") ==> JsonLike(x))
      && (!HasKey(e, "id") && !HasKey(e, "_id") ==> x == Undefined)
  {
    var e := OwnEntries(u);
    OwnEntriesDistinct(u);
    OwnEntriesJsonLike(u);
    NormalizeEntries(u);
    if !u.Obj? {
      OwnEntriesNoIdKeys(u);
    } else if HasKey(e, "id") {
      var j :| 0 <= j < |e| && e[j].0 == "id";
      assert Get(e, "id") == e[j].1;
    } else if HasKey(e, "_id") {
      var j :| 0 <= j < |e| && e[j].0 == "_id";
      assert Get(e, "_id") == e[j].1;
    }
  }

  /** With an `id` or `_id` key the normalised record is JSON-like and its own JSON image. */
  lemma SurvivesWithId(u: Value)
    requires Truthy(u) && JsonLike(u)
    requires HasKey(OwnEntries(u), "id") || HasKey(OwnEntries(u), "_id")
    ensures Normalize(ToJson(Normalize(u))) == Normalize(u)
  {
    var g := Normalize(u).fields;
    NormalizeTailJsonLike(u);
    IdSlot(u);
    assert JsonLike(Normalize(u));
    JsonRoundTrip.ToJsonOfJsonLike(Normalize(u));
    IdFirstFixed(g);
  }

  /** Without either key JSON drops `id: undefined`, and normalising again puts it back first. */
  lemma SurvivesWithoutId(u: Value)
    requires Truthy(u) && JsonLike(u)
    requires !HasKey(OwnEntries(u), "id") && !HasKey(OwnEntries(u), "_id")
    ensures Normalize(ToJson(Normalize(u))) == Normalize(u)
  {
    var g := Normalize(u).fields;
    var e := OwnEntries(u);
    OwnEntriesDistinct(u);
    NormalizeEntries(u);
    NormalizeTailJsonLike(u);
    IdSlot(u);
    var rest := g[1..];
    JsonRoundTrip.PresentJsonOfJsonLike(g, 1);
    assert ToJson(Normalize(u)) == Obj(rest);
    forall i | 0 <= i < |rest| ensures rest[i].0 != "id" && rest[i].0 != "_id" && !HasKey([g[0]], rest[i].0) {
      assert rest[i] == g[i + 1];
      assert HasKey(g, g[i + 1].0);
    }
    assert IdSeed(Obj(rest)) == [g[0]];
    assert DistinctKeys(rest) by {
      forall i, j | 0 <= i < j < |rest| ensures rest[i].0 != rest[j].0 {
        assert rest[i] == g[i + 1] && rest[j] == g[j + 1];
      }
    }
    SpreadFresh([g[0]], rest);
    assert [g[0]] + rest == g;
  }

  /**
   * A normalised record survives being written with JSON.stringify, read
   * back with JSON.parse and normalised again: an `id: undefined` dropped by
   * the encoding is put back in front by the second normalisation.
   */
  lemma NormalizeSurvivesJson(u: Value)
    requires !Truthy(u) || JsonLike(u)
    ensures Normalize(ToJson(Normalize(u))) == Normalize(u)
  {
    if Truthy(u) {
      if HasKey(OwnEntries(u), "id") || HasKey(OwnEntries(u), "_id") {
        SurvivesWithId(u);
      } else {
        SurvivesWithoutId(u);
      }
    }
  }

  // ---------------------------------------------------------------------
  // Records as the backend sends them

  /** A record with only `_id` gains an `id` equal to it, placed first. */
  lemma BackendRecord()
    ensures Normalize(Obj([("_id", Str("42")), ("username", Str("alice"))]))
         == Obj([("id", Str("42")), ("_id", Str("42")), ("username", Str("alice"))])
  {
    var fs := [("_id", Str("42")), ("username", Str("alice"))];
    assert Get(fs, "id") == Undefined && Get(fs, "_id") == Str("42");
    var seed := [("id", Str("42"))];
    assert IdSeed(Obj(fs)) == seed;
    assert !HasKey(seed, "_id") && !HasKey(seed, "username");
    SpreadFresh(seed, fs);
  }

  /** A record's own `id` wins over `_id` even when it is falsy. */
  lemma FalsyOwnIdKept()
    ensures Normalize(Obj([("id", Num(0)), ("_id", Str("7"))])) == Obj([("id", Num(0)), ("_id", Str("7"))])
  {
    IdFirstFixed([("id", Num(0)), ("_id", Str("7"))]);
  }
}
