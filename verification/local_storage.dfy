/**
 * The browser's `localStorage` as the session store uses it: string values
 * under string keys, read with `getItem`, written with `setItem`, deleted
 * with `removeItem`.
 */
module Storage {

  import opened Wrappers

  /** `getItem` on a snapshot of the items: the stored string, or `null` (None) when the key is absent. */
  function Lookup(items: map<string, string>, key: string): Option<string>
  {
    if key in items then Some(items[key]) else None
  }

  /** Two `removeItem` calls in a row remove both keys. */
  lemma RemoveBoth(items: map<string, string>, a: string, b: string)
    ensures items - {a} - {b} == items - {a, b}
  {
    assert (items - {a} - {b}).Keys == (items - {a, b}).Keys;
  }

  class LocalStorage {
    var items: map<string, string>

    constructor(initial: map<string, string>)
      ensures items == initial
    {
      items := initial;
    }

    method GetItem(key: string) returns (value: Option<string>)
      ensures key in items ==> value == Some(items[key])
      ensures key !in items ==> value == None
    {
      if key in items {
        value := Some(items[key]);
      } else {
        value := None;
      }
    }

    method SetItem(key: string, value: string)
      modifies this
      ensures items == old(items)[key := value]
    {
      items := items[key := value];
    }

    method RemoveItem(key: string)
      modifies this
      ensures items == old(items) - {key}
    {
      items := items - {key};
    }
  }
}
