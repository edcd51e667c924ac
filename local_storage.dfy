/**
 * The browser's `localStorage`: a string-to-string dictionary that
 * `getItem` reads (`null` for a missing key), and `setItem` and `removeItem`
 * update in place.
 */
module LocalStorage {
  import opened Wrappers

  /** `getItem` on a dictionary: `None` stands for `null`. */
  function Get(items: map<string, string>, key: string): (r: Option<string>)
    ensures r.Some? <==> key in items
    ensures r.Some? ==> r.value == items[key]
  {
    if key in items then Some(items[key]) else None
  }

  class Storage {
    var items: map<string, string>

    constructor (initial: map<string, string>)
      ensures items == initial
    {
      items := initial;
    }

    function GetItem(key: string): Option<string>
      reads this
    {
      Get(items, key)
    }

    /** `setItem`: stores `value` under `key` and keeps every other key. */
    method SetItem(key: string, value: string)
      modifies this
      ensures items == old(items)[key := value]
    {
      items := items[key := value];
    }

    /** `removeItem`: drops `key`, present or not, and keeps every other key. */
    method RemoveItem(key: string)
      modifies this
      ensures items == old(items) - {key}
    {
      items := items - {key};
    }
  }
}
