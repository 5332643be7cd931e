/**
 * The browser's `localStorage`, seen through `JSON.stringify`/`JSON.parse`: each key holds a
 * whole list, written as one snapshot that replaces what was there.
 */
module Storage {
  import opened Wrappers

  class KeyValueStore<T> {
    var items: map<string, seq<T>>

    constructor (initial: map<string, seq<T>>)
      ensures items == initial
    {
      items := initial;
    }

    /** `getItem(key)` followed by `JSON.parse`: `None` when the key was never written. */
    function GetItem(key: string): (r: Option<seq<T>>)
      reads this
      ensures r.Some? <==> key in items
      ensures r.Some? ==> r.value == items[key]
    {
      if key in items then Some(items[key]) else None
    }

    /** `setItem(key, JSON.stringify(value))`. */
    method SetItem(key: string, value: seq<T>)
      modifies this
      ensures items == old(items)[key := value]
    {
      items := items[key := value];
    }
  }
}
