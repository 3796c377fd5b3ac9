/** The browser's `localStorage`, the dictionary the store writes its session
    through to. Stored values are kept as the values they encode: the string
    conversion `setItem` applies and the JSON round trip are not modelled. */
module Browser {
  import opened Js

  class LocalStorage {
    var items: map<string, Value>

    /** The storage as a page load finds it. */
    constructor (saved: map<string, Value>)
      ensures items == saved
    {
      items := saved;
    }

    /** `localStorage.setItem(key, v)` */
    method SetItem(key: string, v: Value)
      modifies this
      ensures items == old(items)[key := v]
    {
      items := items[key := v];
    }

    /** `localStorage.removeItem(key)`: removing an absent key changes nothing. */
    method RemoveItem(key: string)
      modifies this
      ensures items == old(items) - {key}
    {
      items := items - {key};
    }
  }
}
