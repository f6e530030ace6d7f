/**
 * The host's durable key-value storage (the browser's `localStorage`), shared by
 * every store and every adapter call. Besides the current entries it keeps a log
 * of every access made through it, so that contracts can say which keys were
 * read, written or removed, and that a write was skipped.
 */
module Host {
  import opened Wrappers

  /** One call made on the storage. */
  datatype Access = Read(key: string) | Write(key: string, value: string) | Remove(key: string)

  /** `getItem` on a plain map: the stored string, or `None` (JavaScript `null`) when the key is absent. */
  function Lookup(items: map<string, string>, key: string): (r: Option<string>)
    ensures r.Some? <==> key in items
    ensures r.Some? ==> r.value == items[key]
  {
    if key in items then Some(items[key]) else None
  }

  /** Every access in `log` is made at `key`. */
  ghost predicate OnlyAt(log: seq<Access>, key: string) {
    forall i :: 0 <= i < |log| ==> log[i].key == key
  }

  class LocalStorage {
    var items: map<string, string>
    var accesses: seq<Access>

    constructor (items: map<string, string>)
      ensures this.items == items && accesses == []
    {
      this.items := items;
      accesses := [];
    }

    method GetItem(key: string) returns (r: Option<string>)
      modifies this`accesses
      ensures r == Lookup(items, key)
      ensures accesses == old(accesses) + [Read(key)]
    {
      r := Lookup(items, key);
      accesses := accesses + [Read(key)];
    }

    method SetItem(key: string, value: string)
      modifies this
      ensures items == old(items)[key := value]
      ensures accesses == old(accesses) + [Write(key, value)]
    {
      items := items[key := value];
      accesses := accesses + [Write(key, value)];
    }

    method RemoveItem(key: string)
      modifies this
      ensures items == old(items) - {key}
      ensures accesses == old(accesses) + [Remove(key)]
    {
      items := items - {key};
      accesses := accesses + [Remove(key)];
    }
  }
}
