/**
 * The expiring record adapter of `src/storage.ts`: a state is stored as a
 * record `{expires, state}` whose `expires` is an absolute time; reading a
 * record that is missing, unreadable or past its time removes the key and
 * yields `null`. The clock (`Date.now()`) is the parameter `now`.
 */
module Records {
  import opened Wrappers
  import opened Host

  /** `StateRecord<T>`: the stored envelope. */
  datatype StateRecord<T> = StateRecord(expires: int, state: T)

  /**
   * `stringify`/`parse` on records, taken as given: `stringify` yields `None`
   * where `JSON.stringify` throws, `parse` yields `None` where `JSON.parse`
   * throws or the text does not denote a record.
   */
  datatype RecordJson<!T> = RecordJson(stringify: StateRecord<T> -> Option<string>, parse: string -> Option<StateRecord<T>>)

  /** A codec whose parser reads back every record its serialiser writes. */
  ghost predicate RoundTrips<T(!new)>(json: RecordJson<T>) {
    forall r :: json.stringify(r).Some? ==> json.parse(json.stringify(r).value) == Some(r)
  }

  /** `parse(str)`: a missing text parses as `"null"`, which is no record. */
  function Parse<T>(json: RecordJson<T>, str: Option<string>): (r: Option<StateRecord<T>>)
    ensures str.None? ==> r.None?
    ensures r.Some? ==> str.Some? && json.parse(str.value) == r
  {
    match str
    case None => None
    case Some(s) => json.parse(s)
  }

  /** `createStateRecord(state, ttl)` at time `now`. */
  function CreateStateRecord<T>(state: T, ttl: int, now: int): (r: StateRecord<T>)
    ensures r.state == state
    ensures !HasExpired(Some(r), now) <==> ttl >= 0
  {
    StateRecord(now + ttl, state)
  }

  /** `hasExpired(maybeRecord)` at time `now`: no record counts as expired. */
  predicate HasExpired<T>(maybeRecord: Option<StateRecord<T>>, now: int): (expired: bool)
    ensures !expired ==> maybeRecord.Some?
    ensures maybeRecord.Some? && now == maybeRecord.value.expires ==> !expired
  {
    match maybeRecord
    case None => true
    case Some(r) => now > r.expires
  }

  /** The text `getItem` parses: the supplied one, else what storage holds at `key` (`??`). */
  function Source(items: map<string, string>, key: string, storedItem: Option<string>): Option<string> {
    if storedItem.Some? then storedItem else Lookup(items, key)
  }

  /** The record `getItem` returns. */
  function Got<T>(json: RecordJson<T>, items: map<string, string>, key: string, storedItem: Option<string>, now: int)
    : (r: Option<StateRecord<T>>)
    ensures r.Some? ==> r == Parse(json, Source(items, key, storedItem)) && now <= r.value.expires
    ensures r.None? <==> HasExpired(Parse(json, Source(items, key, storedItem)), now)
  {
    var maybeRecord := Parse(json, Source(items, key, storedItem));
    if HasExpired(maybeRecord, now) then None else maybeRecord
  }

  /** The storage after `getItem`: `key` evicted exactly when no live record came back. */
  function AfterGet<T>(json: RecordJson<T>, items: map<string, string>, key: string, storedItem: Option<string>, now: int)
    : (m: map<string, string>)
    ensures m == if Got(json, items, key, storedItem, now).None? then items - {key} else items
  {
    if HasExpired(Parse(json, Source(items, key, storedItem)), now) then items - {key} else items
  }

  /** The record `setItem` returns: none for a `null` state, else a fresh record, whether or not it was written. */
  function Put<T>(state: Option<T>, ttl: int, now: int): (r: Option<StateRecord<T>>)
    ensures r.None? <==> state.None?
    ensures r.Some? ==> r.value.state == state.value && r.value.expires == now + ttl
  {
    match state
    case None => None
    case Some(s) => Some(CreateStateRecord(s, ttl, now))
  }

  /** The storage after `setItem`: `key` removed for `null`, set when the record serialises, else untouched. */
  function AfterSet<T>(json: RecordJson<T>, items: map<string, string>, key: string, state: Option<T>, ttl: int, now: int)
    : (m: map<string, string>)
    ensures forall k :: k != key ==> Lookup(m, k) == Lookup(items, k)
    ensures state.None? ==> key !in m
    ensures state.Some? ==> var str := json.stringify(Put(state, ttl, now).value);
      if str.Some? then Lookup(m, key) == str else m == items
  {
    match state
    case None => items - {key}
    case Some(s) =>
      match json.stringify(CreateStateRecord(s, ttl, now))
      case Some(str) => items[key := str]
      case None => items
  }

  /**
   * `storage.getItem(key, storedItem)`: parse the supplied text or the stored
   * one; when the result is missing, malformed or expired remove `key` and
   * return `null`, else return the record and leave storage alone.
   */
  method GetItem<T>(storage: LocalStorage, json: RecordJson<T>, key: string, storedItem: Option<string>, now: int)
    returns (r: Option<StateRecord<T>>)
    modifies storage
    ensures r == Got(json, old(storage.items), key, storedItem, now)
    ensures storage.items == AfterGet(json, old(storage.items), key, storedItem, now)
    ensures storage.accesses == old(storage.accesses)
      + (if storedItem.Some? then [] else [Read(key)])
      + (if r.None? then [Remove(key)] else [])
  {
    var str := storedItem;
    if str.None? {
      str := storage.GetItem(key);
    }
    var maybeRecord := Parse(json, str);
    if HasExpired(maybeRecord, now) {
      storage.RemoveItem(key);
      return None;
    }
    return maybeRecord;
  }

  /**
   * `storage.setItem(key, state, ttl)`: remove `key` for a `null` state;
   * otherwise build the record, write it only if it serialises, and return it.
   */
  method SetItem<T>(storage: LocalStorage, json: RecordJson<T>, key: string, state: Option<T>, ttl: int, now: int)
    returns (r: Option<StateRecord<T>>)
    modifies storage
    ensures r == Put(state, ttl, now)
    ensures storage.items == AfterSet(json, old(storage.items), key, state, ttl, now)
    ensures storage.accesses == old(storage.accesses) +
      if state.None? then [Remove(key)]
      else if json.stringify(r.value).Some? then [Write(key, json.stringify(r.value).value)]
      else []
  {
    if state.None? {
      storage.RemoveItem(key);
      return None;
    }
    var record := CreateStateRecord(state.value, ttl, now);
    var str := json.stringify(record);
    if str.Some? {
      storage.SetItem(key, str.value);
    }
    return Some(record);
  }

  /** A record is live up to and including its `expires` instant, and expired strictly after it. */
  lemma ExpiresStrictlyAfter<T>(state: T, ttl: int, created: int, now: int)
    ensures !HasExpired(Some(CreateStateRecord(state, ttl, created)), now) <==> now <= created + ttl
    ensures HasExpired<T>(None, now)
  {
  }

  /** Once expired, a record stays expired at every later time. */
  lemma ExpiryIsMonotone<T>(maybeRecord: Option<StateRecord<T>>, now: int, later: int)
    requires HasExpired(maybeRecord, now) && now <= later
    ensures HasExpired(maybeRecord, later)
  {
  }

  /**
   * Writing then reading back: a state set at `created` with `ttl` reads back
   * as the very record `setItem` returned up to `created + ttl`, and from then
   * on reads as `null` with the key evicted. A `null` state reads as `null`.
   */
  lemma SetThenGet<T(!new)>(json: RecordJson<T>, items: map<string, string>, key: string,
                            state: Option<T>, ttl: int, created: int, now: int)
    requires RoundTrips(json)
    requires state.Some? ==> json.stringify(CreateStateRecord(state.value, ttl, created)).Some?
    ensures var stored := AfterSet(json, items, key, state, ttl, created);
      && Got(json, stored, key, None, now) == (if now <= created + ttl then Put(state, ttl, created) else None)
      && AfterGet(json, stored, key, None, now) == (if state.Some? && now <= created + ttl then stored else stored - {key})
  {
  }

  /** Reading twice at the same time gives the same record and storage as reading once. */
  lemma GetIdempotent<T>(json: RecordJson<T>, items: map<string, string>, key: string, now: int)
    ensures var once := AfterGet(json, items, key, None, now);
      && Got(json, once, key, None, now) == Got(json, items, key, None, now)
      && AfterGet(json, once, key, None, now) == once
  {
  }
}
