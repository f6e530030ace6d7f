/**
 * The store engine of `src/index.ts`: `makeStore(name, options)` builds a store
 * addressed in the host storage by the key `namespace + name`. It caches the
 * pair (state, serialised state), keeps an insertion-ordered set of subscriber
 * callbacks, writes through to storage on `setState` and republishes when
 * another context changes a key of its namespace.
 *
 * Subscriber callbacks are identified by a number; calling one is recorded as a
 * `Notification` appended to the store's `published` log, in call order.
 */
module Vessel {
  import opened Wrappers
  import opened Seqs
  import opened Host

  /** The key prefix used when the options name none. */
  const DefaultNamespace: string := "_pose-"

  /**
   * `JSON.stringify`/`JSON.parse` on states of type `T`, taken as given:
   * `stringify` yields `None` where it throws (a cycle, a BigInt), `parse`
   * yields `None` where it throws (malformed text), and `nullValue` is the
   * state `null`.
   */
  datatype Json<!T> = Json(stringify: T -> Option<string>, parse: string -> Option<T>, nullValue: T)

  /** A codec whose parser reads back every text its serialiser produces. */
  ghost predicate RoundTrips<T(!new)>(json: Json<T>) {
    forall v :: json.stringify(v).Some? ==> json.parse(json.stringify(v).value) == Some(v)
  }

  /** `str2State`: parse the text, treating a missing text as `"null"` and a parse error as `null`. */
  function Str2State<T>(json: Json<T>, str: Option<string>): (r: T)
    ensures str.Some? && json.parse(str.value).Some? ==> r == json.parse(str.value).value
    ensures r != json.nullValue ==> str.Some? && json.parse(str.value) == Some(r)
  {
    match str
    case None => json.nullValue
    case Some(s) => json.parse(s).GetOr(json.nullValue)
  }

  /** What the store caches and hands to subscribers: the state and its serialised text. */
  datatype FullState<T> = FullState(state: T, str: Option<string>)

  /** `makeMethods(..).getState(str)` once the text is known: the parsed state paired with its text. */
  function ToFullState<T>(json: Json<T>, str: Option<string>): FullState<T> {
    FullState(Str2State(json, str), str)
  }

  /** An optional argument that distinguishes `undefined` (not passed) from a passed value. */
  datatype Arg<T> = Undefined | Given(value: T)

  /** `makeStore`'s options; `None` stands for an option left out. */
  datatype Options<T> = Options(initialState: Option<T>, overwriteExisting: Option<bool>, namespace: Option<string>)

  /** The argument of `setState`: a new state, or a setter applied to the cached pair. */
  datatype Update<!T> = Replace(value: T) | Apply(setter: (T, Option<string>) -> T)

  /** The state `setState` computes from its argument and the cached pair. */
  function Resolve<T>(arg: Update<T>, cache: FullState<T>): (r: T)
    ensures arg.Replace? ==> r == arg.value
    ensures arg.Apply? ==> r == arg.setter(cache.state, cache.str)
  {
    match arg
    case Replace(v) => v
    case Apply(f) => f(cache.state, cache.str)
  }

  type CallbackId = nat

  /** One subscriber call `f(state, str)` made by `publish`. */
  datatype Notification<T> = Notification(subscriber: CallbackId, full: FullState<T>)

  /** The calls one `publish` makes: every subscriber, in insertion order, with the cached pair. */
  function Fanout<T>(subscribers: seq<CallbackId>, full: FullState<T>): (r: seq<Notification<T>>)
    ensures |r| == |subscribers|
    ensures forall n :: n in r ==> n.subscriber in subscribers && n.full == full
  {
    seq(|subscribers|, i requires 0 <= i < |subscribers| => Notification(subscribers[i], full))
  }

  /** The subscriber of each notification in a log, in order. */
  function Recipients<T>(log: seq<Notification<T>>): (r: seq<CallbackId>)
    ensures |r| == |log|
  {
    seq(|log|, i requires 0 <= i < |log| => log[i].subscriber)
  }

  /** The storage after `saveState` stored `str` at `key`: removed for `null`, set otherwise. */
  function Saved(items: map<string, string>, key: string, str: Option<string>): (r: map<string, string>)
    ensures Lookup(r, key) == str
    ensures forall k :: k != key ==> Lookup(r, k) == Lookup(items, k)
  {
    if str.None? then items - {key} else items[key := str.value]
  }

  /**
   * The storage calls `saveState` makes when `stored` is at `key` and it saves
   * `str`: one read, then a removal for `null`, a write only if the text differs
   * from the stored one, and nothing else.
   */
  function SaveAccesses(stored: Option<string>, key: string, str: Option<string>): (r: seq<Access>)
    ensures OnlyAt(r, key)
    ensures 1 <= |r| <= 2 && r[0] == Read(key)
    ensures Remove(key) in r <==> str.None?
    ensures forall v :: Write(key, v) in r <==> str == Some(v) && stored != str
  {
    [Read(key)] + (if str.None? then [Remove(key)] else if stored != str then [Write(key, str.value)] else [])
  }

  /** The listener's filter as written: the event's key exists and starts with the namespace. */
  predicate InNamespace(namespace: string, eventKey: Option<string>): (admitted: bool)
    ensures admitted <==> eventKey.Some? && |namespace| <= |eventKey.value| && eventKey.value[..|namespace|] == namespace
  {
    eventKey.Some? && namespace <= eventKey.value
  }

  /** `makeMethods(namespace, name).getState(stateStr)`: reads storage only when no text is passed. */
  method GetFullState<T>(storage: LocalStorage, json: Json<T>, key: string, stateStr: Arg<Option<string>>)
    returns (r: FullState<T>)
    modifies storage`accesses
    ensures var str := if stateStr.Given? then stateStr.value else Lookup(storage.items, key);
      r == ToFullState(json, str)
    ensures storage.accesses == old(storage.accesses) + (if stateStr.Given? then [] else [Read(key)])
  {
    var str: Option<string>;
    if stateStr.Given? {
      str := stateStr.value;
    } else {
      str := storage.GetItem(key);
    }
    r := ToFullState(json, str);
  }

  /**
   * `makeMethods(namespace, name).saveState(state, stateStr)`: the text is
   * `stateStr`, or the serialised state when none is passed; storage at `key`
   * is removed for a `null` text and written only when it differs.
   */
  method SaveState<T>(storage: LocalStorage, json: Json<T>, key: string, state: T, stateStr: Option<string>)
    returns (r: FullState<T>)
    modifies storage
    ensures var str := if stateStr.Some? then stateStr else json.stringify(state);
      && r == FullState(state, str)
      && storage.items == Saved(old(storage.items), key, str)
      && storage.accesses == old(storage.accesses) + SaveAccesses(Lookup(old(storage.items), key), key, str)
  {
    var current := storage.GetItem(key);
    var str := if stateStr.Some? then stateStr else json.stringify(state);
    if str.None? {
      storage.RemoveItem(key);
    } else if current != str {
      storage.SetItem(key, str.value);
    }
    r := FullState(state, str);
  }

  /** A store made by `makeStore`. */
  class Store<T(==)> {
    const name: string
    const namespace: string
    const key: string
    const json: Json<T>
    const storage: LocalStorage
    var cache: FullState<T>
    /** The subscriber `Set`, in insertion order. */
    var subscribers: seq<CallbackId>
    /** Whether the storage-event listener is registered (`clean` removes it). */
    var listening: bool
    /** Every subscriber call made so far, in order. */
    var published: seq<Notification<T>>

    ghost predicate Valid()
      reads this
    {
      key == namespace + name && NoDup(subscribers)
    }

    /**
     * `makeStore(name, options)`: reads the stored text; saves `initialState`
     * when it is given and either `overwriteExisting` is set or the stored
     * state parses to `null`; otherwise adopts the stored pair unchanged.
     */
    constructor (name: string, options: Options<T>, json: Json<T>, storage: LocalStorage)
      modifies storage
      ensures Valid()
      ensures this.name == name && namespace == options.namespace.GetOr(DefaultNamespace)
      ensures this.json == json && this.storage == storage
      ensures subscribers == [] && published == [] && listening
      ensures var stored := Lookup(old(storage.items), key);
        var existing := ToFullState(json, stored);
        if (options.overwriteExisting.GetOr(false) || existing.state == json.nullValue) && options.initialState.Some? then
          var str := json.stringify(options.initialState.value);
          && cache == FullState(options.initialState.value, str)
          && storage.items == Saved(old(storage.items), key, str)
          && storage.accesses == old(storage.accesses) + [Read(key)] + SaveAccesses(stored, key, str)
        else
          && cache == existing
          && storage.items == old(storage.items)
          && storage.accesses == old(storage.accesses) + [Read(key)]
    {
      var ns := options.namespace.GetOr(DefaultNamespace);
      var k := ns + name;
      var existing := GetFullState(storage, json, k, Undefined);
      var initial: FullState<T>;
      if (options.overwriteExisting.GetOr(false) || existing.state == json.nullValue) && options.initialState.Some? {
        initial := SaveState(storage, json, k, options.initialState.value, None);
      } else {
        initial := existing;
      }
      this.name := name;
      namespace := ns;
      key := k;
      this.json := json;
      this.storage := storage;
      cache := initial;
      subscribers := [];
      listening := true;
      published := [];
    }

    /** `publish`: call every subscriber, in insertion order, with the cached pair. */
    method Publish()
      modifies this`published
      ensures published == old(published) + Fanout(subscribers, cache)
    {
      var i := 0;
      while i < |subscribers|
        invariant 0 <= i <= |subscribers|
        invariant published == old(published) + Fanout(subscribers[..i], cache)
      {
        published := published + [Notification(subscribers[i], cache)];
        i := i + 1;
      }
      assert subscribers[..i] == subscribers;
    }

    /**
     * The `storage` event listener: while registered, an event whose key starts
     * with the namespace (any store's key in it) replaces the cache with the
     * event's new text, parsed, and publishes, whether or not anything changed.
     */
    method OnStorageEvent(eventKey: Option<string>, newValue: Option<string>)
      requires Valid()
      modifies this`cache, this`published, storage`accesses
      ensures Valid() && subscribers == old(subscribers) && listening == old(listening)
      ensures storage.accesses == old(storage.accesses)
      ensures if listening && InNamespace(namespace, eventKey) then
          && cache == ToFullState(json, newValue)
          && published == old(published) + Fanout(subscribers, cache)
        else
          && cache == old(cache)
          && published == old(published)
    {
      if !listening || !InNamespace(namespace, eventKey) {
        return;
      }
      cache := GetFullState(storage, json, key, Given(newValue));
      Publish();
    }

    /**
     * `setState(arg)`: resolve the new state against the cached pair; if its
     * text equals the cached text nothing happens, otherwise it is saved, cached
     * and published to every subscriber once.
     */
    method SetState(arg: Update<T>)
      requires Valid()
      modifies this`cache, this`published, storage
      ensures Valid() && subscribers == old(subscribers) && listening == old(listening)
      ensures var next := Resolve(arg, old(cache));
        var str := json.stringify(next);
        if str == old(cache).str then
          && cache == old(cache)
          && published == old(published)
          && storage.items == old(storage.items)
          && storage.accesses == old(storage.accesses)
        else
          && cache == FullState(next, str)
          && published == old(published) + Fanout(subscribers, cache)
          && storage.items == Saved(old(storage.items), key, str)
          && storage.accesses == old(storage.accesses) + SaveAccesses(Lookup(old(storage.items), key), key, str)
    {
      var current := cache;
      var next := Resolve(arg, current);
      var str := json.stringify(next);
      if str != current.str {
        cache := SaveState(storage, json, key, next, str);
        Publish();
      }
    }

    /** `subscribe(cb)`: `Set.add`, so a callback already there keeps its single entry and place. */
    method Subscribe(cb: CallbackId)
      requires Valid()
      modifies this`subscribers
      ensures Valid()
      ensures subscribers == Insert(old(subscribers), cb)
    {
      if cb !in subscribers {
        subscribers := subscribers + [cb];
      }
    }

    /** The function `subscribe(cb)` returns: `Set.delete(cb)`, true only if `cb` was subscribed. */
    method Unsubscribe(cb: CallbackId) returns (removed: bool)
      requires Valid()
      modifies this`subscribers
      ensures Valid()
      ensures removed == (cb in old(subscribers))
      ensures subscribers == Without(old(subscribers), cb)
    {
      removed := cb in subscribers;
      WithoutNoDup(subscribers, cb);
      subscribers := Without(subscribers, cb);
    }

    /** `getState()`: the cached pair; storage is not read. */
    method GetState() returns (r: FullState<T>)
      ensures r == cache
    {
      r := cache;
    }

    /** `clean()`: unregister the storage-event listener; nothing else changes. */
    method Clean()
      modifies this`listening
      ensures !listening
    {
      listening := false;
    }
  }

  /** One publish reaches every subscriber exactly once, and only subscribers, all with the same pair. */
  lemma FanoutReachesEachOnce<T>(subscribers: seq<CallbackId>, full: FullState<T>, cb: CallbackId)
    requires NoDup(subscribers)
    ensures Count(Recipients(Fanout(subscribers, full)), cb) == if cb in subscribers then 1 else 0
    ensures forall n :: n in Fanout(subscribers, full) ==> n.full == full
  {
    assert Recipients(Fanout(subscribers, full)) == subscribers;
    NoDupCount(subscribers, cb);
  }

  /**
   * What one store saves, any store on the same key reads back: the parsed
   * state is the saved state, paired with the saved text (construction reads
   * it from storage, the listener receives it as the event's new value).
   */
  lemma SavedReadsBack<T(!new)>(json: Json<T>, items: map<string, string>, key: string, state: T)
    requires RoundTrips(json) && json.stringify(state).Some?
    ensures var str := json.stringify(state);
      ToFullState(json, Lookup(Saved(items, key, str), key)) == FullState(state, str)
  {
  }

  /** The notifications of two logs, one after the other, go to the recipients of each in turn. */
  lemma RecipientsAppend<T>(a: seq<Notification<T>>, b: seq<Notification<T>>)
    ensures Recipients(a + b) == Recipients(a) + Recipients(b)
  {
  }

  /**
   * A callback that subscribes, sees one state change, and unsubscribes is
   * called exactly once, however many changes follow.
   */
  method UnsubscribedMissesLaterChanges<T(==)>(s: Store<T>, cb: CallbackId, first: T, second: T)
    requires s.Valid() && cb !in s.subscribers
    requires s.json.stringify(first) != s.cache.str
    requires s.json.stringify(second) != s.json.stringify(first)
    modifies s, s.storage
    ensures s.Valid() && s.subscribers == old(s.subscribers)
    ensures |old(s.published)| <= |s.published|
    ensures Count(Recipients(s.published[|old(s.published)|..]), cb) == 1
  {
    ghost var start := s.published;
    s.Subscribe(cb);
    s.SetState(Replace(first));
    ghost var mid := s.published;
    ghost var firstRound := Fanout(s.subscribers, s.cache);
    FanoutReachesEachOnce(s.subscribers, s.cache, cb);
    var removed := s.Unsubscribe(cb);
    WithoutInsert(old(s.subscribers), cb);
    s.SetState(Replace(second));
    ghost var secondRound := Fanout(s.subscribers, s.cache);
    FanoutReachesEachOnce(s.subscribers, s.cache, cb);
    assert s.published[|start|..] == firstRound + secondRound;
    RecipientsAppend(firstRound, secondRound);
    CountAppend(Recipients(firstRound), Recipients(secondRound), cb);
  }

  /**
   * The namespace filter admits the key of every store of the namespace,
   * this store's own and any other name, and no event without a key.
   */
  lemma NamespaceFilterAdmitsEveryStore(namespace: string, name: string)
    ensures InNamespace(namespace, Some(namespace + name))
    ensures !InNamespace(namespace, None)
  {
  }
}
