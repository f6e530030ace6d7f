# vessel store engine, modelled in Dafny

`vessel` is a small state container whose state is mirrored into the browser's
`localStorage` and kept in step across tabs through the `storage` event. This
project models its store engine as three independent components, each from
its own source file:

- **Store engine** (`src/index.ts`, module `Vessel`). `makeStore(name, options)`
  builds a store at the key `namespace + name`. The store caches the pair
  (state, serialised text). It keeps an insertion-ordered set of subscriber
  callbacks. On construction it either saves `initialState` or adopts the
  stored value. `setState` does nothing when the serialised text is unchanged;
  otherwise it saves and publishes. A `storage` listener, filtered by the
  namespace prefix, replaces the cache and republishes. `saveState` removes the
  key for a `null` text and writes only when the text differs from the stored one.
- **Expiring record adapter** (`src/storage.ts`, module `Records`). A record
  `{expires, state}` expires strictly after `expires`. `getItem` evicts a
  missing, malformed or expired record lazily and returns `null`. `setItem`
  removes the key for a `null` state; otherwise it returns the new record and
  writes it only when it serialises.
- **Write batcher** (`src/batch.ts`, module `Batch`). A keyed queue where the
  last callback per key wins and a single timer schedules one flush. The flush
  runs each key's callback once, in first-insertion order, then clears the queue
  and the timer.

Shared modules: `Wrappers` (an `Option` for `null`/`undefined`), `Seqs`
(duplicate-free sequences standing for `Set` and `Map` key order) and `Host`
(the `localStorage` object). `Host.LocalStorage` keeps the entries as a
`map<string, string>` and logs every read, write and removal, so contracts can
say which key was touched and when a write was skipped.

Abstractions:
- JSON is an abstract codec: a datatype of total functions. `stringify` yields
  `None` where `JSON.stringify` throws. `parse` yields `None` where `JSON.parse`
  throws. `RoundTrips` states that `parse` reads back what `stringify` wrote.
- The clock `Date.now()` is the parameter `now`.
- Subscriber callbacks and batched callbacks are numbers. A call of one is an
  entry appended to a log: `published` for the store, `ran` for the batcher.
- Removing the event listener (`clean`) is the flag `listening`, which
  `OnStorageEvent` checks. The environment calls `OnStorageEvent` with the event's
  `key` and `newValue`.
- The batcher's timeout callback is the method `Flush`, and the timer is a boolean.

Where the specification of the system and the code differ, the model follows
the code:
- `src/index.ts` has no `end`/`reset`/suspended state. `clean` only removes the listener.
- Subscribers are a `Set`, so subscribing the same callback twice gives one entry.
- Idempotence of `setState` compares serialised texts.
- The listener reacts to every key in the namespace, not only the store's own
  key. The test at `src/index.test.ts:73-94` relies on this.
- `createStateRecord` adds `ttl` as given. There is no hours conversion, no
  "0 never expires" rule and no type tag.
- `storage.setItem` writes directly instead of going through the batcher.
- Without a window, the batcher never flushes. It does not write synchronously.

## Model

| member | source | states |
|---|---|---|
| `Vessel.Str2State` | src/index.ts:18-24 | a text that parses gives the parsed state; any state other than `null` comes from a successful parse of a present text, so a missing or malformed text gives `null` |
| `Vessel.Resolve` | src/index.ts:101-105 | a plain value is the new state as is; a setter is applied to the cached pair (state, text), never to a fresh storage read |
| `Vessel.Fanout` | src/index.ts:89 | one call per subscriber, to subscribers only, each with the same cached pair |
| `Vessel.InNamespace` | src/index.ts:92 | an event is admitted exactly when its key is present and begins with the namespace |
| `Vessel.Saved` | src/index.ts:42-43 | after a save, `key` holds exactly the saved text, or is absent for `null`; every other key is unchanged |
| `Vessel.SaveAccesses` | src/index.ts:38-46 | `saveState` touches storage only at `key`. It reads once, removes the key iff the text is `null`, and writes a text iff it differs from the stored one |
| `Vessel.GetFullState` | src/index.ts:28-37 | `getState(str)` pairs the parsed text with the text. It reads storage at `key` only when no text is passed (`undefined`); `null` is a passed text |
| `Vessel.SaveState` | src/index.ts:38-46 | `saveState` returns `(state, str)` with `str = stateStr ?? stringify(state)`; storage and the access log change exactly as `Saved`/`SaveAccesses` say |
| `Vessel.Store.constructor` | src/index.ts:72-98 | the key is `namespace + name` with the default namespace `"_pose-"`. It saves `initialState` iff it is given and either `overwriteExisting` holds or the stored state parses to `null`. Otherwise the cache is the stored `(parsed, text)` and storage gets only the read. No subscribers; the listener is registered |
| `Vessel.Store.Publish` | src/index.ts:89 | appends exactly one call per subscriber, in insertion order, each with the cached pair |
| `Vessel.Store.OnStorageEvent` | src/index.ts:91-96 | while registered, an event whose key starts with the namespace replaces the cache with the parsed new value and publishes, with no equality check and no storage read. Any other event, or any event after `clean`, changes nothing |
| `Vessel.Store.SetState` | src/index.ts:100-112 | resolves the value or setter against the cached pair, not against storage. Same serialised text as the cache: cache, storage, access log and subscribers untouched. Otherwise: cache `(new, text)`, storage saved, every subscriber called once |
| `Vessel.Store.Subscribe` | src/index.ts:115-116 | `Set.add`: the callback is added at the end unless already present |
| `Vessel.Store.Unsubscribe` | src/index.ts:118 | `Set.delete`: the callback is gone, order of the rest kept; the result is true iff it was subscribed, so a repeat call returns false |
| `Vessel.Store.GetState` | src/index.ts:120 | returns the cache; storage is not touched |
| `Vessel.Store.Clean` | src/index.ts:122 | the listener is unregistered, so later events are ignored |
| `Vessel.FanoutReachesEachOnce` | src/index.ts:89 | one publish calls each current subscriber exactly once, nobody else, all with the same pair |
| `Vessel.SavedReadsBack` | src/index.ts:9-24 | with a round-tripping codec, what a store saves is read back by any store on that key as the same `(state, text)`, both on construction and from a storage event |
| `Vessel.UnsubscribedMissesLaterChanges` | src/index.test.ts:46-55 | a callback that subscribes, sees one change and unsubscribes is called exactly once over two changes |
| `Vessel.NamespaceFilterAdmitsEveryStore` | src/index.ts:92 | the listener's filter admits the store's own key and any other name's key in the namespace; it rejects a `null` key |
| `Records.Parse` | src/storage.ts:18-24 | a missing text yields no record; a record comes only from a successful parse of the present text |
| `Records.CreateStateRecord` | src/storage.ts:26-32 | the state is kept unchanged; the new record is live at its creation time iff `ttl >= 0` |
| `Records.HasExpired` | src/storage.ts:34-35 | a missing record is always expired; a record read at exactly `expires` is not |
| `Records.ExpiryIsMonotone` | src/storage.ts:34-35 | once a record has expired it stays expired at every later time |
| `Records.Got` | src/storage.ts:38-48 | `getItem` returns `null` iff the parsed record is missing, malformed or expired. It parses `storedItem ?? storage[key]`. A returned record is the parsed one and has `now <= expires` |
| `Records.AfterGet` | src/storage.ts:38-48 | `getItem` removes `key` exactly when it returns `null`, and otherwise leaves storage unchanged |
| `Records.Put` | src/storage.ts:26-32 | `setItem` returns `null` iff the state is `null`, and otherwise `{expires: now + ttl, state}` with the state unchanged |
| `Records.AfterSet` | src/storage.ts:49-61 | `setItem` removes `key` for a `null` state. Otherwise it sets `key` to the serialised record if serialisation succeeds and leaves storage untouched if it fails. Other keys never change |
| `Records.GetItem` | src/storage.ts:38-48 | the method returns `Got`'s result and leaves storage as `AfterGet` says. It reads storage only without `storedItem` and removes only `key` |
| `Records.SetItem` | src/storage.ts:49-61 | the method returns `Put`'s result and leaves storage as `AfterSet` says. Its only storage access is one removal or at most one write at `key` |
| `Records.ExpiresStrictlyAfter` | src/storage.ts:34-35 | a record is live through `now == expires` and expired strictly after; no record counts as expired |
| `Records.SetThenGet` | src/storage.ts:26-61 | with a round-tripping codec, a state set at `created` reads back as the very record `setItem` returned while `now <= created + ttl`. After that, and for a `null` state, it reads `null` with the key evicted |
| `Records.GetIdempotent` | src/storage.ts:38-48 | a second `getItem` at the same time returns the same result and changes storage no further |
| `Batch.Latest` | src/batch.ts:9 | the latest callback for a key exists iff the key was batched, and it is one that was batched for it |
| `Batch.Runs` | src/batch.ts:13 | one run per queued key, each for a queued key with its pending callback |
| `Batch.Batcher.constructor` | src/batch.ts:5-6 | the queue starts empty, no timer, nothing run |
| `Batch.Batcher.Batch` | src/batch.ts:8-12 | `queue.set`: the key now holds the new callback, keeping its first-insertion place. A timer is scheduled iff none was pending and a window exists, so one tick schedules at most one flush |
| `Batch.Batcher.Flush` | src/batch.ts:12-17 | runs every pending key's callback once, in queue order. Then the queue is empty and `timer` undefined, so the next `batch` schedules again |
| `Batch.FlushRunsEachKeyOnce` | src/batch.ts:9-14 | a flush runs each key batched since the last flush exactly once, with its latest callback. Number of runs = number of distinct keys <= number of calls |
| `Batch.BatchKeepsCoalesced` | src/batch.ts:9 | after any sequence of `batch` calls the queue holds the distinct keys in first-insertion order, each with its latest callback |

## Left out

- `src/useVessel.ts`, `src/usePose.ts`: React bindings that only consume `subscribe`/`getState`.
- The `window` detection in `src/index.ts:1` and `src/storage.ts:2`: both files are modelled with a window present. `src/window.ts` is not part of this model.
- `addEventListener`/`removeEventListener`: modelled as the `listening` flag and a method the environment calls.
- The internals of `JSON.stringify`/`JSON.parse` (cycles, BigInt, `undefined`), and `console.error`: the codec is abstract.
- `Date.now()`: a parameter. JavaScript numbers are doubles; the model uses unbounded integers, so precision loss in `now + ttl` is not modelled.
- What callbacks do when called: a callback that calls `setState`, `subscribe` or `batch` while a publish or flush is running is not modelled. Calls are log entries.
- `setState`'s `typeof arg === "function"` test: the model's `Update` says explicitly whether a value or a setter was passed, so a state that is itself a function is not modelled.
- TypeScript's conditional types (`State<T>`, `StateString<T>`, `FullState<T>`), which have no run-time behaviour.
- Records.Got: the source's `hasExpired` compares `now > maybeRecord.expires` on whatever `JSON.parse` returns. A text that parses to a truthy non-record (a number, an object without `expires`) is returned as is there. The model's codec maps such texts to no record, which is then evicted.
- Real `setTimeout` scheduling: the flush is the `Flush` method, run when the host fires the pending timer.
- Batch.Batcher.Flush: assumes every callback returns normally. In the source, a callback that throws stops `queue.forEach` before `queue.clear()` and `timer = undefined` run. `timer` then stays set, `batch` never schedules another flush, and the batcher is stuck. The model does not capture this.
- Vessel.Store.Publish: assumes every subscriber returns normally. In the source, a subscriber that throws stops `publish` partway. By then `setState` has already saved and re-cached, and the listener has already replaced the cache. The later subscribers are then not called, which the model does not capture.
