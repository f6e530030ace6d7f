/**
 * The write batcher of `src/batch.ts`: a module-wide `Map` from key to the
 * latest callback batched for it, and one timer. `batch(key, cb)` records
 * `cb` for `key` and schedules a flush unless one is pending; the flush runs
 * each pending callback once, in the keys' first-insertion order, then empties
 * the map and forgets the timer.
 *
 * The module state becomes a `Batcher` object. The timer callback is the
 * method `Flush`, which the host calls once per scheduled timer; a callback run
 * by the flush is recorded in the `ran` log.
 */
module Batch {
  import opened Wrappers
  import opened Seqs

  type CallbackId = nat

  /** A key with a callback: one `batch(key, cb)` call, or one callback run by a flush. */
  datatype Entry = Entry(key: string, callback: CallbackId)

  /** The keys of a series of entries, in order. */
  function Keys(calls: seq<Entry>): (r: seq<string>)
    ensures |r| == |calls|
  {
    seq(|calls|, i requires 0 <= i < |calls| => calls[i].key)
  }

  /** The callback the last of `calls` for `key` passed, if any call was for `key`. */
  function Latest(calls: seq<Entry>, key: string): (r: Option<CallbackId>)
    ensures r.Some? <==> key in Keys(calls)
    ensures r.Some? ==> Entry(key, r.value) in calls
  {
    if calls == [] then None
    else
      assert Keys(calls) == Keys(calls[..|calls| - 1]) + [calls[|calls| - 1].key];
      if calls[|calls| - 1].key == key then Some(calls[|calls| - 1].callback)
      else Latest(calls[..|calls| - 1], key)
  }

  /**
   * The queue state that `calls` leave behind since the last flush: the key
   * order is that of first insertion (a `Map` keeps a key's place when it is
   * set again) and each key holds its latest callback.
   */
  ghost predicate Coalesced(calls: seq<Entry>, order: seq<string>, pending: map<string, CallbackId>) {
    && order == Distinct(Keys(calls))
    && (forall k :: k in pending <==> k in order)
    && (forall k :: k in pending ==> Latest(calls, k) == Some(pending[k]))
  }

  /** The callbacks a flush runs: `queue.forEach(f => f())` over the keys in `order`. */
  function Runs(order: seq<string>, pending: map<string, CallbackId>): (r: seq<Entry>)
    requires forall k :: k in order ==> k in pending
    ensures |r| == |order|
    ensures forall e :: e in r ==> e.key in order && e.key in pending && e.callback == pending[e.key]
  {
    seq(|order|, i requires 0 <= i < |order| => Entry(order[i], pending[order[i]]))
  }

  class Batcher {
    /** Whether a window (and so `setTimeout`) exists; without one `w?.setTimeout` is `undefined`. */
    const hasWindow: bool
    /** The keys of `queue`, in its iteration order. */
    var order: seq<string>
    /** `queue`: key to latest callback. */
    var pending: map<string, CallbackId>
    /** Whether `timer` holds a scheduled timeout. */
    var timer: bool
    /** Every callback run by a flush so far, in order. */
    var ran: seq<Entry>
    /** The `batch` calls since the last flush. */
    ghost var calls: seq<Entry>
    /** How many timeouts have been scheduled so far. */
    ghost var scheduled: nat

    ghost predicate Valid()
      reads this
    {
      && Coalesced(calls, order, pending)
      && timer == (hasWindow && calls != [])
    }

    /** The module's initial state: an empty queue and no timer. */
    constructor (hasWindow: bool)
      ensures Valid() && this.hasWindow == hasWindow
      ensures order == [] && pending == map[] && !timer && ran == [] && calls == [] && scheduled == 0
    {
      this.hasWindow := hasWindow;
      order, pending, timer, ran := [], map[], false, [];
      calls, scheduled := [], 0;
    }

    /**
     * `batch(key, cb)`: `cb` replaces whatever was pending for `key`, and a
     * timeout is scheduled only when none is pending and a window exists.
     */
    method Batch(key: string, cb: CallbackId)
      requires Valid()
      modifies this
      ensures Valid()
      ensures calls == old(calls) + [Entry(key, cb)]
      ensures pending == old(pending)[key := cb]
      ensures order == Insert(old(order), key)
      ensures timer == (old(timer) || hasWindow)
      ensures scheduled == old(scheduled) + (if !old(timer) && hasWindow then 1 else 0)
      ensures ran == old(ran)
    {
      BatchKeepsCoalesced(calls, order, pending, key, cb);
      pending := pending[key := cb];
      order := Insert(order, key);
      calls := calls + [Entry(key, cb)];
      if !timer && hasWindow {
        timer := true;
        scheduled := scheduled + 1;
      }
    }

    /**
     * The scheduled timeout: run every pending callback once, in key order,
     * then clear the queue and reset `timer`.
     */
    method Flush()
      requires Valid() && timer
      modifies this
      ensures Valid()
      ensures ran == old(ran) + Runs(old(order), old(pending))
      ensures order == [] && pending == map[] && !timer && calls == []
      ensures scheduled == old(scheduled)
    {
      var i := 0;
      while i < |order|
        invariant 0 <= i <= |order|
        invariant order == old(order) && pending == old(pending) && calls == old(calls)
        invariant timer == old(timer) && scheduled == old(scheduled)
        invariant ran == old(ran) + Runs(order[..i], pending)
      {
        assert order[..i + 1] == order[..i] + [order[i]];
        assert Runs(order[..i + 1], pending) == Runs(order[..i], pending) + [Entry(order[i], pending[order[i]])];
        ran := ran + [Entry(order[i], pending[order[i]])];
        i := i + 1;
      }
      assert order[..i] == order;
      order, pending := [], map[];
      calls := [];
      timer := false;
    }
  }

  /**
   * A flush runs the callbacks of exactly the keys batched since the previous
   * flush, each once, with the latest callback batched for it; so it runs as
   * many callbacks as there were distinct keys, never more than there were calls.
   */
  lemma FlushRunsEachKeyOnce(calls: seq<Entry>, order: seq<string>, pending: map<string, CallbackId>, key: string)
    requires Coalesced(calls, order, pending)
    ensures Count(Keys(Runs(order, pending)), key) == if key in Keys(calls) then 1 else 0
    ensures forall r :: r in Runs(order, pending) ==> Latest(calls, r.key) == Some(r.callback)
    ensures |Runs(order, pending)| == |Distinct(Keys(calls))| <= |calls|
  {
    assert Keys(Runs(order, pending)) == order;
    NoDupCount(order, key);
    DistinctNoLonger(Keys(calls));
  }

  /**
   * One more `batch(key, cb)` call: the key keeps its first place or goes to
   * the end, and now holds `cb`; every other key keeps its callback.
   */
  lemma BatchKeepsCoalesced(calls: seq<Entry>, order: seq<string>, pending: map<string, CallbackId>, key: string, cb: CallbackId)
    requires Coalesced(calls, order, pending)
    ensures Coalesced(calls + [Entry(key, cb)], Insert(order, key), pending[key := cb])
  {
    var next := calls + [Entry(key, cb)];
    assert next[..|next| - 1] == calls;
    assert Keys(next) == Keys(calls) + [key];
    assert Keys(next)[..|next| - 1] == Keys(calls);
    assert Distinct(Keys(next)) == Insert(order, key);
    forall k | k in pending[key := cb]
      ensures Latest(next, k) == Some(pending[key := cb][k])
    {
      if k != key {
        assert Latest(next, k) == Latest(calls, k);
      }
    }
  }

  /** Deduplicating never lengthens a sequence. */
  lemma {:induction false} DistinctNoLonger(s: seq<string>)
    ensures |Distinct(s)| <= |s|
  {
    if s != [] {
      DistinctNoLonger(s[..|s| - 1]);
    }
  }
}
