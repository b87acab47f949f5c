/** The offline service: a first-in first-out queue of operations waiting for the network, a
    keyed cache of data, and a list of connectivity listeners. The stored queue and cache are
    fields; the clock value `Date.now()` is a parameter `now`, and the outcome of the simulated
    API sync is a parameter `syncFails`. Listener callbacks are identified by a handle, since the
    source compares them by identity. Data payloads are their JSON text. */
module Offline {
  import opened Common

  /** An operation as handed to `queueOperation`. */
  datatype Operation = Operation(opType: string, key: string, data: string)

  /** An operation in the queue: the handed-in fields plus the stamp added when queued. */
  datatype QueuedOperation = QueuedOperation(
    opType: string, key: string, data: string, timestamp: nat, id: string)

  /** A cache entry. */
  datatype CacheEntry = CacheEntry(data: string, timestamp: nat)

  /** What `getCachedData` returns: the entry for a key (`null` when absent), or the whole
      cache when no key is given. */
  datatype CacheLookup = Entry(entry: Option<CacheEntry>) | Everything(all: map<string, CacheEntry>)

  const SAVE_DATA := "SAVE_DATA"

  /** `{...operation, timestamp: now, id: now.toString()}`. */
  function Stamp(op: Operation, now: nat): (q: QueuedOperation)
    ensures q.opType == op.opType && q.key == op.key && q.data == op.data
    ensures q.timestamp == now && q.id == NatToString(now)
  {
    QueuedOperation(op.opType, op.key, op.data, now, NatToString(now))
  }

  /** `getCachedData(key)` over the cache `cache`: with a key (JavaScript-truthy, so not the
      empty string) the entry stored under it or nothing; otherwise the whole cache. */
  function Lookup(cache: map<string, CacheEntry>, key: Option<string>): (r: CacheLookup)
    ensures r.Everything? <==> key.None? || key.value == ""
    ensures r.Everything? ==> r.all == cache
    ensures r.Entry? && r.entry.Some? ==> key.value in cache && r.entry.value == cache[key.value]
    ensures r.Entry? && r.entry.None? ==> key.value !in cache
  {
    match key
    case Some(k) =>
      if k != "" then Entry(if k in cache then Some(cache[k]) else None) else Everything(cache)
    case None => Everything(cache)
  }

  /** After storing `entry` under `key`, a lookup of that key returns it and a lookup of any
      other key answers as before. */
  lemma LookupAfterStore(cache: map<string, CacheEntry>, key: string, entry: CacheEntry, other: string)
    requires key != "" && other != key
    ensures Lookup(cache[key := entry], Some(key)) == Entry(Some(entry))
    ensures Lookup(cache[key := entry], Some(other)).Entry? ==>
      Lookup(cache[key := entry], Some(other)) == Lookup(cache, Some(other))
  {
  }

  /** Data cached under the empty key cannot be read back by that key: the empty string is
      falsy, so the lookup returns the whole cache instead. */
  lemma EmptyKeyReadsEverything(cache: map<string, CacheEntry>, entry: CacheEntry)
    ensures Lookup(cache["" := entry], Some("")) == Everything(cache["" := entry])
  {
  }

  /** The listener list after the unsubscribe function of `callback` runs. */
  function Unsubscribed(listeners: seq<nat>, callback: nat): (r: seq<nat>)
    ensures callback !in r
    ensures forall i :: 0 <= i < |listeners| && listeners[i] != callback ==> listeners[i] in r
  {
    Filter(listeners, (l: nat) => l != callback)
  }

  /** Subscribing a new callback and then unsubscribing it gives back the original list. */
  lemma {:induction false} SubscribeThenUnsubscribe(listeners: seq<nat>, callback: nat)
    requires callback !in listeners
    ensures Unsubscribed(listeners + [callback], callback) == listeners
  {
    FilterSnoc(listeners, callback, (l: nat) => l != callback);
    FilterAll(listeners, (l: nat) => l != callback);
  }

  class OfflineService {
    var isOnline: bool
    /** Handles of the registered listener callbacks. */
    var listeners: seq<nat>
    /** The stored queue ('offline_queue'). */
    var offlineQueue: seq<QueuedOperation>
    /** The stored cache ('cached_data'). */
    var cache: map<string, CacheEntry>

    /** A service started over a stored queue and cache: online, with no listeners, the queue
        loaded by `loadOfflineQueue`. */
    constructor (storedQueue: seq<QueuedOperation>, storedCache: map<string, CacheEntry>)
      ensures isOnline && listeners == []
      ensures offlineQueue == storedQueue && cache == storedCache
    {
      isOnline := true;
      listeners := [];
      offlineQueue := storedQueue;
      cache := storedCache;
    }

    /** `getQueueSize`. */
    function GetQueueSize(): (n: nat)
      reads this
      ensures n == 0 <==> offlineQueue == []
    {
      |offlineQueue|
    }

    /** `getCachedData(key)`. */
    function GetCachedData(key: Option<string>): (r: CacheLookup)
      reads this
      ensures r.Everything? <==> key.None? || key.value == ""
      ensures r.Everything? ==> r.all == cache
      ensures r.Entry? ==> r.entry == (if key.value in cache then Some(cache[key.value]) else None)
    {
      Lookup(cache, key)
    }

    /** `addNetworkListener`: registers the callback at the end of the list. */
    method AddNetworkListener(callback: nat)
      modifies this
      ensures listeners == old(listeners) + [callback]
      ensures isOnline == old(isOnline) && offlineQueue == old(offlineQueue) && cache == old(cache)
    {
      listeners := listeners + [callback];
    }

    /** The unsubscribe function returned by `addNetworkListener(callback)`: drops every
        registration of that callback and keeps the others in order. */
    method RemoveNetworkListener(callback: nat)
      modifies this
      ensures listeners == Unsubscribed(old(listeners), callback)
      ensures IsSubsequence(listeners, old(listeners))
      ensures isOnline == old(isOnline) && offlineQueue == old(offlineQueue) && cache == old(cache)
    {
      FilterIsSubsequence(listeners, (l: nat) => l != callback);
      listeners := Filter(listeners, (l: nat) => l != callback);
    }

    /** `cacheData`: stores the data with the time under the key and leaves other keys alone. */
    method CacheData(key: string, data: string, now: nat)
      modifies this
      ensures cache == old(cache)[key := CacheEntry(data, now)]
      ensures isOnline == old(isOnline) && listeners == old(listeners) && offlineQueue == old(offlineQueue)
    {
      var cachedData := cache;
      cachedData := cachedData[key := CacheEntry(data, now)];
      cache := cachedData;
    }

    /** `queueOperation`: appends the stamped operation at the end of the queue. */
    method QueueOperation(op: Operation, now: nat)
      modifies this
      ensures GetQueueSize() == old(GetQueueSize()) + 1
      ensures offlineQueue == old(offlineQueue) + [Stamp(op, now)]
      ensures isOnline == old(isOnline) && listeners == old(listeners) && cache == old(cache)
    {
      offlineQueue := offlineQueue + [Stamp(op, now)];
    }

    /** `processOfflineQueue`: records the id of every queued operation as processed, then
        keeps only the operations whose id was not recorded, which leaves none. */
    method ProcessOfflineQueue()
      modifies this
      ensures offlineQueue == []
      ensures old(offlineQueue) == [] ==> unchanged(this)
      ensures isOnline == old(isOnline) && listeners == old(listeners) && cache == old(cache)
    {
      if |offlineQueue| == 0 {
        return;
      }
      var processedOperations: seq<string> := [];
      for i := 0 to |offlineQueue|
        invariant |processedOperations| == i
        invariant forall k :: 0 <= k < i ==> processedOperations[k] == offlineQueue[k].id
      {
        processedOperations := processedOperations + [offlineQueue[i].id];
      }
      forall k | 0 <= k < |offlineQueue|
        ensures offlineQueue[k].id in processedOperations
      {
        assert processedOperations[k] == offlineQueue[k].id;
      }
      FilterNone(offlineQueue, (op: QueuedOperation) => op.id !in processedOperations);
      offlineQueue := Filter(offlineQueue, (op: QueuedOperation) => op.id !in processedOperations);
    }

    /** `saveData`: always caches first; then queues one `SAVE_DATA` operation when offline, or
        when online and the sync fails, and nothing otherwise. */
    method SaveData(key: string, data: string, now: nat, syncFails: bool)
      modifies this
      ensures cache == old(cache)[key := CacheEntry(data, now)]
      ensures offlineQueue == old(offlineQueue) +
        (if !isOnline || syncFails then [Stamp(Operation(SAVE_DATA, key, data), now)] else [])
      ensures isOnline == old(isOnline) && listeners == old(listeners)
    {
      CacheData(key, data, now);
      if isOnline {
        if syncFails {
          QueueOperation(Operation(SAVE_DATA, key, data), now);
        }
      } else {
        QueueOperation(Operation(SAVE_DATA, key, data), now);
      }
    }

    /** The connectivity handler installed by `init`: records the new status and, on coming
        back online, processes the queue. */
    method HandleNetworkChange(isConnected: bool)
      modifies this
      ensures isOnline == isConnected
      ensures offlineQueue == if !old(isOnline) && isConnected then [] else old(offlineQueue)
      ensures listeners == old(listeners) && cache == old(cache)
    {
      var wasOffline := !isOnline;
      isOnline := isConnected;
      if wasOffline && isOnline {
        ProcessOfflineQueue();
      }
    }

    /** `clearQueue`: empties the queue. */
    method ClearQueue()
      modifies this
      ensures GetQueueSize() == 0
      ensures isOnline == old(isOnline) && listeners == old(listeners) && cache == old(cache)
    {
      offlineQueue := [];
    }

    /** `clearCache`: removes the whole cache. */
    method ClearCache()
      modifies this
      ensures cache == map[]
      ensures isOnline == old(isOnline) && listeners == old(listeners) && offlineQueue == old(offlineQueue)
    {
      cache := map[];
    }
  }
}
