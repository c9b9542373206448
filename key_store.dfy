/**
 * The Redis storage backend of the key store: each slot operation of the
 * sealing key store becomes one command on the key `{prefix:slot}`, and
 * clear-all scans the namespace and deletes what it finds.
 *
 * The functions Stored, AfterPut and AfterDelete state what the slot
 * operations mean on the keyspace; the methods of RedisKeyStore are proved to
 * do exactly that, and the lemmas relate the operations to one another.
 */
module KeyStore {
  import opened Outcomes
  import opened Codec
  import opened Keys
  import opened Shred
  import opened RedisClient

  /** The keyspace after putting `key` in `slot`. */
  function AfterPut(data: map<string, string>, prefix: string, slot: string, key: seq<byte>)
    : (after: map<string, string>)
    ensures after.Keys == data.Keys + {SlotKey(prefix, slot)}
    ensures after[SlotKey(prefix, slot)] == Encode(key)
    ensures forall k :: k in data && k != SlotKey(prefix, slot) ==> after[k] == data[k]
  {
    data[SlotKey(prefix, slot) := Encode(key)]
  }

  /** The keyspace after deleting `slot`; deleting an absent slot changes nothing. */
  function AfterDelete(data: map<string, string>, prefix: string, slot: string)
    : (after: map<string, string>)
    ensures after.Keys == data.Keys - {SlotKey(prefix, slot)}
    ensures forall k :: k in after ==> after[k] == data[k]
    ensures SlotKey(prefix, slot) !in data ==> after == data
  {
    data - {SlotKey(prefix, slot)}
  }

  /**
   * What reading `slot` yields. The stored string is tested for truthiness,
   * so the empty string is reported as a missing key, like an absent one.
   */
  function Stored(data: map<string, string>, prefix: string, slot: string): (r: Result<seq<byte>>)
    ensures r.Ok? <==> SlotKey(prefix, slot) in data && data[SlotKey(prefix, slot)] != ""
    ensures r.Ok? ==> r.value == Decode(data[SlotKey(prefix, slot)])
    ensures r.Err? ==> r.error == KeyNotFound
  {
    var k := SlotKey(prefix, slot);
    if k in data && data[k] != "" then Ok(Decode(data[k])) else Err(KeyNotFound)
  }

  class RedisKeyStore {
    /** The client handle; the keyspace it reaches is shared with whoever else holds it. */
    const client: Redis
    const keyPrefix: string

    /** A const field: the prefix never changes after construction. */
    constructor (client: Redis, keyPrefix: string)
      ensures this.client == client
      ensures keyPrefix == "" ==> this.keyPrefix == DefaultPrefix
      ensures keyPrefix != "" ==> this.keyPrefix == keyPrefix
    {
      this.client := client;
      this.keyPrefix := EffectivePrefix(keyPrefix);
    }

    /** SET {prefix:slot} encode(key): last writer wins. */
    method PutKeyInSlot(keySlot: string, key: seq<byte>)
      modifies client
      ensures client.data == AfterPut(old(client.data), keyPrefix, keySlot, key)
    {
      client.Set(SlotKey(keyPrefix, keySlot), Encode(key));
    }

    /** GET {prefix:slot}, failing with "Key not found" on nil or on the empty string. */
    method GetKeyInSlot(keySlot: string) returns (r: Result<seq<byte>>)
      ensures r == Stored(client.data, keyPrefix, keySlot)
    {
      var val := client.Get(SlotKey(keyPrefix, keySlot));
      if val.Some? && val.value != "" {
        r := Ok(Decode(val.value));
      } else {
        r := Err(KeyNotFound);
      }
    }

    /** DEL {prefix:slot}; the count of removed keys is discarded. */
    method DeleteKeySlot(keySlot: string)
      modifies client
      ensures client.data == AfterDelete(old(client.data), keyPrefix, keySlot)
    {
      var _ := client.Del(SlotKey(keyPrefix, keySlot));
    }

    /** EXISTS {prefix:slot} > 0 */
    method HasKeyInSlot(keySlot: string) returns (present: bool)
      ensures present <==> SlotKey(keyPrefix, keySlot) in client.data
    {
      var count := client.Exists(SlotKey(keyPrefix, keySlot));
      present := count > 0;
    }

    /** The `data` listener: `keys.forEach(key => del(key))`. */
    method DeleteBatch(keys: seq<string>)
      modifies client
      ensures client.data == old(client.data) - Elems(keys)
    {
      var j := 0;
      while j < |keys|
        invariant 0 <= j <= |keys|
        invariant client.data == old(client.data) - Elems(keys[..j])
      {
        assert Elems(keys[..j + 1]) == Elems(keys[..j]) + {keys[j]} by {
          assert keys[..j + 1] == keys[..j] + [keys[j]];
        }
        var _ := client.Del(keys[j]);
        j := j + 1;
      }
      assert keys[..j] == keys;
    }

    /**
     * Clear-all over the events of scanStream({ match: ScanPattern(keyPrefix) }).
     * Each batch is deleted key by key before the next event is consumed; the
     * first terminal event settles the outcome; the timer destroys the stream.
     * Whatever the outcome, deletions already made stay made.
     */
    method ClearKeySlots(events: seq<ScanEvent>) returns (r: Result<()>, destroyed: bool)
      modifies client
      ensures client.data == old(client.data) - Deleted(events)
      ensures r == Outcome(events)
      ensures destroyed <==> r == Err(ClearTimeout)
      ensures MatchFiltered(keyPrefix, events) && CoversNamespace(old(client.data), keyPrefix, events) ==>
        (forall k :: k in client.data ==> !InNamespace(keyPrefix, k)) &&
        (forall k :: k in old(client.data) && !InNamespace(keyPrefix, k) ==>
          k in client.data && client.data[k] == old(client.data)[k])
    {
      r, destroyed := Err(ClearTimeout), false;
      var pending := true;
      var i := 0;
      while i < |events| && pending
        invariant 0 <= i <= |events|
        invariant pending ==> !destroyed && Outcome(events[i..]) == Outcome(events)
        invariant pending ==> client.data - Deleted(events[i..]) == old(client.data) - Deleted(events)
        invariant !pending ==> r == Outcome(events) && (destroyed <==> r == Err(ClearTimeout))
        invariant !pending ==> client.data == old(client.data) - Deleted(events)
        decreases |events| - i
      {
        assert events[i..][0] == events[i] && events[i..][1..] == events[i + 1..];
        match events[i] {
        case Batch(keys) =>
          DeleteBatch(keys);
        case End =>
          r, pending := Ok(()), false;
        case StreamError(message) =>
          r, pending := Err(ScanFailure(message)), false;
        case TimerFired =>
          r, destroyed, pending := Err(ClearTimeout), true, false;
        }
        i := i + 1;
      }
      if pending {
        // the scan stalled: the timer fires, destroys the stream and rejects
        r, destroyed := Err(ClearTimeout), true;
      }
      if MatchFiltered(keyPrefix, events) && CoversNamespace(old(client.data), keyPrefix, events) {
        ClearScope(old(client.data), keyPrefix, events);
      }
    }
  }

  /** Putting a non-empty key and reading it back returns it. */
  lemma GetAfterPut(data: map<string, string>, prefix: string, slot: string, key: seq<byte>)
    requires key != []
    ensures Stored(AfterPut(data, prefix, slot, key), prefix, slot) == Ok(key)
  {
    EncodeEmptyIff(key);
    RoundTrip(key);
  }

  /**
   * Putting the empty key stores the empty string, which reads back as a
   * missing key although the slot exists.
   */
  lemma EmptyKeyReadsAsMissing(data: map<string, string>, prefix: string, slot: string)
    ensures SlotKey(prefix, slot) in AfterPut(data, prefix, slot, [])
    ensures Stored(AfterPut(data, prefix, slot, []), prefix, slot) == Err(KeyNotFound)
  {
    EncodeEmptyIff([]);
  }

  /** A put on one slot leaves every other slot of the namespace reading as before. */
  lemma PutLeavesOtherSlots(data: map<string, string>, prefix: string, slot: string,
                            other: string, key: seq<byte>)
    requires other != slot
    ensures Stored(AfterPut(data, prefix, slot, key), prefix, other) == Stored(data, prefix, other)
  {
    SlotKeyInjective(prefix, slot, other);
  }

  /** After a delete the slot neither exists nor reads, and a second delete changes nothing. */
  lemma DeleteRemovesSlot(data: map<string, string>, prefix: string, slot: string)
    ensures SlotKey(prefix, slot) !in AfterDelete(data, prefix, slot)
    ensures Stored(AfterDelete(data, prefix, slot), prefix, slot) == Err(KeyNotFound)
    ensures AfterDelete(AfterDelete(data, prefix, slot), prefix, slot) == AfterDelete(data, prefix, slot)
  {
  }

  /** A delete on one slot leaves every other slot of the namespace reading as before. */
  lemma DeleteLeavesOtherSlots(data: map<string, string>, prefix: string, slot: string, other: string)
    requires other != slot
    ensures Stored(AfterDelete(data, prefix, slot), prefix, other) == Stored(data, prefix, other)
  {
    SlotKeyInjective(prefix, slot, other);
  }

  /** After a complete clear-all, no slot of the namespace reads back, whatever the prefix. */
  lemma ClearForgetsSlots(data: map<string, string>, prefix: string, events: seq<ScanEvent>,
                          slot: string)
    requires MatchFiltered(prefix, events)
    requires CoversNamespace(data, prefix, events)
    ensures Stored(data - Deleted(events), prefix, slot) == Err(KeyNotFound)
  {
    ClearScope(data, prefix, events);
  }

  /**
   * A clear-all leaves every slot of a different prefix reading as before,
   * provided neither prefix contains `:`.
   */
  lemma ClearKeepsOtherNamespaces(data: map<string, string>, prefix: string, events: seq<ScanEvent>,
                                  otherPrefix: string, otherSlot: string)
    requires MatchFiltered(prefix, events)
    requires otherPrefix != prefix && ':' !in prefix && ':' !in otherPrefix
    ensures Stored(data - Deleted(events), otherPrefix, otherSlot) == Stored(data, otherPrefix, otherSlot)
  {
    MatchedBatchesStayInNamespace(prefix, events);
    DistinctNamespacesDisjoint(prefix, otherPrefix, otherSlot);
  }

  /**
   * The scenario of managing one data-encryption key: put it, read it back,
   * delete it, and then reading fails and the slot no longer exists.
   */
  method ManageKeyScenario(store: RedisKeyStore, slot: string, key: seq<byte>)
    returns (fetched: Result<seq<byte>>, refetched: Result<seq<byte>>, present: bool)
    requires key != []
    modifies store.client
    ensures fetched == Ok(key)
    ensures refetched == Err(KeyNotFound)
    ensures !present
  {
    store.PutKeyInSlot(slot, key);
    fetched := store.GetKeyInSlot(slot);
    GetAfterPut(old(store.client.data), store.keyPrefix, slot, key);
    store.DeleteKeySlot(slot);
    refetched := store.GetKeyInSlot(slot);
    present := store.HasKeyInSlot(slot);
  }

  /**
   * The scenario of shredding all keys: put a root key, read it back, clear
   * all slots of the backend's own namespace, and then reading fails while
   * every key outside the namespace keeps its value.
   */
  method ShredScenario(store: RedisKeyStore, slot: string, key: seq<byte>, events: seq<ScanEvent>)
    returns (fetched: Result<seq<byte>>, cleared: Result<()>, refetched: Result<seq<byte>>)
    requires key != []
    requires MatchFiltered(store.keyPrefix, events)
    requires CoversNamespace(AfterPut(store.client.data, store.keyPrefix, slot, key), store.keyPrefix, events)
    modifies store.client
    ensures fetched == Ok(key)
    ensures cleared == Outcome(events)
    ensures refetched == Err(KeyNotFound)
    ensures forall k :: k in old(store.client.data) && !InNamespace(store.keyPrefix, k) ==>
      k in store.client.data && store.client.data[k] == old(store.client.data)[k]
  {
    store.PutKeyInSlot(slot, key);
    fetched := store.GetKeyInSlot(slot);
    GetAfterPut(old(store.client.data), store.keyPrefix, slot, key);
    var destroyed;
    cleared, destroyed := store.ClearKeySlots(events);
    refetched := store.GetKeyInSlot(slot);
    SlotKeyMatchesScan(store.keyPrefix, slot);
    ScanPatternSelectsNamespace(store.keyPrefix, SlotKey(store.keyPrefix, slot));
  }
}
