# Redis key store backend, modelled in Dafny

`RedisKeyStore` is the Redis storage backend of a sealing key store. It keeps opaque sealed
key blobs in "slots". Each slot lives under the Redis key `{prefix:slot}`, with its value
base64-encoded. The backend offers put, get, delete and exists on one slot, plus clear-all.
Clear-all scans for `{prefix:*` and deletes every key the scan returns. Its outcome is set by
whichever comes first: the scan's end, a scan error, or a 10 second timeout.

The model consists of these modules:

- `Outcomes` (outcomes.dfy): the errors and results the backend can produce.
- `Codec` (codec.dfy): a stand-in for the base64 pair.
- `Keys` (keys.dfy):
  - the default prefix;
  - the slot key and its inverse;
  - the scan pattern;
  - a literal glob match.
- `RedisClient` (redis_client.dfy): the Redis keyspace as a `map<string, string>` in a class.
  The client commands SET, GET, DEL and EXISTS are modelled as map operations.
- `Shred` (shred.dfy): the clear-all scan, modelled as a finite sequence of stream events.
  - The outcome is fixed by the first terminal event.
  - The deleted keys are those of the batches delivered before that event.
- `KeyStore` (key_store.dfy):
  - the functions that say what each slot operation means for the keyspace;
  - the class `RedisKeyStore`, whose methods are proved to do exactly that;
  - lemmas relating the operations.

Two behaviours of the code that a reader might not expect:

- **No corrupt-data error.** `getKeyInSlot` has no such error path. It tests the stored string
  for truthiness and decodes the rest leniently.
  - An empty stored string is reported as "Key not found", while `hasKeyInSlot` still says the
    slot exists (`EmptyKeyReadsAsMissing`).
- **Namespaces can overlap.** Clear-all matches keys by a literal string prefix, so clearing a
  prefix `p` also deletes the slots of any prefix that starts with `p:` (`NestedNamespaceOverlap`).
  - Two namespaces are proved disjoint only when their prefixes contain no `:`
    (`DistinctNamespacesDisjoint`).

## Model

| member | source | states |
|---|---|---|
| `Keys.EffectivePrefix` | src/redisKeyStore.ts:41 | an empty prefix selects `hermes-key-store`; any other prefix is kept unchanged; the result is never empty |
| `KeyStore.RedisKeyStore.constructor` | src/redisKeyStore.ts:26-42 | the backend keeps the injected client; its prefix is the default when the argument is empty, else the argument; the prefix is a const field, so it never changes |
| `Keys.SlotKey` | src/redisKeyStore.ts:50 | the slot key starts with `{prefix:`, ends with `}`, and is 3 characters longer than prefix and slot together |
| `Keys.ParseSlotKey` | src/redisKeyStore.ts:50 | any slot recovered from a key gives back that same key under SlotKey |
| `Keys.ParseSlotKeyRoundTrip` | src/redisKeyStore.ts:50 | parsing the key of a slot gives back exactly that slot |
| `Keys.SlotKeyInjective` | src/redisKeyStore.ts:47-73 | for a fixed prefix, two slots have the same key if and only if they are the same slot |
| `Keys.ScanPattern` | src/redisKeyStore.ts:81 | the clear-all pattern ends in `*` |
| `Keys.ScanPatternSelectsNamespace` | src/redisKeyStore.ts:81-85 | a key matches `{prefix:*` if and only if it starts with `{prefix:` |
| `Keys.SlotKeyMatchesScan` | src/redisKeyStore.ts:81 | the clear-all pattern matches every slot key of its own prefix |
| `Keys.DistinctNamespacesDisjoint` | src/redisKeyStore.ts:81 | if two different prefixes contain no `:`, neither namespace contains a slot key of the other |
| `Keys.NestedNamespaceOverlap` | src/redisKeyStore.ts:81 | the pattern of `p` matches every slot key of the prefix `p:rest` |
| `Codec.RoundTrip` | src/redisKeyStore.ts:51-62 | decoding the stored text gives back the bytes that were put |
| `Codec.EncodeEmptyIff` | src/redisKeyStore.ts:51-61 | the encoded text is empty if and only if the bytes are empty |
| `KeyStore.AfterPut` | src/redisKeyStore.ts:47-53 | a put adds or overwrites exactly the slot's key with the encoded bytes; every other key keeps its value |
| `KeyStore.AfterDelete` | src/redisKeyStore.ts:71-73 | a delete removes exactly the slot's key; other keys keep their values; an absent key leaves the map unchanged |
| `KeyStore.Stored` | src/redisKeyStore.ts:58-66 | a get succeeds if and only if the key is present with a non-empty value, and then returns the decoded value; otherwise it fails with KeyNotFound |
| `KeyStore.RedisKeyStore.PutKeyInSlot` | src/redisKeyStore.ts:47-53 | the new keyspace is AfterPut of the old one |
| `KeyStore.RedisKeyStore.GetKeyInSlot` | src/redisKeyStore.ts:58-66 | the result is Stored of the current keyspace |
| `KeyStore.RedisKeyStore.DeleteKeySlot` | src/redisKeyStore.ts:71-73 | the new keyspace is AfterDelete of the old one |
| `KeyStore.RedisKeyStore.HasKeyInSlot` | src/redisKeyStore.ts:115-117 | the result is true if and only if the keyspace holds the slot's key, found by testing EXISTS > 0; nothing changes |
| `KeyStore.RedisKeyStore.DeleteBatch` | src/redisKeyStore.ts:86-91 | deleting one scan batch removes exactly the batch's keys from the keyspace |
| `KeyStore.RedisKeyStore.ClearKeySlots` | src/redisKeyStore.ts:78-110 | removes the keys of every batch delivered before the first terminal event; the result is that event's outcome; the stream is destroyed exactly when the timer settles the result; if the scan for the backend's own pattern `{keyPrefix:*` delivers only matching keys and all of them, no key of the backend's namespace remains and every other key keeps its value |
| `Shred.Settle` | src/redisKeyStore.ts:92-105 | for terminal events only: the event resolves exactly when it is `end`; an `error` rejects with that error; the timer, and only the timer, rejects with the timeout error |
| `Shred.Outcome` | src/redisKeyStore.ts:92-105 | clear-all succeeds only if `end` occurs among the events, and fails with a stream error only if that error occurs among them |
| `Shred.Deleted` | src/redisKeyStore.ts:86-91 | a key is deleted if and only if it is in a batch delivered before every terminal event |
| `Shred.FirstTerminalDecides` | src/redisKeyStore.ts:92-105 | the first terminal event decides the outcome: end gives success, an error gives that error, the timer gives a timeout |
| `Shred.StalledScanTimesOut` | src/redisKeyStore.ts:92-95 | if the stream never settles, the timer ends it with the timeout error |
| `Shred.SucceedsIffEndFirst` | src/redisKeyStore.ts:92-100 | clear-all succeeds if and only if `end` arrives before any error and before the timer |
| `Shred.LaterEventsIgnored` | src/redisKeyStore.ts:92-105 | events after the first terminal event change neither the outcome nor the deletions |
| `Shred.MatchedBatchesStayInNamespace` | src/redisKeyStore.ts:83-90 | if the scan delivers only keys matching its pattern, every deleted key is in the namespace |
| `Shred.ClearScope` | src/redisKeyStore.ts:81-91 | after a scan that delivers only matching keys and delivers all of them, no namespace key remains; every other key is untouched |
| `Shred.EmptyNamespaceUntouched` | src/redisKeyStore.ts:86-91 | if no namespace key exists, clear-all leaves the keyspace unchanged |
| `KeyStore.GetAfterPut` | test/redisKeyStore.spec.ts:65-71 | reading right after putting a non-empty key returns that key |
| `KeyStore.EmptyKeyReadsAsMissing` | src/redisKeyStore.ts:61-65 | after putting the empty key, the slot exists but reading it fails with KeyNotFound |
| `KeyStore.PutLeavesOtherSlots` | src/redisKeyStore.ts:49-52 | a put leaves every other slot of the namespace reading as before |
| `KeyStore.DeleteRemovesSlot` | test/redisKeyStore.spec.ts:73-77 | after a delete the slot neither exists nor reads back; deleting it again changes nothing |
| `KeyStore.DeleteLeavesOtherSlots` | src/redisKeyStore.ts:71-73 | a delete leaves every other slot of the namespace reading as before |
| `KeyStore.ClearForgetsSlots` | test/redisKeyStore.spec.ts:113-117 | after a complete clear-all, for any prefix, no slot of the namespace reads back |
| `KeyStore.ClearKeepsOtherNamespaces` | src/redisKeyStore.ts:81-91 | when the scan delivers only matching keys and neither prefix contains `:`, a clear-all leaves every slot of a different prefix reading as before |
| `KeyStore.ShredScenario` | test/redisKeyStore.spec.ts:99-118 | on one backend: put a key, and get returns it; clear-all's result is the scan outcome; get then fails with KeyNotFound, and every key outside the namespace keeps its value |
| `KeyStore.ManageKeyScenario` | test/redisKeyStore.spec.ts:59-78 | put, then get returns the key; delete, then get fails with KeyNotFound and exists is false |

## Left out

- Base64 internals: `Codec` is a stand-in with one character per byte, not the RFC 4648
  section 4 alphabet. It has the two properties the store depends on: decoding inverts
  encoding, and only the empty byte string encodes to the empty text. The exact text written
  to Redis is therefore not modelled.
- Network I/O: the ioredis client is not modelled at the network level. SET, GET, DEL and
  EXISTS are map operations that always succeed, so connection errors are not modelled. The
  scan is an abstract sequence of events. A scan can fail only through its `error` event, so
  the synchronous `catch` around starting it is not modelled.
- `close()`: it only calls `disconnect` on the client and keeps no state of its own.
- Logging: the logger calls (trace, info, error) are left out.
- Sealing: the password, salt and context providers are only passed to the base key store,
  which is not part of this model.
- Timer and concurrency: the 10 second timer is an abstract `TimerFired` event, not wall-clock
  time. Concurrent callers and writes racing a clear-all are not modelled.
- KeyStore.RedisKeyStore.ClearKeySlots: the fire-and-forget DEL calls are modelled as applied
  in order before the next scan event. Their acknowledgements and failures never affect the
  result.
- Shred.Deleted: deletion stops at the first terminal event, but the source never removes its
  `data` listener. This matches the program only because the scan stream emits no batch after
  `end`, after `error` or after `destroy()`. Batches arriving after that are not modelled.
- SCAN cursor behaviour: duplicate or missed keys under concurrent writes are not modelled.
  What a scan delivers is a hypothesis of the clear-all lemmas ("only matching keys" and
  "all matching keys").
- Keys.Matches: it is a literal prefix test. That is faithful to Redis glob matching only
  when the prefix holds none of `*`, `?`, `[` and `\`.
