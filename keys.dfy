/**
 * How the key store names things in the remote keyspace: the namespace
 * prefix chosen at construction, the key of one slot and the pattern that
 * clear-all scans for.
 */
module Keys {
  import opened Outcomes

  /** The prefix selected when the constructor is given an empty one. */
  const DefaultPrefix: string := "hermes-key-store"

  /** `keyPrefix || 'hermes-key-store'`: the empty string is the only falsy string. */
  function EffectivePrefix(keyPrefix: string): (prefix: string)
    ensures prefix != ""
    ensures keyPrefix == "" ==> prefix == DefaultPrefix
    ensures keyPrefix != "" ==> prefix == keyPrefix
  {
    if keyPrefix == "" then DefaultPrefix else keyPrefix
  }

  /** The text every key of the namespace starts with: `{prefix:`. */
  function Namespace(prefix: string): string
  {
    "{" + prefix + ":"
  }

  /**
   * The key of one slot, `{prefix:slot}`. For Redis Cluster the braces mark
   * `prefix:slot` as the hash tag, which includes the slot, so the slots of
   * one namespace are in general hashed to different cluster slots.
   */
  function SlotKey(prefix: string, slot: string): (key: string)
    ensures |key| == |Namespace(prefix)| + |slot| + 1
    ensures Namespace(prefix) <= key
    ensures key[|key| - 1] == '}'
  {
    "{" + prefix + ":" + slot + "}"
  }

  predicate InNamespace(prefix: string, key: string)
  {
    Namespace(prefix) <= key
  }

  /** The MATCH pattern of the clear-all scan, `{prefix:*`. */
  function ScanPattern(prefix: string): (pattern: string)
    ensures |pattern| > 0 && pattern[|pattern| - 1] == '*'
  {
    "{" + prefix + ":*"
  }

  /**
   * Redis glob matching restricted to patterns whose only metacharacter is
   * at most one trailing `*`; every other character matches itself.
   */
  predicate Matches(pattern: string, key: string)
  {
    if |pattern| > 0 && pattern[|pattern| - 1] == '*' then pattern[..|pattern| - 1] <= key
    else pattern == key
  }

  /** The scan selects exactly the keys that start with the namespace text. */
  lemma ScanPatternSelectsNamespace(prefix: string, key: string)
    ensures Matches(ScanPattern(prefix), key) <==> InNamespace(prefix, key)
  {
    assert ScanPattern(prefix)[..|ScanPattern(prefix)| - 1] == Namespace(prefix);
  }

  /** The inverse of SlotKey: which slot of `prefix`, if any, `key` addresses. */
  function ParseSlotKey(prefix: string, key: string): (slot: Option<string>)
    ensures slot.Some? ==> SlotKey(prefix, slot.value) == key
  {
    var ns := Namespace(prefix);
    if ns <= key && |key| > |ns| && key[|key| - 1] == '}' then
      var s := key[|ns|..|key| - 1];
      assert key == ns + s + "}" by {
        assert key[..|ns|] == ns;
        assert key == key[..|ns|] + key[|ns|..|key| - 1] + key[|key| - 1..];
      }
      Some(s)
    else
      None
  }

  lemma ParseSlotKeyRoundTrip(prefix: string, slot: string)
    ensures ParseSlotKey(prefix, SlotKey(prefix, slot)) == Some(slot)
  {
    var key, ns := SlotKey(prefix, slot), Namespace(prefix);
    assert key == ns + slot + "}";
    assert key[|ns|..|key| - 1] == slot;
  }

  /** For a fixed prefix, distinct slots address distinct keys. */
  lemma SlotKeyInjective(prefix: string, slot1: string, slot2: string)
    ensures SlotKey(prefix, slot1) == SlotKey(prefix, slot2) <==> slot1 == slot2
  {
    if SlotKey(prefix, slot1) == SlotKey(prefix, slot2) {
      ParseSlotKeyRoundTrip(prefix, slot1);
      ParseSlotKeyRoundTrip(prefix, slot2);
    }
  }

  /** Every slot key lies in its own namespace, so the scan pattern matches it. */
  lemma SlotKeyMatchesScan(prefix: string, slot: string)
    ensures Matches(ScanPattern(prefix), SlotKey(prefix, slot))
  {
    ScanPatternSelectsNamespace(prefix, SlotKey(prefix, slot));
  }

  /**
   * Two different prefixes that contain no `:` have disjoint namespaces: the
   * scan of one never matches a slot key of the other.
   */
  lemma DistinctNamespacesDisjoint(prefix1: string, prefix2: string, slot: string)
    requires prefix1 != prefix2
    requires ':' !in prefix1 && ':' !in prefix2
    ensures !InNamespace(prefix1, SlotKey(prefix2, slot))
  {
    var key := SlotKey(prefix2, slot);
    var ns1 := Namespace(prefix1);
    assert key == "{" + prefix2 + ":" + slot + "}";
    if |prefix1| < |prefix2| {
      assert key[|prefix1| + 1] == prefix2[|prefix1|] != ns1[|prefix1| + 1];
    } else if |prefix1| > |prefix2| {
      assert key[|prefix2| + 1] != prefix1[|prefix2|] == ns1[|prefix2| + 1];
    } else {
      var i :| 0 <= i < |prefix1| && prefix1[i] != prefix2[i];
      assert key[i + 1] == prefix2[i] != ns1[i + 1];
    }
  }

  /**
   * The literal prefix test does not isolate nested namespaces: the scan of
   * `prefix` also matches every slot key of the prefix `prefix + ":" + rest`.
   */
  lemma NestedNamespaceOverlap(prefix: string, rest: string, slot: string)
    ensures Matches(ScanPattern(prefix), SlotKey(prefix + ":" + rest, slot))
  {
    var key := SlotKey(prefix + ":" + rest, slot);
    assert key == Namespace(prefix) + rest + ":" + slot + "}";
    ScanPatternSelectsNamespace(prefix, key);
  }
}
