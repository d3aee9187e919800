/**
  DNS keys in the order their sets keep them, and the request of section 4 of RFC 8078 to turn DNSSEC off.
 */
module DnsKeys {
  import opened Strings

  newtype Short = n: int | 0 <= n < 0x1_0000

  datatype DnsKey = DnsKey(flags: Short, protocol: Short, alg: Short, key: string)

  predicate Less(a: DnsKey, b: DnsKey) {
    if a.key != b.key then Below(a.key, b.key)
    else if a.alg != b.alg then a.alg < b.alg
    else if a.protocol != b.protocol then a.protocol < b.protocol
    else a.flags < b.flags
  }

  /** operator==, which is derived from the order. */
  predicate Equivalent(a: DnsKey, b: DnsKey) {
    !(Less(a, b) || Less(b, a))
  }

  /** The order is a strict total order, by key, algorithm, protocol and flags, and the equality derived from it is
      equality of all fields. */
  lemma StrictTotalOrder(a: DnsKey, b: DnsKey, c: DnsKey)
    ensures !Less(a, a)
    ensures Less(a, b) ==> !Less(b, a)
    ensures Less(a, b) && Less(b, c) ==> Less(a, c)
    ensures Equivalent(a, b) <==> a == b
    ensures Below(a.key, b.key) ==> Less(a, b)
    ensures a.key == b.key && a.alg < b.alg ==> Less(a, b)
    ensures a.key == b.key && a.alg == b.alg && a.protocol < b.protocol ==> Less(a, b)
  {
    BelowIrreflexive(a.key);
    BelowTotal(a.key, b.key);
    if Below(a.key, b.key) && Below(b.key, a.key) {
      BelowTransitive(a.key, b.key, a.key);
    }
    if Below(a.key, b.key) && Below(b.key, c.key) {
      BelowTransitive(a.key, b.key, c.key);
      if a.key == c.key {
        BelowIrreflexive(a.key);
      }
    }
  }

  /** The one key that asks for the deletion of all DS records: 0 3 0 0, the zero in base64. */
  const DELETE_KEY := DnsKey(0, 3, 0, "AA==")

  predicate IsSpecialDeleteKey(k: DnsKey) {
    k.flags == 0 && k.protocol == 3 && k.alg == 0 && k.key == "AA=="
  }

  predicate TurnOffRequested(keys: set<DnsKey>) {
    |keys| == 1 && forall k :: k in keys ==> IsSpecialDeleteKey(k)
  }

  lemma TurnOffIsDeleteKey(keys: set<DnsKey>)
    ensures TurnOffRequested(keys) <==> keys == {DELETE_KEY}
  {
    if |keys| == 1 {
      var k :| k in keys;
      assert |keys - {k}| == 0;
      assert keys == {k};
    }
  }

  const MIN_NUMBER_OF_DNS_KEYS := 1
  const MAX_NUMBER_OF_DNS_KEYS := 10

  predicate WithinLimits(keys: set<DnsKey>) {
    MIN_NUMBER_OF_DNS_KEYS <= |keys| <= MAX_NUMBER_OF_DNS_KEYS
  }
}
