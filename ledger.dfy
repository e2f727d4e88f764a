/** The per-donor donation records. The contract stores each record under the
    byte-string key `"donation_" ++ donor ++ "_" ++ organization`; a missing
    key reads as 0. */
module DonationLedger {
  import opened Avm

  /** The ASCII bytes of `donation_`. */
  const DONATION_PREFIX: seq<byte> := [100, 111, 110, 97, 116, 105, 111, 110, 95]

  /** The ASCII byte of `_`. */
  const SEPARATOR: byte := 95

  type Ledger = map<seq<byte>, uint64>

  /** The storage key of the record of `user`'s donations to `org`. Both parts
      are addresses of a fixed length, so the key has a fixed length too. */
  function DonationKey(user: Address, org: Address): (key: seq<byte>)
    ensures |key| == |DONATION_PREFIX| + 2 * ADDRESS_LENGTH + 1
    ensures key[..|DONATION_PREFIX|] == DONATION_PREFIX
  {
    DONATION_PREFIX + user + [SEPARATOR] + org
  }

  /** Different (donor, organization) pairs never share a storage key. */
  lemma DonationKeyInjective(u1: Address, o1: Address, u2: Address, o2: Address)
    requires DonationKey(u1, o1) == DonationKey(u2, o2)
    ensures u1 == u2 && o1 == o2
  {
    var p := |DONATION_PREFIX|;
    var k1, k2 := DonationKey(u1, o1), DonationKey(u2, o2);
    assert k1[p..p + ADDRESS_LENGTH] == u1;
    assert k2[p..p + ADDRESS_LENGTH] == u2;
    assert k1[p + ADDRESS_LENGTH + 1..] == o1;
    assert k2[p + ADDRESS_LENGTH + 1..] == o2;
  }

  /** The recorded amount `user` has given to `org`, 0 when there is no record. */
  function Lookup(ledger: Ledger, user: Address, org: Address): uint64
  {
    var key := DonationKey(user, org);
    if key in ledger then ledger[key] else 0
  }

  /** Writing the record of one pair changes the lookup of that pair only. */
  lemma {:induction false} LookupAfterWrite(ledger: Ledger, user: Address, org: Address, v: uint64,
                                            u: Address, o: Address)
    ensures Lookup(ledger[DonationKey(user, org) := v], u, o)
         == if u == user && o == org then v else Lookup(ledger, u, o)
  {
    if !(u == user && o == org) && DonationKey(u, o) == DonationKey(user, org) {
      DonationKeyInjective(u, o, user, org);
      assert false;
    }
  }
}
