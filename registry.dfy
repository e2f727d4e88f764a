/** The organization registry: a fixed row of ten slots, each holding either the
    empty byte string (a free slot) or an organization's address. A registration
    takes the lowest free slot; nothing stops one address from taking several. */
module OrganizationRegistry {
  import opened Avm

  datatype Option<T> = None | Some(value: T)

  /** Number of organization slots in the contract's global state. */
  const SLOTS: nat := 10

  /** The sentinel of a free slot: the empty byte string. */
  const EMPTY: seq<byte> := []

  /** Every slot is free or holds an address. */
  ghost predicate SlotsWellFormed(slots: seq<seq<byte>>)
  {
    forall i :: 0 <= i < |slots| ==> slots[i] == EMPTY || |slots[i]| == ADDRESS_LENGTH
  }

  /** `org` occupies some slot. A free slot never matches, since an address is never empty. */
  predicate IsRegistered(slots: seq<seq<byte>>, org: Address)
  {
    exists i :: 0 <= i < |slots| && slots[i] == org
  }

  /** The lowest free slot, if any. */
  function FirstEmpty(slots: seq<seq<byte>>): (r: Option<nat>)
    ensures r.Some? ==> r.value < |slots| && slots[r.value] == EMPTY
    ensures r.Some? ==> forall k :: 0 <= k < r.value ==> slots[k] != EMPTY
    ensures r.None? <==> forall k :: 0 <= k < |slots| ==> slots[k] != EMPTY
  {
    if slots == [] then None
    else if slots[0] == EMPTY then Some(0)
    else match FirstEmpty(slots[1..])
      case None => None
      case Some(k) => Some(k + 1)
  }

  /** Number of free slots. */
  function EmptyCount(slots: seq<seq<byte>>): nat
  {
    if slots == [] then 0
    else (if slots[0] == EMPTY then 1 else 0) + EmptyCount(slots[1..])
  }

  lemma {:induction false} EmptyCountBounds(slots: seq<seq<byte>>)
    ensures EmptyCount(slots) <= |slots|
    ensures EmptyCount(slots) == 0 <==> forall k :: 0 <= k < |slots| ==> slots[k] != EMPTY
    ensures (forall k :: 0 <= k < |slots| ==> slots[k] == EMPTY) ==> EmptyCount(slots) == |slots|
  {
    if slots != [] {
      EmptyCountBounds(slots[1..]);
      assert forall k :: 1 <= k < |slots| ==> slots[k] == slots[1..][k - 1];
    }
  }

  /** Filling a free slot with an address uses up exactly one free slot. */
  lemma {:induction false} FillSlot(slots: seq<seq<byte>>, k: nat, org: Address)
    requires k < |slots| && slots[k] == EMPTY
    ensures EmptyCount(slots[k := org]) == EmptyCount(slots) - 1
  {
    if k > 0 {
      FillSlot(slots[1..], k - 1, org);
      assert slots[k := org][1..] == slots[1..][k - 1 := org];
    } else {
      assert slots[k := org][1..] == slots[1..];
    }
  }

  /** The registry after adding `org`: `None` when no slot is free. */
  function Register(slots: seq<seq<byte>>, org: Address): Option<seq<seq<byte>>>
  {
    match FirstEmpty(slots)
    case None => None
    case Some(k) => Some(slots[k := org])
  }

  /** A registration fails exactly when every slot is taken; otherwise it writes
      `org` into the lowest free slot, leaves every other slot as it was, and
      uses up one free slot. */
  lemma RegisterFillsLowestFreeSlot(slots: seq<seq<byte>>, org: Address)
    ensures Register(slots, org).None? <==> EmptyCount(slots) == 0
    ensures Register(slots, org).Some? ==>
      exists k :: 0 <= k < |slots| && slots[k] == EMPTY
        && (forall j :: 0 <= j < k ==> slots[j] != EMPTY)
        && Register(slots, org).value == slots[k := org]
    ensures Register(slots, org).Some? ==>
      EmptyCount(Register(slots, org).value) == EmptyCount(slots) - 1
  {
    EmptyCountBounds(slots);
    match FirstEmpty(slots)
    case None =>
    case Some(k) => FillSlot(slots, k, org);
  }

  /** Adding each address of `orgs` in turn: the final registry and the number
      of additions that succeeded. */
  function RegisterAll(slots: seq<seq<byte>>, orgs: seq<Address>): (seq<seq<byte>>, nat)
    decreases |orgs|
  {
    if orgs == [] then (slots, 0)
    else match Register(slots, orgs[0])
      case None => var (s, n) := RegisterAll(slots, orgs[1..]); (s, n)
      case Some(next) => var (s, n) := RegisterAll(next, orgs[1..]); (s, n + 1)
  }

  /** Of any sequence of additions, exactly as many succeed as there were free
      slots, or all of them if there are fewer, and each success uses up one
      free slot. */
  lemma {:induction false} RegisterAllCount(slots: seq<seq<byte>>, orgs: seq<Address>)
    ensures RegisterAll(slots, orgs).1
         == if |orgs| <= EmptyCount(slots) then |orgs| else EmptyCount(slots)
    ensures EmptyCount(RegisterAll(slots, orgs).0) == EmptyCount(slots) - RegisterAll(slots, orgs).1
    decreases |orgs|
  {
    if orgs != [] {
      RegisterFillsLowestFreeSlot(slots, orgs[0]);
      match Register(slots, orgs[0])
      case None => RegisterAllCount(slots, orgs[1..]);
      case Some(next) => RegisterAllCount(next, orgs[1..]);
    }
  }

  /** Starting from ten free slots, the first ten additions all succeed and the
      eleventh fails: at most ten organizations are ever registered. */
  lemma EleventhRegistrationFails(orgs: seq<Address>)
    requires |orgs| == SLOTS + 1
    ensures RegisterAll(seq(SLOTS, _ => EMPTY), orgs[..SLOTS]).1 == SLOTS
    ensures Register(RegisterAll(seq(SLOTS, _ => EMPTY), orgs[..SLOTS]).0, orgs[SLOTS]).None?
  {
    var free := seq(SLOTS, _ => EMPTY);
    EmptyCountBounds(free);
    RegisterAllCount(free, orgs[..SLOTS]);
    RegisterFillsLowestFreeSlot(RegisterAll(free, orgs[..SLOTS]).0, orgs[SLOTS]);
  }
}
