/** The QuadraticFunding application: its global state and its entry points.
    Each entry point takes the authenticated caller as `sender`; an assertion
    that fails in the source aborts the whole call, which here is a `Failure`
    status with every field left as it was. */
module QuadraticFundingApp {
  import opened Avm
  import opened OrganizationRegistry
  import opened DonationLedger
  import opened MatchingEngine

  datatype Error =
    | Unauthorized         // the caller is not the owner
    | RoundInactive        // a donation while no round is active
    | InvalidOrganization  // a donation to an address in no slot
    | RegistryFull         // a registration with every slot taken
    | ArithmeticOverflow   // a uint64 addition above U64_MAX
    | DivisionByZero       // a matching computation with no donations at all

  datatype Status = Success | Failure(error: Error)

  class QuadraticFunding {
    var owner: Address
    /** 1 while a funding round is active, 0 otherwise. */
    var fundingRoundActive: uint64
    /** Registered organizations; `EMPTY` marks a free slot. */
    const organizations: array<seq<byte>>
    /** The last computed matching fund of each slot. */
    const matchingFunds: array<uint64>
    /** Donations received by each slot's organization since it was registered. */
    const organizationTotals: array<uint64>
    /** Every donor's cumulative donation to each organization, by storage key. */
    var ledger: Ledger

    ghost predicate Valid()
      reads this, organizations, matchingFunds, organizationTotals
    {
      && organizations.Length == SLOTS
      && matchingFunds.Length == SLOTS
      && organizationTotals.Length == SLOTS
      && matchingFunds != organizationTotals
      && fundingRoundActive <= 1
      && SlotsWellFormed(organizations[..])
      && (forall i :: 0 <= i < SLOTS && organizations[i] == EMPTY ==> organizationTotals[i] == 0)
      && (forall i :: 0 <= i < SLOTS ==> matchingFunds[i] <= 1)
    }

    /** `create`: the caller becomes the owner, no round is active, every slot
        is free and every matching fund and total is 0. */
    constructor (sender: Address)
      ensures Valid()
      ensures fresh(organizations) && fresh(matchingFunds) && fresh(organizationTotals)
      ensures owner == sender && fundingRoundActive == 0
      ensures forall i :: 0 <= i < SLOTS ==>
        organizations[i] == EMPTY && matchingFunds[i] == 0 && organizationTotals[i] == 0
      ensures ledger == map[]
    {
      owner := sender;
      fundingRoundActive := 0;
      organizations := new seq<byte>[SLOTS](_ => EMPTY);
      matchingFunds := new uint64[SLOTS](_ => 0);
      organizationTotals := new uint64[SLOTS](_ => 0);
      ledger := map[];
    }

    /** `start_funding_round`: only the owner may call it; it sets the flag to 1
        whatever it was, so a second call changes nothing. */
    method StartFundingRound(sender: Address) returns (st: Status)
      requires Valid()
      modifies this
      ensures Valid()
      ensures st == if sender == owner then Success else Failure(Unauthorized)
      ensures fundingRoundActive == if st.Success? then 1 else old(fundingRoundActive)
      ensures owner == old(owner) && ledger == old(ledger)
    {
      if sender != owner {
        return Failure(Unauthorized);
      }
      fundingRoundActive := 1;
      st := Success;
    }

    /** `end_funding_round`: only the owner may call it; it sets the flag to 0
        whatever it was, so a second call changes nothing. */
    method EndFundingRound(sender: Address) returns (st: Status)
      requires Valid()
      modifies this
      ensures Valid()
      ensures st == if sender == owner then Success else Failure(Unauthorized)
      ensures fundingRoundActive == if st.Success? then 0 else old(fundingRoundActive)
      ensures owner == old(owner) && ledger == old(ledger)
    {
      if sender != owner {
        return Failure(Unauthorized);
      }
      fundingRoundActive := 0;
      st := Success;
    }

    /** `add_organization`: only the owner may call it; it writes `org` into the
        lowest free slot and fails when there is none. It does not look for
        `org` in the other slots. */
    method AddOrganization(sender: Address, org: Address) returns (st: Status)
      requires Valid()
      modifies organizations
      ensures Valid()
      ensures sender != owner ==> st == Failure(Unauthorized)
      ensures sender == owner ==>
        st == if Register(old(organizations[..]), org).Some? then Success else Failure(RegistryFull)
      ensures st.Success? ==> Register(old(organizations[..]), org) == Some(organizations[..])
      ensures st.Failure? ==> organizations[..] == old(organizations[..])
    {
      if sender != owner {
        return Failure(Unauthorized);
      }
      var i := 0;
      while i < SLOTS && organizations[i] != EMPTY
        invariant 0 <= i <= SLOTS
        invariant forall k :: 0 <= k < i ==> organizations[k] != EMPTY
      {
        i := i + 1;
      }
      if i == SLOTS {
        return Failure(RegistryFull);
      }
      assert FirstEmpty(organizations[..]) == Some(i);
      organizations[i] := org;
      st := Success;
    }

    /** The slots that a donation of `amount` to `org` credits, none of which
        may overflow: the donor's record and every slot holding `org`. */
    predicate FitsInUint64(sender: Address, org: Address, amount: uint64)
      reads this, organizations, organizationTotals
      requires organizations.Length == SLOTS && organizationTotals.Length == SLOTS
    {
      && Lookup(ledger, sender, org) + amount <= U64_MAX
      && forall i :: 0 <= i < SLOTS && organizations[i] == org ==>
           organizationTotals[i] + amount <= U64_MAX
    }

    /** `donate`: accepted only while a round is active and only for an address
        in some slot; it adds `amount` to the caller's record for `org` and to
        the total of every slot holding `org`, and aborts rather than wrap. */
    method Donate(sender: Address, org: Address, amount: uint64) returns (st: Status)
      requires Valid()
      modifies this, organizationTotals
      ensures Valid()
      ensures st == if old(fundingRoundActive) != 1 then Failure(RoundInactive)
                    else if !IsRegistered(organizations[..], org) then Failure(InvalidOrganization)
                    else if !old(FitsInUint64(sender, org, amount)) then Failure(ArithmeticOverflow)
                    else Success
      ensures st.Success? ==>
        forall u: Address, o: Address :: Lookup(ledger, u, o)
          == if u == sender && o == org then old(Lookup(ledger, u, o)) + amount
             else old(Lookup(ledger, u, o))
      ensures st.Success? ==>
        ledger == old(ledger)[DonationKey(sender, org) := old(Lookup(ledger, sender, org)) + amount]
      ensures st.Success? ==> forall i :: 0 <= i < SLOTS ==>
        organizationTotals[i] == old(organizationTotals[i]) + (if organizations[i] == org then amount else 0)
      ensures st.Failure? ==> ledger == old(ledger) && organizationTotals[..] == old(organizationTotals[..])
      ensures owner == old(owner) && fundingRoundActive == old(fundingRoundActive)
    {
      if fundingRoundActive != 1 {
        return Failure(RoundInactive);
      }
      if !IsRegistered(organizations[..], org) {
        return Failure(InvalidOrganization);
      }
      if !FitsInUint64(sender, org, amount) {
        return Failure(ArithmeticOverflow);
      }
      ghost var before := ledger;
      var record := Lookup(ledger, sender, org) + amount;
      ledger := ledger[DonationKey(sender, org) := record];
      forall u: Address, o: Address
        ensures Lookup(ledger, u, o)
             == if u == sender && o == org then record else Lookup(before, u, o)
      {
        LookupAfterWrite(before, sender, org, record, u, o);
      }
      forall i | 0 <= i < SLOTS && organizations[i] == org {
        organizationTotals[i] := organizationTotals[i] + amount;
      }
      assert organizations[..] == old(organizations[..]);
      st := Success;
    }

    /** `calculate_matching_funds`: open to any caller in any round state. It sums
        the squares of the slots' floor square roots, aborting when the sum
        leaves the uint64 range or is 0, and otherwise sets each slot's matching
        fund to its square divided by the sum. */
    method CalculateMatchingFunds() returns (st: Status)
      requires Valid()
      modifies matchingFunds
      ensures Valid()
      ensures st == if SumOfSquares(organizationTotals[..]) > U64_MAX then Failure(ArithmeticOverflow)
                    else if SumOfSquares(organizationTotals[..]) == 0 then Failure(DivisionByZero)
                    else Success
      ensures st.Success? ==> forall i :: 0 <= i < SLOTS ==>
        matchingFunds[i] == Share(organizationTotals[..], i)
      ensures st.Failure? ==> matchingFunds[..] == old(matchingFunds[..])
    {
      ghost var totals := organizationTotals[..];
      var squares: seq<uint64> := [];
      var sum: uint64 := 0;
      var i := 0;
      while i < SLOTS
        invariant 0 <= i <= SLOTS
        invariant |squares| == i
        invariant forall k :: 0 <= k < i ==> squares[k] == Square(totals[k])
        invariant sum == SumOfSquares(totals[..i])
        invariant matchingFunds[..] == old(matchingFunds[..])
      {
        var s := Isqrt(organizationTotals[i]);
        var square := s * s;
        assert square == Square(totals[i]);
        SumOfSquaresStep(totals, i);
        if sum + square > U64_MAX {
          SumOfSquaresPrefix(totals, i + 1);
          return Failure(ArithmeticOverflow);
        }
        sum := sum + square;
        squares := squares + [square];
        i := i + 1;
      }
      assert totals[..SLOTS] == totals;
      if sum == 0 {
        return Failure(DivisionByZero);
      }
      var j := 0;
      while j < SLOTS
        invariant 0 <= j <= SLOTS
        invariant forall k :: 0 <= k < j ==> matchingFunds[k] == Share(totals, k) <= 1
        invariant forall k :: j <= k < SLOTS ==> matchingFunds[k] == old(matchingFunds[k])
      {
        ShareIsZeroOrOne(totals, j);
        matchingFunds[j] := squares[j] / sum;
        j := j + 1;
      }
      st := Success;
    }

    /** `get_total_donations_for_organization`: the total of the highest slot
        holding `org`, or 0 when no slot does. Never fails. */
    method GetTotalDonationsForOrganization(org: Address) returns (total: uint64)
      requires Valid()
      ensures (forall k :: 0 <= k < SLOTS ==> organizations[k] != org) ==> total == 0
      ensures forall j :: (0 <= j < SLOTS && organizations[j] == org
                           && forall k :: j < k < SLOTS ==> organizations[k] != org) ==>
                total == organizationTotals[j]
    {
      total := 0;
      var i := 0;
      while i < SLOTS
        invariant 0 <= i <= SLOTS
        invariant (forall k :: 0 <= k < i ==> organizations[k] != org) ==> total == 0
        invariant forall j :: (0 <= j < i && organizations[j] == org
                               && forall k :: j < k < i ==> organizations[k] != org) ==>
                    total == organizationTotals[j]
      {
        if organizations[i] == org {
          total := organizationTotals[i];
        }
        i := i + 1;
      }
    }

    /** `get_user_donation_to_organization`: what `user` has given `org`, or 0.
        It reads the record under the same key that `Donate` writes. */
    function GetUserDonationToOrganization(user: Address, org: Address): (r: uint64)
      reads this
      ensures r == Lookup(ledger, user, org)
    {
      Lookup(ledger, user, org)
    }
  }
}
