# Quadratic funding allocation contract, modelled in Dafny

This project models the QuadraticFunding application of
`smart_contracts/quadratic_funding/contract.py`. It is a smart contract for the
Algorand Virtual Machine (AVM) that runs one funding round at a time. The
owner starts and ends rounds and registers up to ten organizations. Donors
give uint64 amounts to registered organizations. Anyone can then compute a
matching fund for every organization slot.

Modules:

- `Avm` (`avm.dfy`): uint64, bytes, 32-byte addresses, and the AVM `sqrt`
  opcode as `Isqrt`, the floor square root.
- `DonationLedger` (`ledger.dfy`): the storage key
  `"donation_" ++ donor ++ "_" ++ organization`, and reading a record, which
  gives 0 when the key is absent.
- `OrganizationRegistry` (`registry.dfy`): the ten slots, with the empty byte
  string marking a free slot. It covers the lowest-free-slot scan,
  registration, and counting free slots.
- `MatchingEngine` (`matching.dfy`): the per-slot square `Isqrt(t) * Isqrt(t)`,
  the sum of squares, and each slot's share `square / sum`.
- `QuadraticFundingApp` (`contract.dfy`): the class `QuadraticFunding`. Its
  fields are the contract's global state, and it has one method per entry
  point. A caller identity is a `sender` parameter. A failed `Assert` becomes a
  `Failure` status, and the call then leaves every field unchanged.

Two points about the code worth noting:

- `get_total_donations_for_organization` folds the slots into a chain of `If`s
  (contract.py:131-136). The outermost test is for the last slot, so the
  highest-index matching slot wins.
- `add_organization` (contract.py:52-69) does not check for duplicates. One
  address can occupy several slots.

## Model

Some functions define the formulas the rows below are about and have no row
of their own:

- `OrganizationRegistry.Register` (contract.py:59-63) and
  `OrganizationRegistry.IsRegistered` (contract.py:79-81): covered by
  `RegisterFillsLowestFreeSlot`, `AddOrganization` and `Donate`.
- `DonationLedger.Lookup` (contract.py:86 and 146): covered by
  `LookupAfterWrite`, `GetUserDonationToOrganization` and `Donate`.
- `MatchingEngine.SumOfSquares` (contract.py:108-111) and
  `MatchingEngine.Share` (contract.py:116): covered by `SquareAtMostSum`,
  `SumOfSquaresZero`, `ShareIsZeroOrOne` and `CalculateMatchingFunds`.

| member | source | states |
|---|---|---|
| `Avm.Isqrt` | smart_contracts/quadratic_funding/contract.py:110 | the result `r` of `sqrt` satisfies `r*r <= n < (r+1)*(r+1)` (floor square root) |
| `Avm.IsqrtUnique` | smart_contracts/quadratic_funding/contract.py:110 | any `r` bracketing `n` that way is `Isqrt(n)`, so the floor square root is fully determined |
| `DonationLedger.DonationKey` | smart_contracts/quadratic_funding/contract.py:83 | the key is `donation_`, then the donor, `_`, and the organization; it has a fixed length of 74 bytes and starts with the `donation_` prefix |
| `DonationLedger.DonationKeyInjective` | smart_contracts/quadratic_funding/contract.py:145-146 | equal keys come from the same (donor, organization) pair, so the getter's key finds exactly the record `donate` wrote for that pair |
| `DonationLedger.LookupAfterWrite` | smart_contracts/quadratic_funding/contract.py:83-86 | writing one pair's record changes the lookup of that pair to the new value and of every other pair not at all |
| `OrganizationRegistry.FirstEmpty` | smart_contracts/quadratic_funding/contract.py:59-63 | the scan returns a free slot with every lower slot occupied, or nothing exactly when no slot is free |
| `OrganizationRegistry.RegisterFillsLowestFreeSlot` | smart_contracts/quadratic_funding/contract.py:52-69 | registration fails exactly when no slot is free; otherwise it writes the address into the lowest free slot, leaves the others alone, and uses up one free slot |
| `OrganizationRegistry.RegisterAllCount` | smart_contracts/quadratic_funding/contract.py:59-69 | of any sequence of registrations, min(count, free slots) succeed, and each success uses up one free slot |
| `OrganizationRegistry.EleventhRegistrationFails` | smart_contracts/quadratic_funding/contract.py:10 | from ten free slots, ten registrations succeed and an eleventh fails |
| `MatchingEngine.Square` | smart_contracts/quadratic_funding/contract.py:110-111 | a slot's square `Isqrt(t)^2` is at most its total, so squaring the root never leaves uint64, and is 0 exactly when the total is 0 |
| `MatchingEngine.SquareAtMostSum` | smart_contracts/quadratic_funding/contract.py:108-111 | each slot's square is at most the sum of squares |
| `MatchingEngine.SumOfSquaresZero` | smart_contracts/quadratic_funding/contract.py:116 | the divisor is 0, so the division fails, exactly when no slot has any donations |
| `MatchingEngine.ShareIsZeroOrOne` | smart_contracts/quadratic_funding/contract.py:116 | every matching fund is 0 or 1; it is 1 exactly when that slot is the only one with donations |
| `MatchingEngine.AtMostOneFullShare` | smart_contracts/quadratic_funding/contract.py:115-117 | no two slots both receive 1 |
| `MatchingEngine.TwoOrganizationExample` | smart_contracts/quadratic_funding/contract.py:104-117 | totals 200 and 100 give squares 196 and 100, a sum of 296, and matching funds of 0 for both |
| `QuadraticFundingApp.QuadraticFunding.constructor` | smart_contracts/quadratic_funding/contract.py:19-25 | `create`: the owner is the caller, the round flag is 0, every slot is free, and every matching fund, total and record is 0 |
| `QuadraticFundingApp.QuadraticFunding.StartFundingRound` | smart_contracts/quadratic_funding/contract.py:29-38 | succeeds exactly for the owner; it sets the flag to 1 whatever it was, so it is idempotent, and changes nothing else; a non-owner changes nothing |
| `QuadraticFundingApp.QuadraticFunding.EndFundingRound` | smart_contracts/quadratic_funding/contract.py:40-49 | succeeds exactly for the owner; it sets the flag to 0 whatever it was, so it is idempotent, and changes nothing else; a non-owner changes nothing |
| `QuadraticFundingApp.QuadraticFunding.AddOrganization` | smart_contracts/quadratic_funding/contract.py:51-69 | a non-owner gets Unauthorized; otherwise the slots become `Register(old slots, org)`, which is the lowest free slot filled, or it fails RegistryFull with the slots unchanged |
| `QuadraticFundingApp.QuadraticFunding.Donate` | smart_contracts/quadratic_funding/contract.py:73-95 | fails RoundInactive unless the flag is 1, then InvalidOrganization unless some slot holds the address, then ArithmeticOverflow if a credited value would pass U64_MAX; each failure leaves all state unchanged; on success the sender's record for `org` grows by exactly `amount`, every other pair's record and every other slot stays the same, and each slot holding `org` grows by `amount` |
| `QuadraticFundingApp.QuadraticFunding.CalculateMatchingFunds` | smart_contracts/quadratic_funding/contract.py:98-122 | any caller, any round state; fails ArithmeticOverflow when the sum of squares exceeds U64_MAX, then DivisionByZero when it is 0; otherwise every slot's matching fund becomes `Share(totals, i)`; a failure leaves the funds unchanged |
| `QuadraticFundingApp.QuadraticFunding.GetUserDonationToOrganization` | smart_contracts/quadratic_funding/contract.py:140-146 | returns `Lookup(ledger, user, org)`: the record under the same key that `Donate` writes, or 0 when that key is absent; never fails |
| `QuadraticFundingApp.QuadraticFunding.GetTotalDonationsForOrganization` | smart_contracts/quadratic_funding/contract.py:126-137 | returns 0 when no slot holds the address, and otherwise the total of the highest slot holding it; never fails and changes nothing |

## Left out

- Organization totals: the source reads `app.state.organizations[i].amount`
  (contract.py:109 and 135), but a byte-string state value has no such field.
  The comment at contract.py:87 shows that `donate` was meant to update
  another counter. The model adds an `organizationTotals` array of ten uint64
  values. `Donate` adds to it, and the matching computation and the total
  getter read it. This is a modelling choice, not source behaviour.
- Donate: with duplicate registrations, `Donate` credits every slot that holds
  the organization. It also fails ArithmeticOverflow when any credited total
  would pass U64_MAX. Both follow from the added totals, not from the source.
- A full registry: the source has no assertion for this case. The model
  treats it as a RegistryFull failure.
- The Python `for`/`break` in `add_organization` runs when the program is
  built. It is not modelled; the model uses the lowest-free-slot scan that the
  code plainly intends.
- Matching: when the sum of squares passes U64_MAX, the AVM `+` fails. The
  model reports this as ArithmeticOverflow, because TEAL arithmetic aborts on
  overflow.
- The per-donor quadratic-funding formula (sum of square roots of individual
  donations, then squared) is not implemented by the source and is not
  modelled. Neither is any payout or transfer from a matching pool.
- The ledger is one map from storage key to amount. Per-account local storage
  is not modelled: which account holds a record, opt-in, and the state
  schema. Also not modelled is the platform's 64-byte limit on state keys;
  the key built here is 74 bytes long.
- The unused local fields `user_donations` and `user_organization_donations`
  (contract.py:14-15) are not modelled.
- Transaction signing, ABI encoding and decoding, and the PyTeal/Beaker
  expression machinery are not modelled. An ABI address is always 32 bytes:
  that is the `Address` type.
- `smart_contracts/quadratic_funding/deploy_config.py` is network deployment
  code and is not part of this model. `tests/quadratic_funding_test.py` calls
  a `hello` method that the contract does not have, so it states nothing
  about the core.
