/** Values of the Algorand Virtual Machine (AVM) that the contract computes with:
    unsigned 64-bit integers, bytes, 32-byte account addresses, and the
    `sqrt` opcode (floor of the square root of a uint64). */
module Avm {

  /** Largest value of an AVM uint64; `+` and `*` fail rather than wrap above it. */
  const U64_MAX: int := 0xFFFF_FFFF_FFFF_FFFF

  type uint64 = x: int | 0 <= x <= U64_MAX

  type byte = b: int | 0 <= b < 256

  /** Every account address on the platform is exactly this many bytes long. */
  const ADDRESS_LENGTH: nat := 32

  type Address = s: seq<byte> | |s| == ADDRESS_LENGTH witness seq(ADDRESS_LENGTH, _ => 0)

  /** One step of the halving recursion of Isqrt: if `s` is the floor square root
      of `n / 4`, the floor square root of `n` is `2 * s` or `2 * s + 1`. */
  lemma HalvingStep(n: nat, s: nat)
    requires s * s <= n / 4 < (s + 1) * (s + 1)
    ensures (2 * s) * (2 * s) <= n < (2 * s + 2) * (2 * s + 2)
  {
  }

  /** The AVM `sqrt` opcode: the floor of the square root. */
  function Isqrt(n: nat): (r: nat)
    ensures r * r <= n < (r + 1) * (r + 1)
    decreases n
  {
    if n < 4 then
      (if n == 0 then 0 else 1)
    else
      var s := Isqrt(n / 4);
      HalvingStep(n, s);
      if (2 * s + 1) * (2 * s + 1) <= n then 2 * s + 1 else 2 * s
  }

  lemma SquareMonotone(a: nat, b: nat)
    requires a <= b
    ensures a * a <= b * b
  {
  }

  /** The floor square root is unique: any `r` bracketing `n` the same way is `Isqrt(n)`. */
  lemma IsqrtUnique(n: nat, r: nat)
    requires r * r <= n < (r + 1) * (r + 1)
    ensures Isqrt(n) == r
  {
    var s := Isqrt(n);
    if s < r {
      SquareMonotone(s + 1, r);
      assert false;
    } else if r < s {
      SquareMonotone(r + 1, s);
      assert false;
    }
  }
}
