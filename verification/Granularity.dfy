/**
 * The unit of donation shared by every program of the system, and the two ways
 * in which they round a byte count to it.
 */
module Granularity {
  /** 256 MiB. Every chunk of ephemeral memory is exactly this large. */
  const G: nat := 256 * 1024 * 1024
  const U64_MAX: nat := 0xFFFF_FFFF_FFFF_FFFF

  datatype Option<+T> = None | Some(value: T)

  function Min(a: nat, b: nat): nat {
    if a < b then a else b
  }

  function SaturatingSub(a: nat, b: nat): nat {
    if a < b then 0 else a - b
  }

  /** A whole number of chunks. */
  predicate Whole(x: nat) {
    x % G == 0
  }

  /** The number of whole chunks in `x` bytes. */
  function Count(x: nat): nat {
    x / G
  }

  /** `x & !(G - 1)`: clears the bits below the granularity. */
  function AlignDown(x: nat): nat {
    x - x % G
  }

  lemma CountChunks(x: nat)
    ensures AlignDown(x) == G * Count(x) <= x < G * Count(x) + G
    ensures Whole(AlignDown(x)) && Count(AlignDown(x)) == Count(x)
    ensures Whole(x) <==> x == G * Count(x)
  {
  }

  lemma Chunks(k: nat)
    ensures Whole(G * k) && Count(G * k) == k
  {
  }

  /** A positive whole size loses one chunk when `G` is taken off. */
  lemma DropChunk(x: nat)
    requires Whole(x) && x > 0
    ensures G <= x && Whole(x - G) && Count(x) == Count(x - G) + 1
    ensures Count(0) == 0
  {
  }

  lemma CountMonotone(x: nat, k: nat)
    requires x <= G * k
    ensures Count(x) <= k
  {
  }

  /** No larger number of whole chunks fits below `x`. */
  lemma LargestWhole(k: nat, x: nat)
    requires Whole(k) && k <= x
    ensures k <= AlignDown(x)
  {
    CountChunks(x);
    CountChunks(k);
    hide Count, AlignDown, Whole;
    assert G * Count(k) < G * (Count(x) + 1);
  }

  lemma WholeArith(x: nat, y: nat)
    requires Whole(x) && Whole(y)
    ensures Whole(x + y) && Count(x + y) == Count(x) + Count(y)
    ensures x <= y ==> Whole(y - x) && Count(y - x) == Count(y) - Count(x)
    ensures x < y <==> Count(x) < Count(y)
    ensures x < y ==> x + G <= y
  {
  }

  /** Rust's `checked_next_multiple_of(G)` on a `u64`. */
  function NextMultiple(x: nat): (r: Option<nat>)
    ensures r.Some? ==> x <= r.value < x + G && Whole(r.value) && r.value <= U64_MAX
  {
    var rem := x % G;
    if rem == 0 then (if x <= U64_MAX then Some(x) else None)
    else if x + (G - rem) <= U64_MAX then Some(x + (G - rem))
    else None
  }

  /** It is the least multiple that is large enough, and it is refused only if none fits 64 bits. */
  lemma NextMultipleIsLeast(x: nat, y: nat)
    requires Whole(y) && x <= y <= U64_MAX
    ensures NextMultiple(x).Some? && x <= NextMultiple(x).value <= y && Whole(NextMultiple(x).value)
  {
    var q := x / G;
    if x % G != 0 {
      assert x == G * q + x % G && y == G * (y / G);
      assert y / G > q;
      assert G * (y / G) >= G * (q + 1);
    }
  }

  /** libephmem's rounding: refuse if adding the mask overflows, else add it and clear the low bits. */
  function MaskRoundUp(x: nat): Option<nat> {
    if x > U64_MAX - (G - 1) then None else Some(AlignDown(x + (G - 1)))
  }

  /** The two roundings agree on every 64-bit amount, also about which amounts to refuse. */
  lemma RoundingsAgree(x: nat)
    requires x <= U64_MAX
    ensures MaskRoundUp(x) == NextMultiple(x)
  {
    var q, r := x / G, x % G;
    assert x == G * q + r;
    if r == 0 {
      assert (x + (G - 1)) / G == q;
    } else {
      assert x + (G - 1) == G * (q + 1) + (r - 1);
      assert (x + (G - 1)) / G == q + 1;
    }
  }

  /** On 64-bit words the mask really subtracts the remainder. */
  lemma MaskSubtractsRemainder(x: bv64)
    ensures x & !(0x1000_0000 - 1) == x - x % 0x1000_0000
  {
  }

  /** Rounding a rounded amount again changes nothing, so each hop may round. */
  lemma RoundingIsIdempotent(x: nat)
    ensures NextMultiple(x).Some? ==> NextMultiple(NextMultiple(x).value) == NextMultiple(x)
  {
  }
}
