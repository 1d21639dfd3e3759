/** Memory reservations: 64-bit totals, the KV product, and the slots a model is charged for. */
module MemoryEstimates {
  import opened Common
  import opened MapSums

  const U64_MAX: nat := 0xFFFF_FFFF_FFFF_FFFF
  const INT_MAX: nat := 0x7FFF_FFFF

  type U64 = n: int | 0 <= n <= U64_MAX

  datatype MemoryEstimate = MemoryEstimate(weightsBytes: U64, contextBytes: U64, overheadBytes: U64) {

    /** The sum, before any question of width. */
    function Sum(): nat { weightsBytes + contextBytes + overheadBytes }

    /** The guarded 64-bit sum: it fails exactly when the true sum does not fit. */
    function TotalBytes(): (r: Result<U64>)
      ensures r == if Sum() <= U64_MAX then Ok(Sum()) else Err(ResourceLimit)
    {
      if contextBytes > U64_MAX - weightsBytes || overheadBytes > U64_MAX - weightsBytes - contextBytes
      then Err(ResourceLimit)
      else Ok(weightsBytes + contextBytes + overheadBytes)
    }
  }

  // ---- The KV reservation --------------------------------------------------------------------

  function Product(factors: seq<nat>): nat {
    if factors == [] then 1 else Product(factors[..|factors| - 1]) * factors[|factors| - 1]
  }

  lemma {:induction false} ProductGrows(factors: seq<nat>, k: nat)
    requires k <= |factors| && forall i :: 0 <= i < |factors| ==> factors[i] >= 1
    ensures Product(factors[..k]) <= Product(factors)
    decreases |factors|
  {
    if k < |factors| {
      var init := factors[..|factors| - 1];
      assert init[..k] == factors[..k];
      ProductGrows(init, k);
      MulMonotone(1, factors[|factors| - 1], Product(init));
    } else {
      assert factors[..k] == factors;
    }
  }

  lemma OverflowTest(bytes: nat, factor: nat)
    requires 1 <= bytes
    ensures factor > U64_MAX / bytes <==> bytes * factor > U64_MAX
  {
    if factor <= U64_MAX / bytes {
      MulMonotone(factor, U64_MAX / bytes, bytes);
    } else if factor * bytes <= U64_MAX {
      QuotientBound(factor, bytes, U64_MAX);
    }
  }

  const MAX_DIMENSION: nat := 1048576

  /** f16 keys and values of every layer, head and token of every context. */
  function KvBytes(layers: U64, heads: U64, key: U64, value: U64, tokens: nat, slots: nat): nat {
    Product([2, layers, heads, key + value, tokens, slots])
  }

  method KvReservation(layers: U64, heads: U64, key: U64, value: U64, tokens: int, contextSlots: int)
    returns (r: Result<U64>)
    ensures tokens < 1 || contextSlots < 1 ==> r == Err(InvalidArgument)
    ensures 1 <= tokens && 1 <= contextSlots && (layers == 0 || heads == 0 || key == 0 || value == 0) ==> r == Ok(0)
    ensures 1 <= tokens && 1 <= contextSlots && layers != 0 && heads != 0 && key != 0 && value != 0 ==>
              var bytes := KvBytes(layers, heads, key, value, tokens, contextSlots);
              r == if key > MAX_DIMENSION || value > MAX_DIMENSION
                || bytes > U64_MAX then Err(ResourceLimit) else Ok(bytes)
  {
    if tokens < 1 || contextSlots < 1 {
      return Err(InvalidArgument);
    }
    if layers == 0 || heads == 0 || key == 0 || value == 0 {
      return Ok(0);
    }
    var bytes := 2;
    if key > MAX_DIMENSION || value > MAX_DIMENSION {
      return Err(ResourceLimit);
    }
    var factors: seq<nat> := [layers, heads, key + value, tokens, contextSlots];
    ghost var all := [2] + factors;
    assert all == [2, layers, heads, key + value, tokens, contextSlots];
    assert all[..1] == [2] && Product([2]) == Product([]) * 2;
    for k := 0 to |factors|
      invariant 1 <= bytes <= U64_MAX && bytes == Product(all[..k + 1])
    {
      OverflowTest(bytes, factors[k]);
      assert all[..k + 2][..k + 1] == all[..k + 1];
      if factors[k] > U64_MAX / bytes {
        ProductGrows(all, k + 2);
        return Err(ResourceLimit);
      }
      MulMonotone(1, factors[k], bytes);
      bytes := bytes * factors[k];
    }
    assert all[..|factors| + 1] == all;
    return Ok(bytes);
  }

  /** The reservation is linear in the number of contexts. */
  lemma KvIsLinearInSlots(layers: U64, heads: U64, key: U64, value: U64, tokens: nat, slots: nat)
    ensures KvBytes(layers, heads, key, value, tokens, slots) == slots * KvBytes(layers, heads, key, value, tokens, 1)
  {
    var head: seq<nat> := [2, layers, heads, key + value, tokens];
    forall n: nat ensures Product(head + [n]) == Product(head) * n {
      assert (head + [n])[..|head|] == head;
    }
    assert head + [slots] == [2, layers, heads, key + value, tokens, slots];
    assert head + [1] == [2, layers, heads, key + value, tokens, 1];
  }

  // ---- Slots and the estimate for unknown architectures ---------------------------------------

  lemma SlotsAreMost(maxContexts: nat, maxTokens: nat, context: nat)
    requires 1 <= context
    ensures forall n: nat :: n <= maxContexts && n * context <= maxTokens ==> n <= Min(maxContexts, maxTokens / context)
  {
    forall n: nat | n <= maxContexts && n * context <= maxTokens ensures n <= maxTokens / context {
      QuotientBound(n, context, maxTokens);
    }
  }

  /** How many contexts of this size the cache limits allow: what a model is charged for. */
  function Slots(maxContexts: nat, maxTokens: nat, context: nat): (slots: nat)
    requires 1 <= context
    ensures slots <= maxContexts && context * slots <= maxTokens
    ensures forall n: nat :: n <= maxContexts && n * context <= maxTokens ==> n <= slots
  {
    MulMonotone(Min(maxContexts, maxTokens / context), maxTokens / context, context);
    SlotsAreMost(maxContexts, maxTokens, context);
    Min(maxContexts, maxTokens / context)
  }

  const UNKNOWN_TOKEN_BYTES: nat := 256 * 1024
  const MIN_OVERHEAD: nat := 256 * 1024 * 1024

  /** The default estimate of a runtime, in unsigned 64-bit arithmetic that wraps. */
  function DefaultEstimate(weights: U64, contextTokens: nat, contextSlots: nat): MemoryEstimate {
    MemoryEstimate(weights, contextTokens * contextSlots * UNKNOWN_TOKEN_BYTES % (U64_MAX + 1),
                   if weights / 4 > MIN_OVERHEAD then weights / 4 else MIN_OVERHEAD)
  }

  /** For the slots actually charged, the wrapping product is exact: one context's bytes per slot. */
  lemma DefaultEstimateIsExact(weights: U64, context: nat, maxContexts: nat, maxTokens: nat)
    requires 1 <= context && maxTokens <= INT_MAX
    ensures var slots := Slots(maxContexts, maxTokens, context);
            DefaultEstimate(weights, context, slots).contextBytes == slots * (context * UNKNOWN_TOKEN_BYTES)
  {
    var slots := Slots(maxContexts, maxTokens, context);
    var cells := context * slots;
    assert cells * UNKNOWN_TOKEN_BYTES <= INT_MAX * UNKNOWN_TOKEN_BYTES;
    Rearrange(context, slots, UNKNOWN_TOKEN_BYTES);
    SmallModulo(cells * UNKNOWN_TOKEN_BYTES, U64_MAX + 1);
  }

  lemma Rearrange(a: nat, b: nat, c: nat)
    ensures a * b * c == b * (a * c)
  {
  }

  lemma SmallModulo(n: nat, m: nat)
    requires n < m
    ensures n % m == n
  {
  }
}
