/** `SubtensorEvmBalanceConverter`: 9-decimal Substrate and 18-decimal EVM balances, both carried in 256 bits. */
module BalanceConverter {
  import opened Words

  const U64_MAX: nat := 0xFFFF_FFFF_FFFF_FFFF
  const U256_MAX: nat := 0xFFFF_FFFF_FFFF_FFFF_FFFF_FFFF_FFFF_FFFF_FFFF_FFFF_FFFF_FFFF_FFFF_FFFF_FFFF_FFFF
  const EVM_TO_SUBSTRATE_DECIMALS: nat := 1_000_000_000

  type U256 = n: nat | n <= U256_MAX

  function IntoEvmBalance(value: U256): Option<U256> {
    if value * EVM_TO_SUBSTRATE_DECIMALS <= U256_MAX then Some(value * EVM_TO_SUBSTRATE_DECIMALS) else None
  }

  function IntoSubstrateBalance(value: U256): Option<U256> {
    if value / EVM_TO_SUBSTRATE_DECIMALS <= U64_MAX then Some(value / EVM_TO_SUBSTRATE_DECIMALS) else None
  }

  /** What converts and to what: up to EVM units, whatever fits in 256 bits; down to Substrate units, rounding down,
      whatever then fits in 64. */
  lemma ConvertsExactly(value: U256)
    ensures IntoEvmBalance(value).Some? <==> value * 1_000_000_000 <= U256_MAX
    ensures IntoEvmBalance(value).Some? ==> IntoEvmBalance(value).value == value * 1_000_000_000
    ensures IntoSubstrateBalance(value).Some? <==> value < 0x1_0000_0000_0000_0000 * 1_000_000_000
    ensures IntoSubstrateBalance(value).Some? ==>
              var units := IntoSubstrateBalance(value).value;
              units * 1_000_000_000 <= value < (units + 1) * 1_000_000_000
  {
  }

  /** A Substrate amount survives the round trip exactly when it fits in 64 bits. */
  lemma SubstrateRoundTrip(value: U256)
    ensures IntoEvmBalance(value).Some? && IntoSubstrateBalance(IntoEvmBalance(value).value) == Some(value)
       <==> value <= U64_MAX
  {
  }

  /** An EVM amount that converts comes back as the largest whole Substrate amount not above it. */
  lemma EvmRoundTrip(value: U256)
    requires IntoSubstrateBalance(value).Some?
    ensures var back := IntoEvmBalance(IntoSubstrateBalance(value).value);
            back.Some? && back.value <= value < back.value + EVM_TO_SUBSTRATE_DECIMALS
  {
  }

  function Total(amounts: seq<U256>): nat {
    if |amounts| == 0 then 0 else Total(amounts[..|amounts| - 1]) + amounts[|amounts| - 1]
  }

  predicate AllConvert(amounts: seq<U256>) {
    forall k :: 0 <= k < |amounts| ==> IntoSubstrateBalance(amounts[k]).Some?
  }

  /** The sum of the parts converted one by one. */
  function TotalConverted(amounts: seq<U256>): nat
    requires AllConvert(amounts)
  {
    if |amounts| == 0 then 0
    else TotalConverted(amounts[..|amounts| - 1]) + IntoSubstrateBalance(amounts[|amounts| - 1]).value
  }

  lemma {:induction false} SplitLosesBelow(amounts: seq<U256>)
    requires AllConvert(amounts)
    ensures TotalConverted(amounts) * EVM_TO_SUBSTRATE_DECIMALS <= Total(amounts)
    ensures Total(amounts) <= TotalConverted(amounts) * EVM_TO_SUBSTRATE_DECIMALS
                                + |amounts| * (EVM_TO_SUBSTRATE_DECIMALS - 1)
  {
    if |amounts| > 0 {
      SplitLosesBelow(amounts[..|amounts| - 1]);
    }
  }

  lemma {:induction false} PartsAreBelowTotal(amounts: seq<U256>, k: nat)
    requires k < |amounts|
    ensures amounts[k] <= Total(amounts)
  {
    if k < |amounts| - 1 {
      PartsAreBelowTotal(amounts[..|amounts| - 1], k);
    }
  }

  /** Splitting an amount over k transfers converts every part and loses at most k - 1 units
      against converting it whole. */
  lemma SplittingLosesAtMost(amounts: seq<U256>)
    requires |amounts| >= 1 && Total(amounts) <= U256_MAX && IntoSubstrateBalance(Total(amounts)).Some?
    ensures AllConvert(amounts)
    ensures TotalConverted(amounts) <= IntoSubstrateBalance(Total(amounts)).value
                                    <= TotalConverted(amounts) + |amounts| - 1
  {
    forall k | 0 <= k < |amounts| ensures IntoSubstrateBalance(amounts[k]).Some? {
      PartsAreBelowTotal(amounts, k);
    }
    SplitLosesBelow(amounts);
    var total, parts, n := Total(amounts), TotalConverted(amounts), |amounts|;
    assert total < (parts + n) * EVM_TO_SUBSTRATE_DECIMALS;
  }
}
