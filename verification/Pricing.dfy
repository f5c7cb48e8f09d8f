/** Token pricing, and when the reservation covers the final cost. */
module Pricing {
  import opened Common
  import opened BillingBooks
  import opened BillingInvariant
  import opened BillingCharges

  datatype Rates = Rates(input: real, output: real, cached: real)
  datatype Tokens = Tokens(input: int, output: int, cached: int)

  function ComputeCost(rates: Rates, tokens: Tokens): real {
    var billable := if tokens.input - tokens.cached < 0 then 0 else tokens.input - tokens.cached;
    billable as real * rates.input + tokens.cached as real * rates.cached + tokens.output as real * rates.output
  }

  function MaxEstimatedCost(rates: Rates, estimatedInput: int, maxOutput: int): real {
    estimatedInput as real * rates.input + maxOutput as real * rates.output
  }

  /** Price lists on which a cached token costs no more than an uncached one. */
  predicate Discounting(rates: Rates) {
    0.0 <= rates.cached <= rates.input && 0.0 <= rates.output
  }

  predicate Counted(tokens: Tokens) {
    tokens.input >= 0 && tokens.output >= 0 && tokens.cached >= 0
  }

  /** All prompt tokens that can be billed: caches may report more than the input. */
  function Prompt(tokens: Tokens): int {
    if tokens.cached > tokens.input then tokens.cached else tokens.input
  }

  lemma Scaled(x: real, y: real, rate: real)
    requires x <= y && rate >= 0.0
    ensures x * rate <= y * rate
  {
  }

  /** Charging part of a prompt at a lower rate never costs more. */
  lemma Discounted(full: real, cached: real, prompt: real, rate: real, cachedRate: real)
    requires 0.0 <= full && 0.0 <= cached && full + cached <= prompt && 0.0 <= cachedRate <= rate
    ensures 0.0 <= full * rate + cached * cachedRate <= prompt * rate
  {
    Scaled(0.0, full, rate);
    Scaled(0.0, cached, cachedRate);
    Scaled(cachedRate, rate, cached);
    Scaled(full + cached, prompt, rate);
  }

  lemma CostWithinEstimate(rates: Rates, tokens: Tokens, estimatedInput: int, maxOutput: int)
    requires Discounting(rates) && Counted(tokens)
    requires Prompt(tokens) <= estimatedInput && tokens.output <= maxOutput
    ensures 0.0 <= ComputeCost(rates, tokens) <= MaxEstimatedCost(rates, estimatedInput, maxOutput)
  {
    var billable := if tokens.input - tokens.cached < 0 then 0 else tokens.input - tokens.cached;
    Discounted(billable as real, tokens.cached as real, estimatedInput as real, rates.input, rates.cached);
    Scaled(0.0, tokens.output as real, rates.output);
    Scaled(tokens.output as real, maxOutput as real, rates.output);
  }

  /** An estimate is a price per input token and a price per output token. */
  lemma EstimateIsLinear(rates: Rates, i: int, o: int, j: int, q: int)
    ensures MaxEstimatedCost(rates, i + j, o + q) == MaxEstimatedCost(rates, i, o) + MaxEstimatedCost(rates, j, q)
    ensures MaxEstimatedCost(rates, 1, 0) == rates.input && MaxEstimatedCost(rates, 0, 1) == rates.output
  {
    assert (i + j) as real * rates.input == i as real * rates.input + j as real * rates.input;
    assert (o + q) as real * rates.output == o as real * rates.output + q as real * rates.output;
  }

  /** What caching saves: without cached tokens the cost is the estimate for the
      tokens used, and every cached token is billed at its own rate instead; cached
      tokens beyond the input are billed on top. */
  lemma CachingSaves(rates: Rates, tokens: Tokens)
    requires Counted(tokens)
    ensures var full := MaxEstimatedCost(rates, tokens.input, tokens.output);
      && (tokens.cached <= tokens.input ==> ComputeCost(rates, tokens) == full - tokens.cached as real * (rates.input - rates.cached))
      && (tokens.cached > tokens.input ==>
            ComputeCost(rates, tokens) == full - tokens.input as real * rates.input + tokens.cached as real * rates.cached)
  {
    var i, c := tokens.input as real, tokens.cached as real;
    assert c * (rates.input - rates.cached) == c * rates.input - c * rates.cached;
    if tokens.cached <= tokens.input {
      assert (tokens.input - tokens.cached) as real == i - c;
      assert (i - c) * rates.input == i * rates.input - c * rates.input;
    }
  }

  /** The reservation covers the cost on every discounting price list exactly
      when the prompt and the output stay within what was reserved for. */
  lemma ReservationCoversIff(tokens: Tokens, estimatedInput: int, maxOutput: int)
    requires Counted(tokens)
    ensures (forall rates :: Discounting(rates) ==>
               ComputeCost(rates, tokens) <= MaxEstimatedCost(rates, estimatedInput, maxOutput))
        <==> (Prompt(tokens) <= estimatedInput && tokens.output <= maxOutput)
  {
    if Prompt(tokens) <= estimatedInput && tokens.output <= maxOutput {
      forall rates | Discounting(rates)
        ensures ComputeCost(rates, tokens) <= MaxEstimatedCost(rates, estimatedInput, maxOutput)
      {
        CostWithinEstimate(rates, tokens, estimatedInput, maxOutput);
      }
    } else {
      var promptOnly, outputOnly := Rates(1.0, 0.0, 1.0), Rates(0.0, 1.0, 0.0);
      assert ComputeCost(promptOnly, tokens) == Prompt(tokens) as real;
      assert ComputeCost(outputOnly, tokens) == tokens.output as real;
      assert Discounting(promptOnly) && Discounting(outputOnly);
    }
  }

  /** A request reserved at its worst case and staying within it is charged its
      computed cost exactly: the settlement cap never fires. */
  lemma CapNeverFires(
      b: Books, input: SettleInput, policy: RecoveryPolicy, opening: map<AccountId, real>,
      rates: Rates, tokens: Tokens, estimatedInput: int, maxOutput: int)
    requires Sound(b, opening) && IsActive(b, input.auth) && Matches(b, input) && input.kind == Prepaid
    requires input.usage in b.usages && !AlreadyCharged(b, Prepaid, input.usage)
    requires Discounting(rates) && Counted(tokens)
    requires Prompt(tokens) <= estimatedInput && tokens.output <= maxOutput
    requires b.auths[input.auth].estimate == MaxEstimatedCost(rates, estimatedInput, maxOutput)
    requires input.cost == ComputeCost(rates, tokens)
    ensures var (b', outcome) := Settle(b, input, policy, false);
      && outcome == Ok(())
      && Sum(b'.walletLedger, PostedFor(Debit, input.auth)) == ComputeCost(rates, tokens)
      && b'.wallets[input.account].balance == b.wallets[input.account].balance - ComputeCost(rates, tokens)
  {
    CostWithinEstimate(rates, tokens, estimatedInput, maxOutput);
    hide ComputeCost, MaxEstimatedCost, Sum;
    SettlementCommitsIff(b, input, policy, opening);
  }
}
