// What one AI completion costs: `estimate_cost_cents` of
// app/providers/ai/openai_provider.py. Prices are exact rationals.
module Metering {
  import opened Wrappers

  const MILLION: int := 1_000_000

  datatype Price = Price(prompt: int, completion: int)

  // USD cents per million tokens.
  const PRICING: map<string, Price> := map[
    "gpt-4o-mini" := Price(15, 60),
    "gpt-4o" := Price(250, 1000),
    "gpt-4.1-mini" := Price(40, 160),
    "gpt-4.1" := Price(200, 800),
    "o4-mini" := Price(110, 440)
  ]
  const DEFAULT_PRICING := Price(50, 150)

  function PriceOf(model: string): Price {
    if model in PRICING then PRICING[model] else DEFAULT_PRICING
  }

  // The exact price of a call, in millionths of a cent.
  function Weight(model: string, promptTokens: int, completionTokens: int): int {
    var price := PriceOf(model);
    promptTokens * price.prompt + completionTokens * price.completion
  }

  // The least integer at or above x / MILLION.
  function CeilMillionth(x: int): int {
    -((-x) / MILLION)
  }

  function EstimateCostCents(model: string, promptTokens: int, completionTokens: int): int {
    var w := Weight(model, promptTokens, completionTokens);
    if w <= 0 then 0 else Max(1, CeilMillionth(w))
  }

  // The bill is the least whole number of cents that covers the exact price:
  // no smaller non-negative number does.
  lemma CostIsExactCeiling(model: string, promptTokens: int, completionTokens: int, cents: nat)
    ensures var cost := EstimateCostCents(model, promptTokens, completionTokens);
            && cost >= 0
            && (cents * MILLION >= Weight(model, promptTokens, completionTokens) <==> cents >= cost)
  {
    var w := Weight(model, promptTokens, completionTokens);
    var cost := EstimateCostCents(model, promptTokens, completionTokens);
    if w > 0 {
      assert (cost - 1) * MILLION < w <= cost * MILLION;
    }
  }

  lemma PricesArePositive(model: string)
    ensures PriceOf(model).prompt > 0 && PriceOf(model).completion > 0
  {
  }

  // A call is free only when it consumed no token at all.
  lemma FreeIffNoTokens(model: string, promptTokens: nat, completionTokens: nat)
    ensures EstimateCostCents(model, promptTokens, completionTokens) == 0 <==> promptTokens == 0 && completionTokens == 0
  {
    PricesArePositive(model);
    NonNegativeProduct(promptTokens, PriceOf(model).prompt);
    NonNegativeProduct(completionTokens, PriceOf(model).completion);
  }

  lemma NonNegativeProduct(a: nat, b: int)
    requires b > 0
    ensures a * b >= 0 && (a * b == 0 <==> a == 0)
  {
  }

  datatype Call = Call(model: string, promptTokens: nat, completionTokens: nat)

  function ExactTotal(calls: seq<Call>): int {
    if calls == [] then 0
    else
      var c := calls[|calls| - 1];
      ExactTotal(calls[..|calls| - 1]) + Weight(c.model, c.promptTokens, c.completionTokens)
  }

  function BilledTotal(calls: seq<Call>): int {
    if calls == [] then 0
    else
      var c := calls[|calls| - 1];
      BilledTotal(calls[..|calls| - 1]) + EstimateCostCents(c.model, c.promptTokens, c.completionTokens)
  }

  // Usage is never under-billed, and n calls are over-billed by less than n cents.
  lemma {:induction false} BilledWithinOneCentPerCall(calls: seq<Call>)
    ensures ExactTotal(calls) <= BilledTotal(calls) * MILLION
    ensures calls != [] ==> BilledTotal(calls) * MILLION < ExactTotal(calls) + |calls| * MILLION
  {
    if calls != [] {
      var c := calls[|calls| - 1];
      BilledWithinOneCentPerCall(calls[..|calls| - 1]);
      var cost := EstimateCostCents(c.model, c.promptTokens, c.completionTokens);
      CostIsExactCeiling(c.model, c.promptTokens, c.completionTokens, cost);
      if cost > 0 {
        CostIsExactCeiling(c.model, c.promptTokens, c.completionTokens, cost - 1);
      }
      NonNegativeProduct(c.promptTokens, PriceOf(c.model).prompt);
      NonNegativeProduct(c.completionTokens, PriceOf(c.model).completion);
    }
  }

  // ------------------------------------------------------------ the price list

  // The price list, in cents per million prompt and completion tokens.
  predicate Costs(model: string, prompt: int, completion: int) {
    match model
    case "gpt-4o-mini" => prompt == 15 && completion == 60
    case "gpt-4o" => prompt == 250 && completion == 1000
    case "gpt-4.1-mini" => prompt == 40 && completion == 160
    case "gpt-4.1" => prompt == 200 && completion == 800
    case "o4-mini" => prompt == 110 && completion == 440
    case _ => prompt == 50 && completion == 150
  }

  // The bill of a call is the least whole number of cents that covers its prompt
  // tokens at the prompt price and its completion tokens at the completion price.
  lemma BillCoversPriceList(model: string, promptTokens: nat, completionTokens: nat, prompt: int, completion: int, cents: nat)
    requires Costs(model, prompt, completion)
    ensures cents >= EstimateCostCents(model, promptTokens, completionTokens)
       <==> cents * 1_000_000 >= promptTokens * prompt + completionTokens * completion
  {
    CostIsExactCeiling(model, promptTokens, completionTokens, cents);
  }

  lemma ListedPrice(model: string, prompt: int, completion: int)
    requires Costs(model, prompt, completion)
    ensures PriceOf(model) == Price(prompt, completion) && prompt > 0 && completion > 0
  {
  }

  lemma Scaled(millions: nat, price: int)
    requires price > 0
    ensures millions * MILLION * price == (millions * price) * MILLION && millions * price >= 0
  {
    assert millions * MILLION * price == MILLION * (millions * price);
  }

  lemma WeightOfOneKind(model: string, tokens: nat)
    ensures Weight(model, tokens, 0) == tokens * PriceOf(model).prompt
    ensures Weight(model, 0, tokens) == tokens * PriceOf(model).completion
  {
  }

  lemma ExactMillions(model: string, promptTokens: nat, completionTokens: nat, cents: nat)
    requires Weight(model, promptTokens, completionTokens) == cents * MILLION
    ensures EstimateCostCents(model, promptTokens, completionTokens) == cents
  {
  }

  // Whole millions of one kind of token cost that many times its list price.
  lemma MillionsAtListPrice(model: string, prompt: int, completion: int, millions: nat)
    requires Costs(model, prompt, completion)
    ensures EstimateCostCents(model, millions * 1_000_000, 0) == millions * prompt
    ensures EstimateCostCents(model, 0, millions * 1_000_000) == millions * completion
  {
    ListedPrice(model, prompt, completion);
    Scaled(millions, prompt);
    Scaled(millions, completion);
    WeightOfOneKind(model, millions * MILLION);
    ExactMillions(model, millions * MILLION, 0, millions * prompt);
    ExactMillions(model, 0, millions * MILLION, millions * completion);
  }
}
