/**
 * The static price list of the gate: one entry per model key, prices in
 * micro-units of the asset. The informational USD equivalent of each entry is
 * a floating-point figure and is not part of this model.
 */
module Pricing {
  import opened Wrappers

  datatype PricingEntry = PricingEntry(basePrice: nat, maxTokens: nat, description: string)

  const PricingModel: map<string, PricingEntry> := map[
    "gpt4" := PricingEntry(100000, 2000, "GPT-4 Turbo - Most capable model"),
    "claude" := PricingEntry(120000, 2000, "Claude 3 Opus - Advanced reasoning"),
    "gpt-3.5" := PricingEntry(20000, 1500, "GPT-3.5 Turbo - Fast and efficient"),
    "gemini" := PricingEntry(50000, 2000, "Gemini Pro - Google AI")
  ]

  /** The entry for `model`, or the error the lookup throws for any other key. */
  function GetPrice(model: string): (r: Result<PricingEntry, string>)
    ensures r.Success? <==> model in {"gpt4", "claude", "gpt-3.5", "gemini"}
    ensures r.Success? ==> r.value.basePrice > 0
    ensures r.Failure? ==> r.error == "Unknown model: " + model
  {
    if model in PricingModel then Success(PricingModel[model])
    else Failure("Unknown model: " + model)
  }

  /** The whole table, as served to clients that list the models. */
  function GetAllPricing(): (r: map<string, PricingEntry>)
    ensures r.Keys == {"gpt4", "claude", "gpt-3.5", "gemini"}
    ensures forall model :: model in r ==> GetPrice(model) == Success(r[model])
    ensures forall model :: model !in r ==> GetPrice(model).Failure?
  {
    PricingModel
  }

  /** The price of each of the four models. */
  lemma PriceList()
    ensures GetPrice("gpt4").Success? && GetPrice("gpt4").value.basePrice == 100000
    ensures GetPrice("claude").Success? && GetPrice("claude").value.basePrice == 120000
    ensures GetPrice("gpt-3.5").Success? && GetPrice("gpt-3.5").value.basePrice == 20000
    ensures GetPrice("gemini").Success? && GetPrice("gemini").value.basePrice == 50000
  {
  }
}
