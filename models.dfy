/** The configuration value types (frozen dataclasses) and their `to_dict`
    serialisers. */
module Models {
  import opened Wrappers
  import opened JsonValues

  /** Prices per 1000 tokens. The fields hold whatever JSON the registry gave. */
  datatype Pricing = Pricing(currency: Json, inputPer1k: Json, outputPer1k: Json)

  /** `Pricing()` with every field defaulted. */
  const DefaultPricing := Pricing(JStr("USD"), JNull, JNull)

  const PricingKeys: set<string> := {"currency", "input_per_1k", "output_per_1k"}

  /** `Pricing.to_dict`: exactly the three fields, under their own names. */
  function PricingToDict(p: Pricing): (d: map<string, Json>)
    ensures d.Keys == PricingKeys
    ensures d["currency"] == p.currency
    ensures d["input_per_1k"] == p.inputPer1k && d["output_per_1k"] == p.outputPer1k
  {
    map["currency" := p.currency, "input_per_1k" := p.inputPer1k, "output_per_1k" := p.outputPer1k]
  }

  /** Which tokenizer to build, and the keyword options to build it with. */
  datatype TokenizerSpec = TokenizerSpec(typeName: string, options: map<string, Json>)

  /** `TokenizerSpec.to_dict`: the type and a copy of the options. */
  function TokenizerSpecToDict(t: TokenizerSpec): (d: map<string, Json>)
    ensures d.Keys == {"type", "options"}
    ensures d["type"] == JStr(t.typeName) && d["options"] == JObj(t.options)
  {
    map["type" := JStr(t.typeName), "options" := JObj(t.options)]
  }

  datatype ModelSpec = ModelSpec(
    modelId: string,
    displayName: Json,
    family: Json,
    provider: Json,
    maxContext: int,
    tokenizer: TokenizerSpec,
    description: Json,          // JNull when absent
    pricing: Option<Pricing>)

  const ModelKeys: set<string> := {"id", "display_name", "family", "provider", "max_context", "tokenizer"}

  /** `ModelSpec.to_dict`: the six fields always, `description` only when it
      is truthy, `pricing` only when there is one. */
  function ModelToDict(m: ModelSpec): (d: map<string, Json>)
    ensures ModelKeys <= d.Keys <= ModelKeys + {"description", "pricing"}
    ensures "description" in d <==> Truthy(m.description)
    ensures "pricing" in d <==> m.pricing.Some?
    ensures d["id"] == JStr(m.modelId) && d["display_name"] == m.displayName
    ensures d["family"] == m.family && d["provider"] == m.provider
    ensures d["max_context"] == JNum(m.maxContext as real)
    ensures d["tokenizer"] == JObj(TokenizerSpecToDict(m.tokenizer))
    ensures "description" in d ==> d["description"] == m.description
    ensures "pricing" in d ==> d["pricing"] == JObj(PricingToDict(m.pricing.value))
  {
    var base := map[
      "id" := JStr(m.modelId),
      "display_name" := m.displayName,
      "family" := m.family,
      "provider" := m.provider,
      "max_context" := JNum(m.maxContext as real),
      "tokenizer" := JObj(TokenizerSpecToDict(m.tokenizer))];
    var withDescription := if Truthy(m.description) then base["description" := m.description] else base;
    if m.pricing.Some? then withDescription["pricing" := JObj(PricingToDict(m.pricing.value))]
    else withDescription
  }
}
