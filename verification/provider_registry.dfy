/**
  Model identifiers of the form "provider:model" (src/provider_registry.py).
  A bare model name belongs to the default provider "openai".
 */
module ProviderRegistry {
  import opened Text

  const DefaultProvider := "openai"

  /** A model of a provider; `Id` is its "provider:model" identifier. */
  datatype ProviderModel = ProviderModel(provider: string, model: string) {
    function Id(): string { provider + ":" + model }
  }

  /** `format_model_id`. */
  function FormatModelId(provider: string, model: string): string {
    provider + ":" + model
  }

  /**
    `parse_model_id`: with a ":" in `raw`, the provider is the text before the
    first ":" and the model all the text after it; otherwise the model is
    `raw` and the provider the default one.
   */
  function ParseModelId(raw: string): (r: ProviderModel)
    ensures Contains(raw, ":") ==> r.provider + ":" + r.model == raw && !Contains(r.provider, ":")
    ensures !Contains(raw, ":") ==> r == ProviderModel(DefaultProvider, raw)
  {
    if Contains(raw, ":") then
      var parts := Split1(raw, ":");
      ProviderModel(parts[0], parts[1])
    else ProviderModel(DefaultProvider, raw)
  }

  /** The identifier of a model is its formatted identifier. */
  lemma IdIsFormat(pm: ProviderModel)
    ensures pm.Id() == FormatModelId(pm.provider, pm.model)
    ensures StartsWith(pm.Id(), pm.provider) && EndsWith(pm.Id(), pm.model)
  {
    var id := pm.Id();
    assert id[..|pm.provider|] == pm.provider;
    assert id[|id| - |pm.model|..] == pm.model;
  }

  /** Parsing then taking the identifier gives back the input, with "openai:" in front when it names no provider. */
  lemma ParseThenId(raw: string)
    ensures ParseModelId(raw).Id() == if Contains(raw, ":") then raw else DefaultProvider + ":" + raw
  {
  }

  /** Formatting then parsing gives back the provider and the model, for a provider without ":" (the model may hold ":"). */
  lemma FormatThenParse(provider: string, model: string)
    requires !Contains(provider, ":")
    ensures ParseModelId(FormatModelId(provider, model)) == ProviderModel(provider, model)
  {
    var raw := FormatModelId(provider, model);
    ContainsChar(provider, ':');
    FirstCharAt(provider, ':', model);
    assert raw[..|provider|] == provider;
    assert raw[|provider| + 1..] == model;
  }
}
