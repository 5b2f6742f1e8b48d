/** The tokenizer factory and its cache: a specification is turned into an
    adapter by a case-insensitive dispatch on its type, and adapters are
    kept under a cache key until they are invalidated. */
module Registry {
  import opened Wrappers
  import opened JsonValues
  import opened Text
  import opened Errors
  import opened Environment
  import opened Models
  import opened Adapters
  import RegexTokenizing
  import ByteTokenizing
  import HuggingFace

  /** What `_create_tokenizer` builds, decided before anything is built. */
  datatype Plan =
    | RegexPlan(name: Json, regexSettings: RegexTokenizing.RegexSettings)
    | BytePlan(name: Json)
    | HfPlan(name: Json, hfSettings: HuggingFace.HfSettings)

  /** The `name` option, defaulting to the lowercased type. */
  function AdapterName(spec: TokenizerSpec, host: Host): Json {
    Get(spec.options, "name", JStr(host.lower(spec.typeName)))
  }

  /** `_create_tokenizer`, as a decision: the lowercased type selects the
      adapter, which receives the options without `name`; any other type is
      an UnknownTokenizerError naming the type as written. */
  function PlanFor(spec: TokenizerSpec, host: Host): (r: Result<Plan, Error>)
    ensures var t := host.lower(spec.typeName);
      t != "regex" && t != "byte" && t != "huggingface" && t != "hf" ==> r == Err(UnknownTokenizer(spec.typeName))
    ensures host.lower(spec.typeName) == "regex" ==>
      var c := RegexTokenizing.Configure(spec.options - {"name"}, host);
      && (r.Ok? <==> c.Ok?)
      && (r.Ok? ==> r.value == RegexPlan(AdapterName(spec, host), c.value))
      && (r.Err? ==> r.error == c.error)
    ensures host.lower(spec.typeName) == "byte" ==> r == Ok(BytePlan(AdapterName(spec, host)))
    ensures host.lower(spec.typeName) in {"huggingface", "hf"} ==>
      var c := HuggingFace.Configure(spec.options - {"name"}, host);
      && (r.Ok? <==> c.Ok?)
      && (r.Ok? ==> r.value == HfPlan(AdapterName(spec, host), c.value))
      && (r.Err? ==> r.error == c.error)
  {
    var typeName := host.lower(spec.typeName);
    var name := AdapterName(spec, host);
    var options := spec.options - {"name"};
    if typeName == "regex" then
      var settings :- RegexTokenizing.Configure(options, host);
      Ok(RegexPlan(name, settings))
    else if typeName == "byte" then Ok(BytePlan(name))
    else if typeName == "huggingface" || typeName == "hf" then
      var settings :- HuggingFace.Configure(options, host);
      Ok(HfPlan(name, settings))
    else Err(UnknownTokenizer(spec.typeName))
  }

  /** The adapter is of the plan's kind, with the plan's name and settings. */
  predicate Describes(a: Adapter, plan: Plan) {
    match plan
    case RegexPlan(name, settings) => a.Regex? && a.regex.name == name && a.regex.settings == settings
    case BytePlan(name) => a.Bytes? && a.bytes.name == name
    case HfPlan(name, settings) => a.Hf? && a.hf.name == name && a.hf.settings == settings
  }

  /** The adapter is the one the plan describes, with no backend built yet. */
  predicate Builds(a: Adapter, plan: Plan)
    reads Footprint(a)
  {
    Describes(a, plan) && StoredBackend(a).None?
  }

  /** `_create_tokenizer`: builds a new adapter from the specification. The
      specification's own options are left as they are. */
  method CreateTokenizer(spec: TokenizerSpec, host: Host) returns (r: Result<Adapter, Error>)
    ensures r.Ok? <==> PlanFor(spec, host).Ok?
    ensures r.Ok? ==> fresh(Object(r.value)) && Builds(r.value, PlanFor(spec, host).value)
    ensures r.Err? ==> r.error == PlanFor(spec, host).error
  {
    var typeName := host.lower(spec.typeName);
    var options := spec.options;
    var name := Get(options, "name", JStr(typeName));
    options := options - {"name"};
    if typeName == "regex" {
      var settings :- RegexTokenizing.Configure(options, host);
      var t := new RegexTokenizing.RegexTokenizer(name, settings);
      return Ok(Regex(t));
    }
    if typeName == "byte" {
      var t := new ByteTokenizing.ByteTokenizer(name);
      return Ok(Bytes(t));
    }
    if typeName == "huggingface" || typeName == "hf" {
      var t :- HuggingFace.HuggingFaceTokenizer.Create(name, options, host);
      return Ok(Hf(t));
    }
    return Err(UnknownTokenizer(spec.typeName));
  }

  /** `f"{spec.type}:{hash(frozenset(spec.options.items()))}"`: hashing fails
      when an option value is a list or a mapping. */
  function DefaultKey(spec: TokenizerSpec, host: Host): (r: Result<string, Error>)
    ensures r.Ok? <==> forall k :: k in spec.options ==> Hashable(spec.options[k])
    ensures r.Ok? ==> |r.value| > |spec.typeName| && r.value[..|spec.typeName| + 1] == spec.typeName + ":"
  {
    if forall k :: k in spec.options ==> Hashable(spec.options[k]) then
      Ok(spec.typeName + ":" + IntToString(host.optionsHash(spec.options)))
    else Err(TypeFault("unhashable type"))
  }

  /** `cache_key or <default key>`: a missing or empty key falls back to the
      default one, which is computed only then. */
  function CacheKey(spec: TokenizerSpec, cacheKey: Option<string>, host: Host): (r: Result<string, Error>)
    ensures cacheKey.Some? && cacheKey.value != "" ==> r == Ok(cacheKey.value)
    ensures cacheKey.None? || cacheKey.value == "" ==> r == DefaultKey(spec, host)
  {
    if cacheKey.Some? && cacheKey.value != "" then Ok(cacheKey.value) else DefaultKey(spec, host)
  }

  /** The dispatch lowercases the type but the default key does not: two
      spellings of one type build the same adapter yet are cached apart. */
  lemma CaseVariantsCachedApart(a: TokenizerSpec, b: TokenizerSpec, host: Host)
    requires ':' !in a.typeName && ':' !in b.typeName && a.typeName != b.typeName
    requires host.lower(a.typeName) == host.lower(b.typeName) && a.options == b.options
    requires DefaultKey(a, host).Ok?
    ensures PlanFor(a, host).Ok? <==> PlanFor(b, host).Ok?
    ensures PlanFor(a, host).Ok? ==> PlanFor(a, host) == PlanFor(b, host)
    ensures DefaultKey(b, host).Ok? && CacheKey(a, None, host) != CacheKey(b, None, host)
  {
    DefaultKeysSeparateTypes(a, b, host);
  }

  /** Types without a colon never share a default key. */
  lemma {:induction false} DefaultKeysSeparateTypes(a: TokenizerSpec, b: TokenizerSpec, host: Host)
    requires ':' !in a.typeName && ':' !in b.typeName
    requires DefaultKey(a, host).Ok? && DefaultKey(b, host).Ok?
    requires a.typeName != b.typeName
    ensures DefaultKey(a, host).value != DefaultKey(b, host).value
  {
    var x, y := a.typeName, b.typeName;
    var ka, kb := DefaultKey(a, host).value, DefaultKey(b, host).value;
    ColonAfter(ka, x);
    ColonAfter(kb, y);
  }

  /** In a key that starts with a colon-free type and a colon, the first
      colon ends the type. */
  lemma ColonAfter(key: string, x: string)
    requires ':' !in x && |key| > |x| && key[..|x| + 1] == x + ":"
    ensures key[..|x|] == x && key[|x|] == ':'
    ensures forall k :: 0 <= k < |x| ==> key[k] != ':'
  {
    assert key[..|x|] == (x + ":")[..|x|];
    assert key[|x|] == (x + ":")[|x|];
    forall k | 0 <= k < |x|
      ensures key[k] != ':'
    {
      assert key[k] == x[k];
    }
  }

  /** An UnknownTokenizerError's message names the type as written. */
  lemma UnknownTypeMessage(spec: TokenizerSpec, host: Host)
    requires host.lower(spec.typeName) !in {"regex", "byte", "huggingface", "hf"}
    ensures PlanFor(spec, host).Err?
    ensures var m := Message(PlanFor(spec, host).error);
      |m| >= |spec.typeName| && m[|m| - |spec.typeName|..] == spec.typeName
  {
  }

  /** A Hugging Face specification with a `name` option and only a
      repository id builds an adapter under that name, with every other
      setting at its default; `name` is not passed on as a keyword. */
  lemma NamedHfSpec(host: Host)
    requires host.lower("huggingface") == "huggingface"
    ensures var spec := TokenizerSpec("huggingface", map["name" := JStr("demo"), "repo_id" := JStr("example/model")]);
      var r := PlanFor(spec, host);
      && r.Ok? && r.value.HfPlan? && r.value.name == JStr("demo")
      && r.value.hfSettings.repoId == JStr("example/model")
      && r.value.hfSettings.revision == HuggingFace.DefaultRevision
      && r.value.hfSettings.tokenizerFile == HuggingFace.DefaultTokenizerFile
      && r.value.hfSettings.localTokenizerPath.None?
  {
    var spec := TokenizerSpec("huggingface", map["name" := JStr("demo"), "repo_id" := JStr("example/model")]);
    var options := spec.options - {"name"};
    assert options == map["repo_id" := JStr("example/model")];
    HuggingFace.RepoOnlySettings("example/model", host);
    HuggingFace.StandardVariablesInOrder(host.env);
    var base := HuggingFace.BaseSettings(options, host).value;
    var token := HuggingFace.AuthToken(JNull, JNull, host.env);
    assert HuggingFace.Configure(options, host) == Ok(base.(authToken := token.value));
  }

  class TokenizerRegistry {
    /** `_cache`: adapters by cache key. */
    var cache: map<string, Adapter>

    constructor()
      ensures cache == map[]
    {
      cache := map[];
    }

    /** The objects of the cached adapters that tokenizing may change. */
    function Owned(): set<object>
      reads this
    {
      set k | k in cache && cache[k].Hf? :: cache[k].hf as object
    }

    /** `get_tokenizer`: a cached adapter is returned as it is; otherwise a new
        one is built and stored under the key. A failure stores nothing. */
    method GetTokenizer(spec: TokenizerSpec, cacheKey: Option<string>, host: Host) returns (r: Result<Adapter, Error>)
      modifies this
      ensures var key := CacheKey(spec, cacheKey, host);
        && (key.Err? ==> r == Err(key.error) && cache == old(cache))
        && (key.Ok? && key.value in old(cache) ==> r == Ok(old(cache)[key.value]) && cache == old(cache))
        && (key.Ok? && key.value !in old(cache) ==>
              && (r.Ok? <==> PlanFor(spec, host).Ok?)
              && (r.Ok? ==> fresh(Object(r.value)) && Builds(r.value, PlanFor(spec, host).value)
                            && cache == old(cache)[key.value := r.value])
              && (r.Err? ==> r.error == PlanFor(spec, host).error && cache == old(cache)))
      ensures r.Ok? ==> CacheKey(spec, cacheKey, host).Ok? && cache[CacheKey(spec, cacheKey, host).value] == r.value
    {
      var key :- CacheKey(spec, cacheKey, host);
      if key in cache {
        return Ok(cache[key]);
      }
      var tokenizer :- CreateTokenizer(spec, host);
      cache := cache[key := tokenizer];
      return Ok(tokenizer);
    }

    /** `invalidate`: no key empties the cache; a key is removed if present. */
    method Invalidate(cacheKey: Option<string>)
      modifies this
      ensures cacheKey.None? ==> cache == map[]
      ensures cacheKey.Some? ==> cache == old(cache) - {cacheKey.value}
    {
      if cacheKey.None? {
        cache := map[];
      } else {
        cache := cache - {cacheKey.value};
      }
    }
  }

  /** `get_tokenizer_for_model`: the model's id is the cache key, so a model
      keeps its adapter until the key is invalidated, and a model with an id
      never computes the default key: only building the adapter can fail. */
  method GetTokenizerForModel(model: ModelSpec, registry: TokenizerRegistry, host: Host) returns (r: Result<Adapter, Error>)
    modifies registry
    ensures var key := CacheKey(model.tokenizer, Some(model.modelId), host);
      && (key.Err? ==> r == Err(key.error) && registry.cache == old(registry.cache))
      && (key.Ok? && key.value in old(registry.cache) ==> r == Ok(old(registry.cache)[key.value]) && registry.cache == old(registry.cache))
      && (key.Ok? && key.value !in old(registry.cache) ==>
            && (r.Ok? <==> PlanFor(model.tokenizer, host).Ok?)
            && (r.Ok? ==> fresh(Object(r.value)) && Builds(r.value, PlanFor(model.tokenizer, host).value)
                          && registry.cache == old(registry.cache)[key.value := r.value])
            && (r.Err? ==> r.error == PlanFor(model.tokenizer, host).error && registry.cache == old(registry.cache)))
    ensures model.modelId != "" && r.Ok? ==> model.modelId in registry.cache && registry.cache[model.modelId] == r.value
    ensures model.modelId != "" && r.Err? ==>
      model.modelId !in old(registry.cache) && r.error == PlanFor(model.tokenizer, host).error
  {
    r := registry.GetTokenizer(model.tokenizer, Some(model.modelId), host);
  }
}
