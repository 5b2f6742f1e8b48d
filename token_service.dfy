/** The service behind the command line and the HTTP handlers: the model
    table, model lookup, and the token report with usage ratio, overflow
    and estimated cost. */
module TokenServices {
  import opened Wrappers
  import opened JsonValues
  import opened Errors
  import opened Environment
  import opened Models
  import opened Adapters
  import opened Registry
  import HuggingFace

  /** The ids the specifications carry. */
  function IdSet(specs: seq<ModelSpec>): set<string>
    decreases |specs|
  {
    if specs == [] then {} else IdSet(specs[..|specs| - 1]) + {specs[|specs| - 1].modelId}
  }

  /** An id is in the set iff some specification carries it. */
  lemma {:induction false} IdSetMembers(specs: seq<ModelSpec>)
    ensures forall id :: id in IdSet(specs) <==> exists k :: 0 <= k < |specs| && specs[k].modelId == id
    decreases |specs|
  {
    if specs != [] {
      var p := specs[..|specs| - 1];
      IdSetMembers(p);
      assert forall k :: 0 <= k < |p| ==> p[k] == specs[k];
    }
  }

  /** `{model.model_id: model for model in models}`: the table by id, the
      later of two specifications with one id winning. */
  function Table(specs: seq<ModelSpec>): (t: map<string, ModelSpec>)
    ensures t.Keys == IdSet(specs)
    ensures forall id :: id in t ==> t[id].modelId == id
    decreases |specs|
  {
    if specs == [] then map[]
    else
      var n := |specs|;
      Table(specs[..n - 1])[specs[n - 1].modelId := specs[n - 1]]
  }

  /** The ids of the table in Python's dict order: each id where it first occurs. */
  function IdsInOrder(specs: seq<ModelSpec>): (ids: seq<string>)
    ensures forall id :: id in ids <==> id in IdSet(specs)
    decreases |specs|
  {
    if specs == [] then []
    else
      var n := |specs|;
      var ids := IdsInOrder(specs[..n - 1]);
      if specs[n - 1].modelId in ids then ids else ids + [specs[n - 1].modelId]
  }

  predicate Distinct(ids: seq<string>) {
    forall i, j :: 0 <= i < j < |ids| ==> ids[i] != ids[j]
  }

  /** No id is listed twice. */
  lemma {:induction false} IdsDistinct(specs: seq<ModelSpec>)
    ensures Distinct(IdsInOrder(specs))
    decreases |specs|
  {
    if specs != [] {
      var p := specs[..|specs| - 1];
      IdsDistinct(p);
      var ids, x := IdsInOrder(p), specs[|specs| - 1].modelId;
      assert IdsInOrder(specs) == if x in ids then ids else ids + [x];
      if x !in ids {
        var r := ids + [x];
        forall i, j | 0 <= i < j < |r|
          ensures r[i] != r[j]
        {
          assert r[i] == ids[i];
          if j == |ids| {
            assert r[j] == x && ids[i] in ids;
          } else {
            assert r[j] == ids[j];
          }
        }
      }
    }
  }

  /** Every specification's id is listed. */
  lemma IdListed(specs: seq<ModelSpec>, k: nat)
    requires k < |specs|
    ensures specs[k].modelId in IdsInOrder(specs)
  {
    IdSetMembers(specs);
  }

  /** An id no specification carries is not listed. */
  lemma IdUnlisted(specs: seq<ModelSpec>, id: string)
    requires forall k :: 0 <= k < |specs| ==> specs[k].modelId != id
    ensures id !in IdsInOrder(specs)
  {
    IdSetMembers(specs);
  }

  /** A specification that no later one overrides is the one the table keeps. */
  lemma {:induction false} LaterSpecWins(specs: seq<ModelSpec>, k: nat)
    requires k < |specs|
    requires forall j :: k < j < |specs| ==> specs[j].modelId != specs[k].modelId
    ensures specs[k].modelId in Table(specs) && Table(specs)[specs[k].modelId] == specs[k]
    decreases |specs|
  {
    var n := |specs|;
    if k < n - 1 {
      var p := specs[..n - 1];
      assert p[k] == specs[k];
      assert forall j :: k < j < |p| ==> p[j] == specs[j];
      LaterSpecWins(p, k);
    }
  }

  /** The ids of a prefix of the specifications come first, in the same order. */
  lemma {:induction false} IdsPrefix(specs: seq<ModelSpec>, m: nat)
    requires m <= |specs|
    ensures IdsInOrder(specs[..m]) <= IdsInOrder(specs)
    decreases |specs|
  {
    var n := |specs|;
    if m < n {
      var p := specs[..n - 1];
      assert p[..m] == specs[..m];
      IdsPrefix(p, m);
      assert IdsInOrder(p) <= IdsInOrder(specs);
    } else {
      assert specs[..m] == specs;
    }
  }

  /** Does the id of `specs[i]` occur first at `i`? */
  predicate FirstOccurrence(specs: seq<ModelSpec>, i: nat)
    requires i < |specs|
  {
    forall k :: 0 <= k < i ==> specs[k].modelId != specs[i].modelId
  }

  /** An id keeps the position of its first occurrence: ids that first occur
      earlier come earlier, whatever specifications follow. */
  lemma FirstInsertionOrder(specs: seq<ModelSpec>, i: nat, j: nat)
    requires i < j < |specs|
    requires FirstOccurrence(specs, i) && FirstOccurrence(specs, j)
    ensures var ids := IdsInOrder(specs);
      exists p, q :: 0 <= p < q < |ids| && ids[p] == specs[i].modelId && ids[q] == specs[j].modelId
  {
    var ids := IdsInOrder(specs);
    var head := specs[..j];
    var before := IdsInOrder(head);
    assert forall k :: 0 <= k < j ==> head[k] == specs[k];
    IdListed(head, i);
    var p :| 0 <= p < |before| && before[p] == specs[i].modelId;
    IdUnlisted(head, specs[j].modelId);
    assert specs[..j + 1][..j] == head;
    assert IdsInOrder(specs[..j + 1]) == before + [specs[j].modelId];
    IdsPrefix(specs, j + 1);
    assert ids[p] == before[p] && ids[|before|] == specs[j].modelId;
  }

  /** `token_count / max_context if max_context else None`, on exact reals. */
  function UsageRatio(count: nat, maxContext: int): (r: Option<real>)
    ensures r.None? <==> maxContext == 0
    ensures r.Some? ==> r.value * (maxContext as real) == count as real
  {
    if maxContext == 0 then None else Some(count as real / maxContext as real)
  }

  /** `max(token_count - max_context, 0) if max_context else 0`. */
  function Overflow(count: nat, maxContext: int): (o: nat)
    ensures maxContext == 0 ==> o == 0
    ensures maxContext != 0 ==> (o == 0 <==> count <= maxContext)
    ensures maxContext != 0 && o > 0 ==> count == maxContext + o
  {
    if maxContext == 0 then 0
    else if count - maxContext > 0 then count - maxContext else 0
  }

  /** With a positive window, the text overflows exactly when the ratio
      exceeds one. */
  lemma OverflowIffRatioAboveOne(count: nat, maxContext: int)
    requires maxContext > 0
    ensures Overflow(count, maxContext) > 0 <==> UsageRatio(count, maxContext).value > 1.0
  {
    var r := UsageRatio(count, maxContext).value;
    var m := maxContext as real;
    if r > 1.0 {
      assert r * m > 1.0 * m;
    } else {
      assert r * m <= 1.0 * m;
    }
  }

  /** A 1200-token text in a 1024-token window. */
  lemma OverflowExample()
    ensures Overflow(1200, 1024) == 176 && UsageRatio(1200, 1024) == Some(1.171875)
    ensures Overflow(1000, 1024) == 0 && Overflow(1000, 0) == 0 && UsageRatio(1000, 0) == None
  {
  }

  const Million: real := 1000000.0

  /** `round(x, 6)`, rounding half to even, on exact reals. */
  function Round6(x: real): (r: real)
    ensures (r * Million).Floor as real == r * Million
    ensures -0.0000005 <= r - x <= 0.0000005
  {
    var y := x * Million;
    var f := y.Floor;
    var d := y - f as real;
    var n := if d < 0.5 then f else if d > 0.5 then f + 1 else if f % 2 == 0 then f else f + 1;
    n as real / Million
  }

  /** A value with at most six decimals is unchanged by rounding. */
  lemma Round6Exact(x: real)
    requires (x * Million).Floor as real == x * Million
    ensures Round6(x) == x
  {
  }

  /** Rounding keeps non-negative values non-negative. */
  lemma Round6NonNegative(x: real)
    requires x >= 0.0
    ensures Round6(x) >= 0.0
  {
    assert (x * Million).Floor >= 0;
  }

  /** The number `input_per_1k` stands for in `(token_count / 1000) * price`:
      booleans count as 0 and 1; other values cannot be multiplied. */
  function PriceValue(j: Json): (r: Result<real, Error>)
    ensures j.JNum? ==> r == Ok(j.n)
    ensures j.JBool? ==> r == Ok(if j.b then 1.0 else 0.0)
    ensures !j.JNum? && !j.JBool? ==> r.Err? && r.error.TypeFault?
  {
    match j
    case JNum(n) => Ok(n)
    case JBool(b) => Ok(if b then 1.0 else 0.0)
    case _ => Err(TypeFault("unsupported operand type(s) for *"))
  }

  /** The cost of `count` tokens at `price` per thousand, rounded. */
  function EstimatedCost(count: nat, price: real): real {
    Round6(count as real / 1000.0 * price)
  }

  /** A thousand tokens cost exactly the price per thousand, when that price
      has at most six decimals. */
  lemma CostOfThousand(price: real)
    requires (price * Million).Floor as real == price * Million
    ensures EstimatedCost(1000, price) == price
  {
    assert 1000 as real / 1000.0 * price == price;
    Round6Exact(price);
  }

  /** The cost example: a thousand tokens at 0.002 per thousand. */
  lemma CostExample()
    ensures EstimatedCost(1000, 0.002) == 0.002
  {
    assert 0.002 * Million == 2000.0;
    assert (2000.0).Floor == 2000;
    CostOfThousand(0.002);
  }

  const CostKey := "estimated_input_cost"

  /** The `pricing` entry of the report: the pricing's fields, and the
      estimated cost only when `input_per_1k` is truthy. */
  function PricingInfo(pricing: Option<Pricing>, count: nat): (r: Result<Option<map<string, Json>>, Error>)
    ensures pricing.None? ==> r == Ok(None)
    ensures pricing.Some? && !Truthy(pricing.value.inputPer1k) ==> r == Ok(Some(PricingToDict(pricing.value)))
    ensures pricing.Some? && Truthy(pricing.value.inputPer1k) ==>
      && (r.Ok? <==> PriceValue(pricing.value.inputPer1k).Ok?)
      && (r.Ok? ==> r.value == Some(PricingToDict(pricing.value)[CostKey :=
                                 JNum(EstimatedCost(count, PriceValue(pricing.value.inputPer1k).value))]))
    ensures r.Ok? && r.value.Some? ==> PricingKeys <= r.value.value.Keys <= PricingKeys + {CostKey}
  {
    match pricing
    case None => Ok(None)
    case Some(p) =>
      var info := PricingToDict(p);
      if !Truthy(p.inputPer1k) then Ok(Some(info))
      else
        var price :- PriceValue(p.inputPer1k);
        Ok(Some(info[CostKey := JNum(EstimatedCost(count, price))]))
  }

  /** A zero price, like a missing one, adds no cost. */
  lemma ZeroPriceNoCost(p: Pricing, count: nat)
    requires p.inputPer1k == JNum(0.0) || p.inputPer1k == JNull
    ensures PricingInfo(Some(p), count) == Ok(Some(PricingToDict(p)))
    ensures CostKey !in PricingInfo(Some(p), count).value.value
  {
  }

  /** A non-negative numeric price gives a non-negative cost. */
  lemma CostNonNegative(p: Pricing, count: nat)
    requires p.inputPer1k.JNum? && p.inputPer1k.n > 0.0
    ensures PricingInfo(Some(p), count).Ok?
    ensures var info := PricingInfo(Some(p), count).value.value;
      CostKey in info && info[CostKey].JNum? && info[CostKey].n >= 0.0
  {
    Round6NonNegative(count as real / 1000.0 * p.inputPer1k.n);
  }

  /** The dictionary `calculate` returns. */
  datatype Calculation = Calculation(
    model: map<string, Json>,
    tokenCount: nat,
    tokens: seq<Token>,
    maxContext: int,
    usageRatio: Option<real>,
    overflow: nat,
    pricing: Option<map<string, Json>>)

  /** The report for a model and the tokens of its text. */
  function Summarize(m: ModelSpec, tokens: seq<Token>): (r: Result<Calculation, Error>)
    ensures r.Ok? <==> PricingInfo(m.pricing, |tokens|).Ok?
    ensures r.Ok? ==>
      && r.value.model == ModelToDict(m)
      && r.value.tokens == tokens && r.value.tokenCount == |tokens|
      && r.value.maxContext == m.maxContext
      && r.value.usageRatio == UsageRatio(|tokens|, m.maxContext)
      && r.value.overflow == Overflow(|tokens|, m.maxContext)
      && r.value.pricing == PricingInfo(m.pricing, |tokens|).value
  {
    var pricing :- PricingInfo(m.pricing, |tokens|);
    Ok(Calculation(ModelToDict(m), |tokens|, tokens, m.maxContext,
                   UsageRatio(|tokens|, m.maxContext), Overflow(|tokens|, m.maxContext), pricing))
  }

  /** The report once tokenizing has succeeded or failed. */
  function Outcome(m: ModelSpec, tokens: Result<seq<Token>, Error>): Result<Calculation, Error> {
    var ts :- tokens;
    Summarize(m, ts)
  }

  /** Tokenizing with the adapter and summarizing the tokens. */
  method Report(m: ModelSpec, a: Adapter, text: string, fs: FileSystem, host: Host) returns (r: Result<Calculation, Error>)
    modifies Footprint(a), fs
    ensures r == Outcome(m, Expected(a, old(StoredBackend(a)), old(fs.files), text, host))
    ensures fs.files == FilesAfter(a, old(StoredBackend(a)), old(fs.files), text, host)
    ensures a.Hf? ==> a.hf.backend == HuggingFace.BackendAfter(a.hf.settings, old(a.hf.backend), old(fs.files), text, host)
  {
    var tokens :- Tokenize(a, text, fs, host);
    r := Summarize(m, tokens);
  }

  /** The report for a model that was found: its adapter from the registry
      under the model id, then the tokens. */
  method ReportFor(m: ModelSpec, registry: TokenizerRegistry, text: string, fs: FileSystem, host: Host) returns (r: Result<Calculation, Error>)
    modifies registry, registry.Owned(), fs
    ensures var key := CacheKey(m.tokenizer, Some(m.modelId), host);
      && (key.Err? ==>
            && r == Err(key.error) && registry.cache == old(registry.cache) && fs.files == old(fs.files)
            && unchanged(old(registry.Owned())))
      && (key.Ok? && key.value in old(registry.cache) ==>
            var a := old(registry.cache)[key.value];
            && registry.cache == old(registry.cache)
            && r == Outcome(m, Expected(a, old(StoredBackend(a)), old(fs.files), text, host))
            && fs.files == FilesAfter(a, old(StoredBackend(a)), old(fs.files), text, host)
            && (a.Hf? ==> a.hf.backend == HuggingFace.BackendAfter(a.hf.settings, old(a.hf.backend), old(fs.files), text, host))
            && unchanged(old(registry.Owned()) - Footprint(a)))
      && (key.Ok? && key.value !in old(registry.cache) && PlanFor(m.tokenizer, host).Err? ==>
            && r == Err(PlanFor(m.tokenizer, host).error)
            && registry.cache == old(registry.cache) && fs.files == old(fs.files)
            && unchanged(old(registry.Owned())))
      && (key.Ok? && key.value !in old(registry.cache) && PlanFor(m.tokenizer, host).Ok? ==>
            && key.value in registry.cache
            && var a := registry.cache[key.value];
            && registry.cache == old(registry.cache)[key.value := a]
            && Describes(a, PlanFor(m.tokenizer, host).value)
            && r == Outcome(m, Expected(a, None, old(fs.files), text, host))
            && fs.files == FilesAfter(a, None, old(fs.files), text, host)
            && (a.Hf? ==> a.hf.backend == HuggingFace.BackendAfter(a.hf.settings, None, old(fs.files), text, host))
            && unchanged(old(registry.Owned())))
  {
    ghost var key := CacheKey(m.tokenizer, Some(m.modelId), host);
    ghost var owned := registry.Owned();
    assert registry !in owned && fs !in owned;
    var adapter :- GetTokenizerForModel(m, registry, host);
    if key.value in old(registry.cache) {
      assert adapter == old(registry.cache)[key.value];
      assert Footprint(adapter) <= owned;
    } else {
      assert fresh(Object(adapter)) && StoredBackend(adapter) == None;
    }
    r := Report(m, adapter, text, fs, host);
  }

  class TokenService {
    /** `_models`: the table, and its ids in insertion order. */
    const models: map<string, ModelSpec>
    const order: seq<string>
    const registry: TokenizerRegistry

    /** Every listed id is in the table and every entry is under its own id. */
    ghost predicate Valid() {
      && (forall id :: id in order <==> id in models)
      && (forall id :: id in models ==> models[id].modelId == id)
    }

    /** `TokenService.__init__`: the table from the specifications; a new,
        empty registry when none is given. */
    constructor(specs: seq<ModelSpec>, registry: Option<TokenizerRegistry>)
      ensures models == Table(specs) && order == IdsInOrder(specs)
      ensures registry.Some? ==> this.registry == registry.value
      ensures registry.None? ==> fresh(this.registry) && this.registry.cache == map[]
      ensures Valid()
    {
      models := Table(specs);
      order := IdsInOrder(specs);
      if registry.Some? {
        this.registry := registry.value;
      } else {
        this.registry := new TokenizerRegistry();
      }
    }

    /** `list_models`: `to_dict()` of each model, in insertion order. */
    function ListModels(): (r: seq<map<string, Json>>)
      requires Valid()
      ensures |r| == |order|
      ensures forall k :: 0 <= k < |r| ==> r[k] == ModelToDict(models[order[k]])
    {
      seq(|order|, k requires 0 <= k < |order| => ModelToDict(models[order[k]]))
    }

    /** `get_model`: the stored specification, or ModelNotFoundError. */
    function GetModel(modelId: string): (r: Result<ModelSpec, Error>)
      ensures modelId in models ==> r == Ok(models[modelId])
      ensures modelId !in models ==> r == Err(ModelNotFound(modelId))
    {
      if modelId in models then Ok(models[modelId]) else Err(ModelNotFound(modelId))
    }

    /** Every listed model can be looked up by the id it is listed with. */
    lemma ListedModelsResolve()
      requires Valid()
      ensures forall k :: 0 <= k < |order| ==>
        && ListModels()[k]["id"] == JStr(order[k])
        && GetModel(order[k]) == Ok(models[order[k]])
    {
    }

    /** `calculate`: look the model up, get its adapter through the registry,
        tokenize, and report. Only the adapter used can change: a Hugging
        Face adapter stores the backend its first successful call builds. */
    method Calculate(modelId: string, text: string, fs: FileSystem, host: Host) returns (r: Result<Calculation, Error>)
      modifies registry, registry.Owned(), fs
      ensures modelId !in models ==>
        && r == Err(ModelNotFound(modelId)) && registry.cache == old(registry.cache) && fs.files == old(fs.files)
        && forall o :: o in old(registry.Owned()) ==> unchanged(o)
      ensures modelId in models ==>
        var m := models[modelId];
        var key := CacheKey(m.tokenizer, Some(m.modelId), host);
        && (key.Err? ==>
              && r == Err(key.error) && registry.cache == old(registry.cache) && fs.files == old(fs.files)
              && forall o :: o in old(registry.Owned()) ==> unchanged(o))
        && (key.Ok? && key.value in old(registry.cache) ==>
              var a := old(registry.cache)[key.value];
              && registry.cache == old(registry.cache)
              && r == Outcome(m, Expected(a, old(StoredBackend(a)), old(fs.files), text, host))
              && fs.files == FilesAfter(a, old(StoredBackend(a)), old(fs.files), text, host)
              && (a.Hf? ==> a.hf.backend == HuggingFace.BackendAfter(a.hf.settings, old(a.hf.backend), old(fs.files), text, host))
              && forall o :: o in old(registry.Owned()) && o !in Footprint(a) ==> unchanged(o))
        && (key.Ok? && key.value !in old(registry.cache) && PlanFor(m.tokenizer, host).Err? ==>
              && r == Err(PlanFor(m.tokenizer, host).error)
              && registry.cache == old(registry.cache) && fs.files == old(fs.files)
              && forall o :: o in old(registry.Owned()) ==> unchanged(o))
        && (key.Ok? && key.value !in old(registry.cache) && PlanFor(m.tokenizer, host).Ok? ==>
              && key.value in registry.cache
              && var a := registry.cache[key.value];
              && registry.cache == old(registry.cache)[key.value := a]
              && Describes(a, PlanFor(m.tokenizer, host).value)
              && r == Outcome(m, Expected(a, None, old(fs.files), text, host))
              && fs.files == FilesAfter(a, None, old(fs.files), text, host)
              && (a.Hf? ==> a.hf.backend == HuggingFace.BackendAfter(a.hf.settings, None, old(fs.files), text, host))
              && forall o :: o in old(registry.Owned()) ==> unchanged(o))
    {
      var model :- GetModel(modelId);
      r := ReportFor(model, registry, text, fs, host);
    }
  }
}
