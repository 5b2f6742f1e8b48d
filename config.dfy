/** Validation of registry entries: the JSON-like entries `load_registry`
    reads become ModelSpec values, with defaults, or the load fails. */
module Config {
  import opened Wrappers
  import opened JsonValues
  import opened Text
  import opened Errors
  import opened Models
  import opened Environment

  /** `_parse_pricing`: None stays None; a mapping becomes a Pricing whose
      missing fields take the dataclass defaults; anything else has no `.get`. */
  function ParsePricing(data: Json): (r: Result<Option<Pricing>, Error>)
    ensures data == JNull ==> r == Ok(None)
    ensures data.JObj? ==> r.Ok? && r.value.Some?
    ensures data.JObj? ==> var p := r.value.value;
      && (if "currency" in data.fields then p.currency == data.fields["currency"] else p.currency == DefaultPricing.currency)
      && (if "input_per_1k" in data.fields then p.inputPer1k == data.fields["input_per_1k"] else p.inputPer1k == JNull)
      && (if "output_per_1k" in data.fields then p.outputPer1k == data.fields["output_per_1k"] else p.outputPer1k == JNull)
    ensures data != JNull && !data.JObj? ==> r.Err? && r.error.TypeFault?
  {
    match data
    case JNull => Ok(None)
    case JObj(m) =>
      Ok(Some(Pricing(Get(m, "currency", JStr("USD")), Get(m, "input_per_1k", JNull), Get(m, "output_per_1k", JNull))))
    case _ => Err(TypeFault("pricing has no attribute 'get'"))
  }

  /** `_parse_tokenizer`: a mapping with a "type" is required; the type is
      stored stripped and lowercased; options default to {} and must be a
      mapping. */
  function ParseTokenizer(spec: Json, host: Host): (r: Result<TokenizerSpec, Error>)
    ensures !spec.JObj? || "type" !in spec.fields ==> r.Err? && r.error.ConfigInvalid?
    ensures r.Ok? ==> spec.JObj? && "type" in spec.fields && spec.fields["type"].JStr?
    ensures r.Ok? ==> r.value.typeName == host.lower(Strip(spec.fields["type"].s))
    ensures r.Ok? ==> if "options" in spec.fields then spec.fields["options"] == JObj(r.value.options)
                      else r.value.options == map[]
    ensures (spec.JObj? && "type" in spec.fields && spec.fields["type"].JStr? && "options" in spec.fields
             && !spec.fields["options"].JObj?) ==> r.Err? && r.error.ConfigInvalid?
    ensures spec.JObj? && "type" in spec.fields && !spec.fields["type"].JStr? ==> r.Err? && r.error.TypeFault?
    ensures (spec.JObj? && "type" in spec.fields && spec.fields["type"].JStr?
             && Get(spec.fields, "options", JObj(map[])).JObj?) ==> r.Ok?
  {
    if !spec.JObj? || "type" !in spec.fields then Err(ConfigInvalid("Tokenizer spec must define a 'type'."))
    else
      var t := spec.fields["type"];
      if !t.JStr? then Err(TypeFault("tokenizer type has no attribute 'strip'"))
      else
        var typeName := host.lower(Strip(t.s));
        var options := Get(spec.fields, "options", JObj(map[]));
        if !options.JObj? then Err(ConfigInvalid("Tokenizer options must be a mapping."))
        else Ok(TokenizerSpec(typeName, options.fields))
  }

  /** `int(x)` truncates a number toward zero. */
  function Trunc(x: real): (i: int)
    ensures x >= 0.0 ==> i as real <= x < i as real + 1.0
    ensures x < 0.0 ==> i as real - 1.0 < x <= i as real
  {
    if x >= 0.0 then x.Floor else -((-x).Floor)
  }

  /** `int(x)` on a JSON value: numbers truncate, booleans are 0 or 1,
      decimal strings parse; other strings are a ValueError and other values
      a TypeError. */
  function ToInt(j: Json): (r: Result<int, Error>)
    ensures j.JNum? ==> r == Ok(Trunc(j.n))
    ensures j.JBool? ==> r == Ok(if j.b then 1 else 0)
    ensures j.JStr? ==> (r.Ok? <==> ParseInt(j.s).Some?)
    ensures j.JStr? && r.Ok? ==> Some(r.value) == ParseInt(j.s)
    ensures j.JStr? && r.Err? ==> r.error.ConfigInvalid?
    ensures j.JNull? || j.JArr? || j.JObj? ==> r.Err? && r.error.TypeFault?
  {
    match j
    case JNum(x) => Ok(Trunc(x))
    case JBool(b) => Ok(if b then 1 else 0)
    case JStr(s) =>
      (match ParseInt(s)
       case Some(i) => Ok(i)
       case None => Err(ConfigInvalid("invalid literal for int() with base 10")))
    case _ => Err(TypeFault("int() argument must be a string or a real number"))
  }

  const DefaultOwner := JStr("unknown")

  /** One iteration of the `load_registry` loop: the id must be truthy, then
      the tokenizer, the pricing and `max_context` are parsed in that order;
      missing fields take their defaults. */
  function ParseEntry(item: Json, host: Host): (r: Result<ModelSpec, Error>)
    ensures !item.JObj? ==> r.Err? && r.error.TypeFault?
    ensures item.JObj? && !Truthy(Get(item.fields, "id", JNull)) ==> r.Err? && r.error.ConfigInvalid?
    ensures item.JObj? && Truthy(Get(item.fields, "id", JNull)) && !Get(item.fields, "id", JNull).JStr? ==>
              r.Err? && r.error.TypeFault?
    ensures item.JObj? && Truthy(Get(item.fields, "id", JNull)) && Get(item.fields, "id", JNull).JStr? ==>
      var m := item.fields;
      var tokenizer := ParseTokenizer(Get(m, "tokenizer", JNull), host);
      var pricing := ParsePricing(Get(m, "pricing", JNull));
      var maxContext := ToInt(Get(m, "max_context", JNum(0.0)));
      && (tokenizer.Err? ==> r == Err(tokenizer.error))
      && (tokenizer.Ok? && pricing.Err? ==> r == Err(pricing.error))
      && (tokenizer.Ok? && pricing.Ok? && maxContext.Err? ==> r == Err(maxContext.error))
      && (tokenizer.Ok? && pricing.Ok? && maxContext.Ok? ==> r.Ok?)
    ensures r.Ok? ==> item.JObj? && "id" in item.fields && item.fields["id"] == JStr(r.value.modelId)
    ensures r.Ok? ==> r.value.modelId != ""
    ensures r.Ok? ==> ParseTokenizer(Get(item.fields, "tokenizer", JNull), host) == Ok(r.value.tokenizer)
    ensures r.Ok? ==> ParsePricing(Get(item.fields, "pricing", JNull)) == Ok(r.value.pricing)
    ensures r.Ok? ==> var m := item.fields; var s := r.value;
      && s.displayName == Get(m, "display_name", JStr(s.modelId))
      && s.family == Get(m, "family", DefaultOwner)
      && s.provider == Get(m, "provider", DefaultOwner)
      && ("max_context" !in m ==> s.maxContext == 0)
      && ("max_context" in m ==> ToInt(m["max_context"]) == Ok(s.maxContext))
      && s.description == Get(m, "description", JNull)
  {
    if !item.JObj? then Err(TypeFault("model entry has no attribute 'get'"))
    else
      var m := item.fields;
      var id := Get(m, "id", JNull);
      if !Truthy(id) then Err(ConfigInvalid("Model entry must include an 'id'."))
      else if !id.JStr? then Err(TypeFault("model ids must be strings"))
      else
        var tokenizer :- ParseTokenizer(Get(m, "tokenizer", JNull), host);
        var pricing :- ParsePricing(Get(m, "pricing", JNull));
        var maxContext :- ToInt(Get(m, "max_context", JNum(0.0)));
        Ok(ModelSpec(
          id.s,
          Get(m, "display_name", id),
          Get(m, "family", DefaultOwner),
          Get(m, "provider", DefaultOwner),
          maxContext,
          tokenizer,
          Get(m, "description", JNull),
          pricing))
  }

  /** One entry's parse, as a function value. */
  function EntryParser(host: Host): Json -> Result<ModelSpec, Error> {
    item => ParseEntry(item, host)
  }

  /** Entries parsed in order: one value per entry, duplicates kept, and the
      first entry that fails fails the whole list. */
  function ParseEach<T>(items: seq<Json>, parse: Json -> Result<T, Error>): Result<seq<T>, Error>
    decreases |items|
  {
    if items == [] then Ok([])
    else
      var init :- ParseEach(items[..|items| - 1], parse);
      var m :- parse(items[|items| - 1]);
      Ok(init + [m])
  }

  /** A failure among the first `n` entries is the failure of the list. */
  lemma {:induction false} ParseEachFailsEarly<T>(items: seq<Json>, n: nat, parse: Json -> Result<T, Error>)
    requires n <= |items| && ParseEach(items[..n], parse).Err?
    ensures ParseEach(items, parse) == ParseEach(items[..n], parse)
    decreases |items|
  {
    if n < |items| {
      var init := items[..|items| - 1];
      assert init[..n] == items[..n];
      ParseEachFailsEarly(init, n, parse);
    } else {
      assert items[..n] == items;
    }
  }

  /** The list parses iff every entry does, and then holds the entries'
      values in order. */
  lemma {:induction false} ParseEachSucceeds<T>(items: seq<Json>, parse: Json -> Result<T, Error>)
    ensures var r := ParseEach(items, parse);
      && (r.Ok? <==> forall k :: 0 <= k < |items| ==> parse(items[k]).Ok?)
      && (r.Ok? ==> |r.value| == |items| && forall k :: 0 <= k < |items| ==> r.value[k] == parse(items[k]).value)
    decreases |items|
  {
    if items != [] {
      var n := |items| - 1;
      var init := items[..n];
      ParseEachSucceeds(init, parse);
      assert forall k :: 0 <= k < n ==> init[k] == items[k];
    }
  }

  /** A list that fails, fails with the error of its first failing entry. */
  lemma {:induction false} ParseEachFirstError<T>(items: seq<Json>, parse: Json -> Result<T, Error>)
    requires ParseEach(items, parse).Err?
    ensures exists k :: 0 <= k < |items| && parse(items[k]) == Err(ParseEach(items, parse).error)
                        && forall j :: 0 <= j < k ==> parse(items[j]).Ok?
    decreases |items|
  {
    var n := |items| - 1;
    var init := items[..n];
    var p := ParseEach(init, parse);
    if p.Err? {
      ParseEachFirstError(init, parse);
      var k :| 0 <= k < n && parse(init[k]) == Err(p.error)
               && forall j :: 0 <= j < k ==> parse(init[j]).Ok?;
      assert forall j :: 0 <= j <= k ==> init[j] == items[j];
    } else {
      ParseEachSucceeds(init, parse);
      assert forall j :: 0 <= j < n ==> init[j] == items[j];
    }
  }

  /** The `load_registry` loop over a list of entries. */
  method LoadEntries(items: seq<Json>, host: Host) returns (r: Result<seq<ModelSpec>, Error>)
    ensures r == ParseEach(items, EntryParser(host))
  {
    var models: seq<ModelSpec> := [];
    var i := 0;
    while i < |items|
      invariant 0 <= i <= |items|
      invariant ParseEach(items[..i], EntryParser(host)) == Ok(models)
    {
      var parsed := ParseEntry(items[i], host);
      assert items[..i + 1][..i] == items[..i];
      if parsed.Err? {
        ParseEachFailsEarly(items, i + 1, EntryParser(host));
        return Err(parsed.error);
      }
      models := models + [parsed.value];
      i := i + 1;
    }
    assert items[..i] == items;
    return Ok(models);
  }

  /** `load_registry` after the file is read: the document must be iterable;
      iterating a string or an object yields strings, which have no `.get`. */
  method LoadRegistry(raw: Json, host: Host) returns (r: Result<seq<ModelSpec>, Error>)
    ensures raw.JNull? || raw.JBool? || raw.JNum? ==> r.Err? && r.error.ConfigInvalid?
    ensures raw == JStr("") || raw == JObj(map[]) ==> r == Ok([])
    ensures (raw.JStr? && raw.s != "") || (raw.JObj? && raw.fields != map[]) ==> r.Err? && r.error.TypeFault?
    ensures raw.JArr? ==> (r.Ok? <==> forall k :: 0 <= k < |raw.items| ==> ParseEntry(raw.items[k], host).Ok?)
    ensures raw.JArr? && r.Ok? ==> (|r.value| == |raw.items|
              && forall k :: 0 <= k < |raw.items| ==> r.value[k] == ParseEntry(raw.items[k], host).value)
  {
    match raw
    case JArr(items) =>
      r := LoadEntries(items, host);
      ParseEachSucceeds(items, EntryParser(host));
    case JStr(s) =>
      r := LoadEntries(Characters(s), host);
      StringEntries(s, host);
    case JObj(m) =>
      r := if m == map[] then Ok([]) else Err(TypeFault("str has no attribute 'get'"));
    case _ =>
      r := Err(ConfigInvalid("Model registry must be a list of models."));
  }

  /** Iterating a string yields its characters as one-character strings. */
  function Characters(s: string): (r: seq<Json>)
    ensures |r| == |s| && forall k :: 0 <= k < |s| ==> r[k] == JStr([s[k]])
  {
    seq(|s|, k requires 0 <= k < |s| => JStr([s[k]]))
  }

  /** The entries of a non-empty string are strings, which have no `.get`. */
  lemma StringEntries(s: string, host: Host)
    ensures s == "" ==> ParseEach(Characters(s), EntryParser(host)) == Ok([])
    ensures s != "" ==> ParseEach(Characters(s), EntryParser(host)).Err?
                        && ParseEach(Characters(s), EntryParser(host)).error.TypeFault?
  {
    var chars := Characters(s);
    if s != "" {
      ParseEachSucceeds(chars, EntryParser(host));
      assert !EntryParser(host)(chars[0]).Ok?;
      ParseEachFirstError(chars, EntryParser(host));
    }
  }

  /** What `to_dict` writes, the loader reads back: a spec whose id is set,
      whose tokenizer type is already in normal form and whose description is
      either absent or truthy survives the round trip unchanged. */
  lemma ParseEntryOfToDict(m: ModelSpec, host: Host)
    requires m.modelId != ""
    requires host.lower(Strip(m.tokenizer.typeName)) == m.tokenizer.typeName
    requires m.description == JNull || Truthy(m.description)
    ensures ParseEntry(JObj(ModelToDict(m)), host) == Ok(m)
  {
    var d := ModelToDict(m);
    assert Trunc(m.maxContext as real) == m.maxContext;
    assert ParseTokenizer(d["tokenizer"], host) == Ok(m.tokenizer);
    if m.pricing.Some? {
      assert ParsePricing(d["pricing"]) == Ok(m.pricing);
    }
  }
}
