# Token counter core, modelled in Dafny

This project models the core of a token counter for large language models:
the path from a model id and a text to a token report. It covers

- the configuration value types (`Pricing`, `TokenizerSpec`, `ModelSpec`) and their `to_dict` serialisers (module `Models`);
- the per-entry validation of the model registry, with its defaults and errors (module `Config`);
- the tokenizer adapter interface, with `tokenize` and `count_tokens` (module `Adapters`);
- the three adapters:
  - the regex tokenizer, with its whitespace filter and collapse loop (module `RegexTokenizing`), and its built-in pattern as a priority-ordered scanner (module `DefaultScanner`);
  - the byte tokenizer, which is UTF-8 encoding as section 3 of RFC 3629 defines it (modules `Utf8`, `ByteTokenizing`);
  - the Hugging Face tokenizer: constructor defaults, auth-token search, cache directory naming, resolution order, download and error classification, and the lazily built backend (module `HuggingFace`);
- the tokenizer registry, with its case-insensitive type dispatch and its adapter cache (module `Registry`);
- the token service: the model table, `list_models`, `get_model`, and `calculate` with overflow, usage ratio and cost (module `TokenServices`).

Everything the core reaches outside itself is injected through one `Host` value (module `Environment`):

- the Unicode database (`str.lower`, `str.isalnum`);
- the `re` engine for custom patterns;
- Python's `hash` of the options;
- the process environment and the home directory;
- the network, as an oracle from a request to an HTTP error, a URL error or a body;
- whether the `tokenizers` library is installed, and its `encode`;
- JSON validity of a downloaded text.

The file system is a `FileSystem` object holding a map from path to bytes.
JSON values are the `Json` datatype, and Python truthiness is `Truthy`.
Exceptions are the `Error` datatype, carried in a `Result` (module `Errors`).

Objects the source updates in place are classes: `TokenizerRegistry` with its `cache` map, and `HuggingFaceTokenizer` with its `backend` field.
Their methods are proved against functions of the old state (`GetTokenizer`, `Invalidate`, `GetBackend`, `Tokenize`).
The loops of the source are methods with loop invariants: the regex `tokenize` loop, the auth-token search and the `load_registry` loop.

Some consequences of the source's code that a reader may not expect:

- The `tokenizers` import is checked only after the file has been resolved (app/tokenizers/huggingface_tokenizer.py:142-149), so an offline cache miss reports a download error even without the library (`HuggingFace.BackendFor`).
- A failed resolution leaves the backend unset, and the next call tries again (app/tokenizers/huggingface_tokenizer.py:146-150, `HuggingFace.HuggingFaceTokenizer.GetBackend`).
- The cost is attached only when `input_per_1k` is truthy, so a price of 0 gets no cost (app/services/token_service.py:43-45, `TokenServices.ZeroPriceNoCost`).
- Duplicate model ids are accepted. The later specification wins, and the id keeps its first position (app/services/token_service.py:19, `TokenServices.LaterSpecWins`, `TokenServices.FirstInsertionOrder`).
- The registry builds a regex tokenizer for type `"regex"` (app/tokenizers/registry.py:39-40, `Registry.PlanFor`). The test `tests/test_tokenizer_registry.py:17-21` expects that type to be rejected; the model follows the registry code.

## Model

| member | source | states |
|---|---|---|
| `Models.PricingToDict` | app/models.py:17-24 | the map has exactly the keys `currency`, `input_per_1k`, `output_per_1k`, each holding its field |
| `Models.TokenizerSpecToDict` | app/models.py:34-35 | the map has exactly `type` and `options`, holding the type and the options |
| `Models.ModelToDict` | app/models.py:51-64 | the six base keys are always present with their fields; `description` is present iff it is truthy; `pricing` is present iff there is a pricing, holding its `to_dict` |
| `Config.ParsePricing` | app/config.py:14-20 | null gives no pricing; a mapping gives a pricing whose missing currency is `"USD"` and missing prices are null; any other value has no `.get` |
| `Config.ParseTokenizer` | app/config.py:23-30 | a non-mapping or a mapping without `type` is a ValueError and a non-string type a TypeError (no `.strip`); a mapping with a string type and absent or mapping options parses, with the type stored stripped and lowercased and the options as given (default `{}`); non-mapping options are a ValueError |
| `Config.ToInt` | app/config.py:59 | `int()` truncates numbers toward zero, maps booleans to 0 and 1, gives for a string exactly the integer `ParseInt` reads (a ValueError otherwise), and refuses null, lists and mappings |
| `Config.ParseEntry` | app/config.py:47-63 | an entry without a truthy id is a ValueError; otherwise the first failure among tokenizer, pricing and `max_context`, in that order, is the error, and when all three parse the entry parses; display name defaults to the id, family and provider to `"unknown"`, `max_context` to 0 |
| `Config.LoadEntries` | app/config.py:46-65 | the loop yields the parse of the entries in order, or the first entry's failure |
| `Config.LoadRegistry` | app/config.py:43-65 | a scalar document is a ValueError; a list parses iff every entry does, into one spec per entry in order, duplicates kept; a non-empty string or object fails as its elements have no `.get` |
| `Config.ParseEachSucceeds` | app/config.py:46-65 | the list parses iff every entry parses, and then holds each entry's spec at the entry's index |
| `Config.ParseEachFirstError` | app/config.py:46-50 | a failing list fails with the error of its first failing entry, so no partial result exists |
| `Config.ParseEachFailsEarly` | app/config.py:46-50 | once a prefix fails, the whole list fails with the same error |
| `Config.StringEntries` | app/config.py:46-50 | iterating a non-empty string yields strings, whose first `.get` fails |
| `Config.ParseEntryOfToDict` | app/config.py:47-63 | reading back `ModelSpec.to_dict` gives the same spec when its id is set, its type is normalised and its description is absent or truthy |
| `Text.Strip` | app/config.py:26 | `strip()` returns the slice between the leading and trailing whitespace, neither end being whitespace |
| `Text.ParseInt` | app/config.py:59 | a string is accepted iff its stripped form, less one leading sign, is a non-empty run of ASCII digits; the value is those digits in base 10, negated after a `-` |
| `Text.ParseIntPadded` | app/config.py:59 | `int(" +007 ")` is 7: whitespace, a `+` and leading zeros are accepted |
| `Text.ParseIntRefuses` | app/config.py:59 | a sign alone and digits around an inner space are refused |
| `Text.ParseIntToString` | app/config.py:59 | `int(str(i)) == i` for every integer |
| `Utf8.DecodeEncode` | app/tokenizers/simple_byte_tokenizer.py:19 | strict UTF-8 decoding of the encoding of a text gives the text back |
| `Utf8.EncodeInjective` | app/tokenizers/simple_byte_tokenizer.py:19 | distinct texts have distinct byte tokens |
| `Utf8.EncodeAppend` | app/tokenizers/simple_byte_tokenizer.py:19 | encoding `a + b` is encoding `a` followed by encoding `b` |
| `Utf8.EncodeLength` | app/tokenizers/simple_byte_tokenizer.py:19 | the length is the sum of per-character widths, between the character count and four times it |
| `Utf8.EncodeAscii` | app/tokenizers/simple_byte_tokenizer.py:19 | ASCII text encodes to its own code points, one byte per character |
| `Utf8.DecodeEncodeChar` | app/tokenizers/simple_byte_tokenizer.py:19 | one character's bytes decode back to it and use exactly its width, whatever follows |
| `ByteTokenizing.ByteTokenizer.Tokenize` | app/tokenizers/simple_byte_tokenizer.py:17-19 | empty text gives no tokens; the tokens are bytes 0..255 that decode back to the text, one to four per character |
| `DefaultScanner.ScanShapes` | app/tokenizers/regex_tokenizer.py:10-19 | every match of the built-in pattern is one script character, a Latin word with at most one apostrophe tail, a digit run, an underscore run, one non-word non-space character, or a whitespace run |
| `DefaultScanner.ScriptCharsStandAlone` | app/tokenizers/regex_tokenizer.py:11-13 | a CJK, kana or Hangul character is always a token of its own |
| `DefaultScanner.ScanCovers` | app/tokenizers/regex_tokenizer.py:10-19 | the matches, joined, are exactly the characters some alternative can match, in order; only unmatched characters are skipped |
| `DefaultScanner.MatchShape` | app/tokenizers/regex_tokenizer.py:10-19 | a non-empty match at one position has the shape of one of the pattern's alternatives |
| `DefaultScanner.FirstAlternativeWins` | app/tokenizers/regex_tokenizer.py:10-19 | the match comes from the first alternative that applies to the character (script, Latin word, digits, underscores, symbol, whitespace), each run or word cannot be extended by the next character, and a word character no alternative starts with is skipped |
| `RegexTokenizing.Configure` | app/tokenizers/regex_tokenizer.py:25-37 | unknown keywords are a TypeError; with known keywords a falsy pattern always succeeds with the built-in one; a truthy non-string pattern is a TypeError and a string one succeeds iff it compiles, else a pattern error naming it; each flag is the truthiness of its value, false when absent |
| `RegexTokenizing.RegexTokenizer.Tokenize` | app/tokenizers/regex_tokenizer.py:39-56 | the loop's result equals the filter/collapse of the matches of the (lowered) text, and empty text gives no tokens |
| `RegexTokenizing.LowercaseNormalizes` | app/tokenizers/regex_tokenizer.py:42-43 | with lowercasing on, the tokens are those of the lowered text with lowercasing off |
| `RegexTokenizing.ExpectedLength` | app/tokenizers/regex_tokenizer.py:46-56 | there are never more tokens than matches |
| `RegexTokenizing.NoWhitespaceTokens` | app/tokenizers/regex_tokenizer.py:48-53 | unless whitespace is kept verbatim, no token is whitespace |
| `RegexTokenizing.VisibleKept` | app/tokenizers/regex_tokenizer.py:46-56 | whatever the flags, the tokens that are neither whitespace nor `<ws>` are exactly those of the matches, unchanged and in order |
| `RegexTokenizing.CollapsedEndsWithSentinel` | app/tokenizers/regex_tokenizer.py:50-53 | the last collapsed token is `<ws>` iff the last match was whitespace or the text `<ws>` |
| `RegexTokenizing.NoAdjacentSentinels` | app/tokenizers/regex_tokenizer.py:50-53 | with whitespace collapsed, two `<ws>` tokens are never adjacent |
| `RegexTokenizing.SentinelPerRun` | app/tokenizers/regex_tokenizer.py:50-53 | with whitespace collapsed, there is exactly one `<ws>` per run of adjacent whitespace matches |
| `RegexTokenizing.BuiltinNeverSentinel` | app/tokenizers/regex_tokenizer.py:10-19 | the built-in pattern never yields `<ws>` as a match, so the two lemmas above apply to it |
| `RegexTokenizing.BasicExample` | tests/test_tokenizers.py:7-23 | `"Hello, 世界! 123\nNew line."` gives `Hello , 世 界 ! 123 New line .` for any Unicode database that agrees on ASCII |
| `RegexTokenizing.CollapseExample` | tests/test_tokenizers.py:25-28 | `"Hi  there\n"` with whitespace kept and collapsed gives `Hi <ws> there <ws>` |
| `Adapters.Tokenize` | app/tokenizers/base.py:15-17 | `tokenize` dispatches to the variant; only the Hugging Face variant changes its backend and the files |
| `Adapters.CountTokens` | app/tokenizers/base.py:19-22 | the count is the length of what `tokenize` returns, with the same errors and the same state change, and none of its own |
| `Adapters.EmptyTextNoTokens` | app/tokenizers/base.py:15-17 | every variant gives no tokens for empty text and leaves the files alone |
| `Adapters.TokenizeIdempotent` | app/tokenizers/huggingface_tokenizer.py:146-150 | tokenizing again from the state a successful call left gives the same tokens, keeps the backend and writes nothing |
| `Adapters.ByteCount` | app/tokenizers/simple_byte_tokenizer.py:17-19 | the byte adapter's count lies between the character count and four times it, and its tokens decode back to the text |
| `Registry.PlanFor` | app/tokenizers/registry.py:34-47 | the lowercased type selects regex, byte, or Hugging Face (`huggingface` or `hf`) with the options minus `name`; `name` defaults to the lowercased type; any other type is an UnknownTokenizerError naming the type as written |
| `Registry.CreateTokenizer` | app/tokenizers/registry.py:34-47 | builds a fresh adapter of the planned kind, name and settings with no backend, or fails with the plan's error |
| `Registry.NamedHfSpec` | app/tokenizers/registry.py:36-46 | a Hugging Face spec with `name` and `repo_id` builds an adapter named by the option, with default revision, file and no local path |
| `Registry.DefaultKey` | app/tokenizers/registry.py:26 | the default key is the type, a colon and the options' hash; unhashable options make it fail |
| `Registry.CacheKey` | app/tokenizers/registry.py:26 | a non-empty key is used as given; a missing or empty key falls back to the default key |
| `Registry.CaseVariantsCachedApart` | app/tokenizers/registry.py:26-47 | two spellings of a type that lowercase alike dispatch to the same adapter plan but get different default cache keys |
| `Registry.DefaultKeysSeparateTypes` | app/tokenizers/registry.py:26 | specs of different colon-free types never share a default key |
| `Registry.UnknownTypeMessage` | app/tokenizers/registry.py:47 | the unknown-type message ends with the type as written |
| `Registry.TokenizerRegistry.constructor` | app/tokenizers/registry.py:20-21 | the cache starts empty |
| `Registry.TokenizerRegistry.GetTokenizer` | app/tokenizers/registry.py:23-32 | a hit returns the stored adapter and leaves the cache unchanged; a miss stores a fresh adapter under the key and changes no other entry; a failure stores nothing |
| `Registry.TokenizerRegistry.Invalidate` | app/tokenizers/registry.py:49-55 | no key empties the cache; a key removes only that entry, and nothing when absent |
| `Registry.GetTokenizerForModel` | app/tokenizers/registry.py:58-61 | the model id is the cache key, so the returned adapter is the one cached under that id; a model with an id never computes the default key, so only building the adapter can fail |
| `HuggingFace.StringOr` | app/tokenizers/huggingface_tokenizer.py:71-72 | a falsy value takes the default; a truthy string is kept |
| `HuggingFace.OptionalPath` | app/tokenizers/huggingface_tokenizer.py:75 | a falsy path means none; a truthy string gives that path; a truthy non-string is a TypeError |
| `HuggingFace.ToFloat` | app/tokenizers/huggingface_tokenizer.py:78 | `float()` keeps numbers and maps booleans to 0 and 1 |
| `HuggingFace.BaseSettings` | app/tokenizers/huggingface_tokenizer.py:66-78 | a missing `repo_id` or an unknown keyword is a TypeError and a falsy `repo_id` a ValueError, any other `repo_id` is stored as given; falsy revision, file, cache root and user agent take `"main"`, `"tokenizer.json"`, the home cache and the default agent; timeout defaults to 30; the flags are the truthiness of their values |
| `HuggingFace.BaseSettingsStores` | app/tokenizers/huggingface_tokenizer.py:66-78 | a truthy string revision, file, cache root or user agent is stored as given, the local path as `OptionalPath` reads it and a given timeout as `float()` converts it; with known keywords and a truthy `repo_id`, construction succeeds iff the string options are falsy or strings and the timeout is absent, a number or a boolean |
| `HuggingFace.Configure` | app/tokenizers/huggingface_tokenizer.py:66-80 | a base-settings error is the result; otherwise a token error is the result, and a resolved token gives the base settings with that token |
| `HuggingFace.HuggingFaceTokenizer.Create` | app/tokenizers/huggingface_tokenizer.py:50-80 | construction succeeds iff the settings do, storing them with the name and no backend |
| `HuggingFace.EnvCandidates` | app/tokenizers/huggingface_tokenizer.py:177-183 | no names for None, one string as one name, a list as its names; a boolean or a number is a TypeError |
| `HuggingFace.FirstSet` | app/tokenizers/huggingface_tokenizer.py:185-193 | a found token is the non-empty value of a listed variable before which every truthy name is unset; a failure is a truthy non-string name with the same condition; none found means every truthy name is unset |
| `HuggingFace.CheckedIsOnlyAShortcut` | app/tokenizers/huggingface_tokenizer.py:185-189 | skipping names already checked never changes the result |
| `HuggingFace.AuthToken` | app/tokenizers/huggingface_tokenizer.py:169-193 | a truthy explicit token wins and a truthy non-string one is a TypeError; otherwise the result is the first set variable among the configured then the standard names (`FirstSet`), or the candidates' TypeError; a found token is never empty |
| `HuggingFace.SearchToken` | app/tokenizers/huggingface_tokenizer.py:185-193 | the loop with its `checked` set returns the first non-empty variable of the names, skipping empty and repeated names |
| `HuggingFace.ResolveAuthToken` | app/tokenizers/huggingface_tokenizer.py:169-193 | the method computes `AuthToken` |
| `HuggingFace.ConfiguredVariableFirst` | app/tokenizers/huggingface_tokenizer.py:177-192 | a configured variable that is set wins over the standard ones |
| `HuggingFace.StandardVariablesInOrder` | app/tokenizers/huggingface_tokenizer.py:186-193 | `HUGGINGFACE_TOKEN`, then `HUGGINGFACEHUB_API_TOKEN`, then `HF_TOKEN`, else none |
| `Text.ReplaceSlashes` | app/tokenizers/huggingface_tokenizer.py:85 | the result has no `/`, a slash-free id is unchanged, and a single `/` becomes `__` |
| `Text.ReplaceSlashesAppend` | app/tokenizers/huggingface_tokenizer.py:85 | replacing distributes over concatenation, so each `/` becomes `__` and every other character stays, in order |
| `HuggingFace.RepoDir` | app/tokenizers/huggingface_tokenizer.py:84-86 | for a string `repo_id`, the cache directory is the root, the slash-free repository id, and the revision (`Resolve` raises the AttributeError otherwise) |
| `HuggingFace.SafeNameInjective` | app/tokenizers/huggingface_tokenizer.py:85 | repository ids without `_` get distinct directory names |
| `HuggingFace.SafeNameCollision` | app/tokenizers/huggingface_tokenizer.py:85 | `a/b` and `a__b` share a directory name |
| `HuggingFace.DownloadUrl` | app/tokenizers/huggingface_tokenizer.py:110 | the URL is `https://huggingface.co/<repo_id>/resolve/<revision>/<tokenizer_file>` |
| `HuggingFace.DownloadHeaders` | app/tokenizers/huggingface_tokenizer.py:111-113 | `User-Agent` is always present; `Authorization: Bearer <token>` is present iff a token was resolved |
| `HuggingFace.DownloadOutcome` | app/tokenizers/huggingface_tokenizer.py:114-137 | HTTP and URL errors become download errors naming the URL; a body is accepted iff it is UTF-8 text that parses as JSON, and is then returned as read; otherwise it is the not-JSON error |
| `Errors.Message` | app/tokenizers/huggingface_tokenizer.py:118-130 | an unknown-type message ends with the type; a download failure has the download message |
| `Errors.DownloadMessage` | app/tokenizers/huggingface_tokenizer.py:101-137 | HTTP and URL error messages name the URL; only 401 and 403 append the access-token hint; other codes end with `: HTTP <code> <reason>.` and URL errors with `: ` and the error text |
| `Errors.HttpFailureMessage` | app/tokenizers/huggingface_tokenizer.py:118-128 | the HTTP failure message names the URL and ends with the status and reason, followed by the hint exactly for 401 and 403 |
| `HuggingFace.DeniedAccessHint` | app/tokenizers/huggingface_tokenizer.py:118-137 | the message of a failed download ends with the hint for 401 and 403, with the status and reason for other codes, with the error text for URL errors, and is the not-JSON message for a bad body |
| `HuggingFace.FilesAfter` | app/tokenizers/huggingface_tokenizer.py:132-139 | only a download that succeeds writes, and only the target file |
| `HuggingFace.Resolve` | app/tokenizers/huggingface_tokenizer.py:88-107 | the resolved file exists afterwards |
| `HuggingFace.ResolutionOrder` | app/tokenizers/huggingface_tokenizer.py:88-107 | explicit path (must exist) first, then the AttributeError of a non-string `repo_id`, then a cache hit, then the local-only failure, then the download |
| `HuggingFace.NonStringRepoId` | app/tokenizers/huggingface_tokenizer.py:67-70 | a numeric `repo_id` is accepted at construction and unused with a local file; without one, resolution fails |
| `HuggingFace.OfflineUnlessDownloading` | app/tokenizers/huggingface_tokenizer.py:101-104 | unless a download is due, the network is never consulted and no file changes |
| `HuggingFace.BackendFor` | app/tokenizers/huggingface_tokenizer.py:142-149 | resolution errors come first; a missing library is reported only after the file is resolved; a resolved file with the library installed gives a backend built from that file |
| `HuggingFace.CurrentBackend` | app/tokenizers/huggingface_tokenizer.py:146-150 | a stored backend is used as is; otherwise one is built |
| `HuggingFace.TokensFrom` | app/tokenizers/huggingface_tokenizer.py:154-165 | empty text gives no tokens; otherwise the backend's tokens, its error, or a RuntimeError when it gives no token data |
| `HuggingFace.StoredBackendReused` | app/tokenizers/huggingface_tokenizer.py:146-150 | with a backend stored, tokenizing reads neither the files nor the network and keeps the backend |
| `HuggingFace.HuggingFaceTokenizer.DownloadTokenizerFile` | app/tokenizers/huggingface_tokenizer.py:109-140 | writes the target only after the bytes are known to be JSON; every failure leaves the files unchanged |
| `HuggingFace.HuggingFaceTokenizer.EnsureLocalTokenizer` | app/tokenizers/huggingface_tokenizer.py:88-107 | the method computes `Resolve` and changes the files as `FilesAfter` says |
| `HuggingFace.HuggingFaceTokenizer.GetBackend` | app/tokenizers/huggingface_tokenizer.py:146-150 | a stored backend is returned and nothing changes; otherwise one is built and stored on success, and none is stored on failure |
| `HuggingFace.HuggingFaceTokenizer.Tokenize` | app/tokenizers/huggingface_tokenizer.py:154-165 | the tokens, the new backend and the new files are those of `TokensFrom`, `BackendAfter` and `FilesAfterTokens` |
| `TokenServices.Table` | app/services/token_service.py:19 | the table's keys are the ids of the specs, and each entry is under its own id |
| `TokenServices.IdsInOrder` | app/services/token_service.py:19 | the listed ids are exactly the ids of the specs |
| `TokenServices.IdsDistinct` | app/services/token_service.py:19 | no id is listed twice |
| `TokenServices.LaterSpecWins` | app/services/token_service.py:19 | a spec that no later spec overrides is the one stored under its id |
| `TokenServices.FirstInsertionOrder` | app/services/token_service.py:19 | ids keep the order of their first occurrence |
| `TokenServices.TokenService.constructor` | app/services/token_service.py:18-20 | the table comes from the specs; a fresh empty registry is made when none is given |
| `TokenServices.TokenService.ListModels` | app/services/token_service.py:22-23 | `to_dict()` of every stored model, in insertion order |
| `TokenServices.TokenService.GetModel` | app/services/token_service.py:25-29 | the stored spec, or ModelNotFoundError carrying the id |
| `TokenServices.TokenService.ListedModelsResolve` | app/services/token_service.py:22-29 | every listed model can be looked up under the id it is listed with |
| `TokenServices.UsageRatio` | app/services/token_service.py:37 | null exactly when `max_context` is 0; otherwise ratio times `max_context` equals the count |
| `TokenServices.Overflow` | app/services/token_service.py:38 | 0 when `max_context` is 0; otherwise 0 iff the count fits, and else the excess |
| `TokenServices.OverflowIffRatioAboveOne` | app/services/token_service.py:37-38 | with a positive window, overflow is positive iff the ratio exceeds 1 |
| `TokenServices.OverflowExample` | app/services/token_service.py:37-38 | 1200 tokens in 1024 overflow by 176 with ratio 1.171875 |
| `TokenServices.Round6` | app/services/token_service.py:45 | the result has at most six decimals and is within half a millionth of the input |
| `TokenServices.Round6NonNegative` | app/services/token_service.py:45 | rounding keeps non-negative values non-negative |
| `TokenServices.CostOfThousand` | app/services/token_service.py:45 | a thousand tokens cost exactly the price when it has at most six decimals |
| `TokenServices.CostExample` | app/services/token_service.py:45 | 1000 tokens at 0.002 per thousand cost 0.002 |
| `TokenServices.PriceValue` | app/services/token_service.py:43-45 | numbers and booleans multiply; other prices are a TypeError |
| `TokenServices.PricingInfo` | app/services/token_service.py:40-45 | no pricing gives null; a falsy price gives the bare pricing map; a truthy price adds the rounded cost |
| `TokenServices.ZeroPriceNoCost` | app/services/token_service.py:44 | a zero or null price adds no cost key |
| `TokenServices.CostNonNegative` | app/services/token_service.py:45 | a positive price gives a non-negative cost |
| `TokenServices.Summarize` | app/services/token_service.py:34-55 | the report echoes the model map and `max_context`, keeps the tokens, and counts them |
| `TokenServices.TokenService.Calculate` | app/services/token_service.py:31-55 | unknown ids fail with ModelNotFound and change nothing; otherwise the model's adapter comes from the registry under the model id, the report is that of its tokens, a Hugging Face adapter's stored backend is the one its first successful call builds, and every other cached adapter is unchanged |

## Left out

- The HTTP server, the CLI, the serverless handlers and the `lru_cache` service singleton are not part of this model; they only parse a request, call the service and write JSON.
- Reading the registry file (`app/config.py:36-44`) is left out; `Config.LoadRegistry` starts from the parsed JSON document.
- Real I/O is replaced by the injected `Host` and `FileSystem`: `urllib` requests and timeouts, `Path.exists`, `mkdir`, `write_bytes`, `expanduser`, `Path.home()`. Directories are not tracked, and paths are joined with `/` without normalisation.
- The `tokenizers` library is an uninterpreted `encode` plus a boolean for whether it is installed. `Tokenizer.from_file` is assumed to succeed on any resolved file.
- Regex semantics of custom patterns, and the Unicode predicates `\w` and `str.lower`, are abstract host functions. `str.isspace` is written out from CPython's whitespace table.
- `hash(frozenset(options.items()))` is an opaque host function; only its failure on unhashable values is modelled.
- Floats are exact reals. `round(x, 6)` is round-half-to-even on the exact value, not on the nearest double.
- Concurrency is left out: the registry has no lock, so no single-flight behaviour is modelled.
- Dafny strings hold Unicode scalar values only, so lone surrogates, which make Python's UTF-8 encoding raise, cannot occur.
- Config.ParseEntry: a truthy model id that is not a string is refused, where Python would store it.
- Config.ToInt: only an optional sign and ASCII digits are accepted in strings; Python also accepts underscores and non-ASCII digits.
- HuggingFace.BaseSettings: a truthy non-string `revision`, `tokenizer_file` or `user_agent` fails at construction, where Python stores it unchecked; a string `download_timeout` is refused, where Python's `float()` would parse it. (A truthy non-string `cache_dir` or `local_tokenizer_path` is a TypeError in both, since `Path()` refuses it in the constructor.)
- HuggingFace.AuthToken: a truthy non-string explicit token and an `auth_token_env` mapping are refused, where Python would use them.
- HuggingFace.EnvCandidates: an `auth_token_env` mapping is a TypeError, where Python would iterate over its keys.
- HuggingFace.BaseSettingsStores: its success condition refuses a truthy non-string `revision`, `tokenizer_file` or `user_agent` and a string timeout, as listed for HuggingFace.BaseSettings above; its refusal of a truthy non-string `cache_dir` or `local_tokenizer_path` matches Python.
- Errors.Message: a missing model id is shown in single quotes without `repr`'s escaping of quotes and backslashes, and an invalid pattern's text names the pattern instead of giving the regex engine's diagnostic.
- Text.ParseInt: only an optional sign and ASCII digits are accepted; Python also accepts underscores between digits and non-ASCII digits.
