/** The adapter that tokenizes with a Hugging Face `tokenizer.json`, found
    at an explicit path, in the local cache, or downloaded into it. */
module HuggingFace {
  import opened Wrappers
  import opened JsonValues
  import opened Text
  import opened Utf8
  import opened Errors
  import opened Environment

  const DefaultUserAgent := "token-counter-llm/0.1"
  const DefaultRevision := "main"
  const DefaultTokenizerFile := "tokenizer.json"
  /** The cache root below the home directory. */
  const CacheSuffix := "/.cache/token-counter-llm"
  const DefaultTimeout: real := 30.0
  const HubPrefix := "https://huggingface.co/"
  /** The AttributeError `_safe_repo_dir` raises on a `repo_id` that is not a string. */
  const RepoIdNotString := TypeFault("'repo_id' has no attribute 'replace'")
  /** The environment variables searched after the configured ones. */
  const StandardTokenVariables: seq<string> := ["HUGGINGFACE_TOKEN", "HUGGINGFACEHUB_API_TOKEN", "HF_TOKEN"]

  /** The constructor's keyword arguments besides `name`. */
  const OptionKeys: set<string> := {
    "repo_id", "revision", "tokenizer_file", "cache_dir", "local_files_only", "local_tokenizer_path",
    "add_special_tokens", "user_agent", "download_timeout", "auth_token", "auth_token_env"}

  /** What the constructor stores, after defaults and conversions. */
  datatype HfSettings = HfSettings(
    /** Stored as given: only its use as a string can fail. */
    repoId: Json,
    revision: string,
    tokenizerFile: string,
    cacheRoot: string,
    localFilesOnly: bool,
    localTokenizerPath: Option<string>,
    addSpecialTokens: bool,
    userAgent: string,
    downloadTimeout: real,
    authToken: Option<string>)

  /** `value or default` for a parameter that must be a string. */
  function StringOr(value: Json, default: string): (r: Result<string, Error>)
    ensures !Truthy(value) ==> r == Ok(default)
    ensures Truthy(value) && value.JStr? ==> r == Ok(value.s)
    ensures Truthy(value) && !value.JStr? ==> r.Err? && r.error.TypeFault?
  {
    if !Truthy(value) then Ok(default)
    else if value.JStr? then Ok(value.s)
    else Err(TypeFault("expected str"))
  }

  /** `Path(value) if value else None`. */
  function OptionalPath(value: Json): (r: Result<Option<string>, Error>)
    ensures !Truthy(value) <==> r == Ok(None)
    ensures Truthy(value) && value.JStr? ==> r == Ok(Some(value.s))
    ensures Truthy(value) && !value.JStr? ==> r.Err? && r.error.TypeFault?
    ensures r.Ok? && r.value.Some? ==> value == JStr(r.value.value) && r.value.value != ""
  {
    if !Truthy(value) then Ok(None)
    else if value.JStr? then Ok(Some(value.s))
    else Err(TypeFault("expected str or os.PathLike object"))
  }

  /** `float(value)` for the values the model accepts. */
  function ToFloat(value: Json): (r: Result<real, Error>)
    ensures value.JNum? ==> r == Ok(value.n)
    ensures value.JBool? ==> r == Ok(if value.b then 1.0 else 0.0)
    ensures !value.JNum? && !value.JBool? ==> r.Err? && r.error.TypeFault?
  {
    match value
    case JNum(n) => Ok(n)
    case JBool(b) => Ok(if b then 1.0 else 0.0)
    case _ => Err(TypeFault("float() argument must be a string or a real number"))
  }

  /** The configured environment variable names: none, one string, or a list. */
  function EnvCandidates(envNames: Json): (r: Result<seq<Json>, Error>)
    ensures envNames.JNull? ==> r == Ok([])
    ensures envNames.JStr? ==> r == Ok([envNames])
    ensures envNames.JArr? ==> r == Ok(envNames.items)
    ensures !envNames.JNull? && !envNames.JStr? && !envNames.JArr? ==> r.Err? && r.error.TypeFault?
  {
    match envNames
    case JNull => Ok([])
    case JStr(_) => Ok([envNames])
    case JArr(items) => Ok(items)
    case _ => Err(TypeFault("auth_token_env must be a string or a sequence of strings"))
  }

  /** Every name to try, in order: the configured ones, then the standard ones. */
  function TokenNames(candidates: seq<Json>): seq<Json> {
    candidates + seq(|StandardTokenVariables|, k requires 0 <= k < |StandardTokenVariables| => JStr(StandardTokenVariables[k]))
  }

  /** A variable that yields no token: unset or empty. */
  predicate Unset(env: map<string, string>, name: string) {
    name !in env || env[name] == ""
  }

  /** The search of `_resolve_auth_token`: falsy names and names already in
      `checked` are skipped, a truthy name that is not a string is a
      TypeError, the first variable with a non-empty value wins. */
  function FirstToken(names: seq<Json>, env: map<string, string>, checked: set<string>): Result<Option<string>, Error>
    decreases |names|
  {
    if names == [] then Ok(None)
    else
      var name := names[0];
      if !Truthy(name) then FirstToken(names[1..], env, checked)
      else if !name.JStr? then Err(TypeFault("str expected"))
      else if name.s in checked then FirstToken(names[1..], env, checked)
      else if !Unset(env, name.s) then Ok(Some(env[name.s]))
      else FirstToken(names[1..], env, checked + {name.s})
  }

  /** Every truthy name before position `k` is a string naming an unset variable. */
  predicate UnsetBefore(names: seq<Json>, env: map<string, string>, k: nat)
    requires k <= |names|
  {
    forall j :: 0 <= j < k && Truthy(names[j]) ==> names[j].JStr? && Unset(env, names[j].s)
  }

  /** The same search without the `checked` set: the first truthy name that
      is not a string fails, the first set variable wins. */
  function FirstSet(names: seq<Json>, env: map<string, string>): (r: Result<Option<string>, Error>)
    ensures r.Ok? && r.value.Some? ==>
      && r.value.value != ""
      && exists k :: 0 <= k < |names| && names[k].JStr? && names[k].s in env && env[names[k].s] == r.value.value
                     && UnsetBefore(names, env, k)
    ensures r == Ok(None) ==> UnsetBefore(names, env, |names|)
    ensures r.Err? ==> exists k :: 0 <= k < |names| && Truthy(names[k]) && !names[k].JStr? && UnsetBefore(names, env, k)
    decreases |names|
  {
    if names == [] then Ok(None)
    else
      var name := names[0];
      var rest := FirstSet(names[1..], env);
      if !Truthy(name) then
        assert forall k :: 1 <= k < |names| ==> names[k] == names[1..][k - 1];
        rest
      else if !name.JStr? then Err(TypeFault("str expected"))
      else if !Unset(env, name.s) then Ok(Some(env[name.s]))
      else
        assert forall k :: 1 <= k < |names| ==> names[k] == names[1..][k - 1];
        rest
  }

  /** Skipping names already checked never changes the outcome: every
      checked name is unset, so looking it up again would skip it anyway. */
  lemma {:induction false} CheckedIsOnlyAShortcut(names: seq<Json>, env: map<string, string>, checked: set<string>)
    requires forall c :: c in checked ==> Unset(env, c)
    ensures FirstToken(names, env, checked) == FirstSet(names, env)
    decreases |names|
  {
    if names != [] {
      var name := names[0];
      if Truthy(name) && name.JStr? && name.s !in checked && Unset(env, name.s) {
        CheckedIsOnlyAShortcut(names[1..], env, checked + {name.s});
      } else {
        CheckedIsOnlyAShortcut(names[1..], env, checked);
      }
    }
  }

  /** The token `_resolve_auth_token` settles on. */
  function AuthToken(explicit: Json, envNames: Json, env: map<string, string>): (r: Result<Option<string>, Error>)
    ensures Truthy(explicit) && explicit.JStr? ==> r == Ok(Some(explicit.s))
    ensures Truthy(explicit) && !explicit.JStr? ==> r.Err? && r.error.TypeFault?
    ensures !Truthy(explicit) && EnvCandidates(envNames).Err? ==> r == Err(EnvCandidates(envNames).error)
    ensures !Truthy(explicit) && EnvCandidates(envNames).Ok? ==> r == FirstSet(TokenNames(EnvCandidates(envNames).value), env)
    ensures r.Ok? && r.value.Some? ==> r.value.value != ""
  {
    if Truthy(explicit) then
      if explicit.JStr? then Ok(Some(explicit.s)) else Err(TypeFault("auth_token must be a string"))
    else
      var candidates :- EnvCandidates(envNames);
      CheckedIsOnlyAShortcut(TokenNames(candidates), env, {});
      FirstToken(TokenNames(candidates), env, {})
  }

  /** Without an explicit token, a configured variable that is set wins
      over the standard ones, and the standard ones are tried in order. */
  lemma ConfiguredVariableFirst(envNames: string, env: map<string, string>)
    requires envNames != "" && !Unset(env, envNames)
    ensures AuthToken(JNull, JStr(envNames), env) == Ok(Some(env[envNames]))
  {
    var names := TokenNames([JStr(envNames)]);
    assert names[0] == JStr(envNames);
  }

  lemma StandardVariablesInOrder(env: map<string, string>)
    ensures !Unset(env, "HUGGINGFACE_TOKEN") ==> AuthToken(JNull, JNull, env) == Ok(Some(env["HUGGINGFACE_TOKEN"]))
    ensures Unset(env, "HUGGINGFACE_TOKEN") && !Unset(env, "HUGGINGFACEHUB_API_TOKEN") ==>
              AuthToken(JNull, JNull, env) == Ok(Some(env["HUGGINGFACEHUB_API_TOKEN"]))
    ensures Unset(env, "HUGGINGFACE_TOKEN") && Unset(env, "HUGGINGFACEHUB_API_TOKEN") && !Unset(env, "HF_TOKEN") ==>
              AuthToken(JNull, JNull, env) == Ok(Some(env["HF_TOKEN"]))
    ensures Unset(env, "HUGGINGFACE_TOKEN") && Unset(env, "HUGGINGFACEHUB_API_TOKEN") && Unset(env, "HF_TOKEN") ==>
              AuthToken(JNull, JNull, env) == Ok(None)
  {
    var names := TokenNames([]);
    assert names == [JStr("HUGGINGFACE_TOKEN"), JStr("HUGGINGFACEHUB_API_TOKEN"), JStr("HF_TOKEN")];
    assert names[1..] == [JStr("HUGGINGFACEHUB_API_TOKEN"), JStr("HF_TOKEN")];
    assert names[1..][1..] == [JStr("HF_TOKEN")];
    assert names[1..][1..][1..] == [];
  }

  /** One step of the search over `names[i..]`. */
  lemma FirstTokenAt(names: seq<Json>, i: nat, env: map<string, string>, checked: set<string>)
    requires i < |names|
    ensures var name := names[i];
      FirstToken(names[i..], env, checked)
      == if !Truthy(name) then FirstToken(names[i + 1..], env, checked)
         else if !name.JStr? then Err(TypeFault("str expected"))
         else if name.s in checked then FirstToken(names[i + 1..], env, checked)
         else if !Unset(env, name.s) then Ok(Some(env[name.s]))
         else FirstToken(names[i + 1..], env, checked + {name.s})
  {
    assert names[i..][0] == names[i];
    assert names[i..][1..] == names[i + 1..];
  }

  /** The loop of `_resolve_auth_token` over the candidate names, with its
      set of names already looked up. */
  method SearchToken(names: seq<Json>, env: map<string, string>) returns (r: Result<Option<string>, Error>)
    ensures r == FirstToken(names, env, {})
  {
    var checked: set<string> := {};
    var i := 0;
    while i < |names|
      invariant 0 <= i <= |names|
      invariant FirstToken(names[i..], env, checked) == FirstToken(names, env, {})
    {
      var name := names[i];
      FirstTokenAt(names, i, env, checked);
      if !Truthy(name) || (name.JStr? && name.s in checked) {
        i := i + 1;
        continue;
      }
      if !name.JStr? {
        return Err(TypeFault("str expected"));
      }
      if !Unset(env, name.s) {
        return Ok(Some(env[name.s]));
      }
      checked := checked + {name.s};
      i := i + 1;
    }
    assert names[i..] == [];
    return Ok(None);
  }

  /** `_resolve_auth_token`: an explicit token wins, otherwise the search. */
  method ResolveAuthToken(explicit: Json, envNames: Json, env: map<string, string>) returns (r: Result<Option<string>, Error>)
    ensures r == AuthToken(explicit, envNames, env)
  {
    if Truthy(explicit) {
      if !explicit.JStr? {
        return Err(TypeFault("auth_token must be a string"));
      }
      return Ok(Some(explicit.s));
    }
    var candidates :- EnvCandidates(envNames);
    r := SearchToken(TokenNames(candidates), env);
  }

  /** A value `value or default` accepts: falsy, or a string. */
  predicate FalsyOrString(v: Json) {
    !Truthy(v) || v.JStr?
  }

  /** The settings the constructor stores, before the token is resolved:
      an unknown keyword or a missing `repo_id` is a TypeError, a falsy
      `repo_id` a ValueError; falsy string options take their defaults. */
  function BaseSettings(options: map<string, Json>, host: Host): (r: Result<HfSettings, Error>)
    ensures !(options.Keys <= OptionKeys) || "repo_id" !in options ==> r.Err? && r.error.TypeFault?
    ensures options.Keys <= OptionKeys && "repo_id" in options && !Truthy(options["repo_id"]) ==>
              r.Err? && r.error.OptionInvalid?
    ensures r.Ok? ==>
      && options["repo_id"] == r.value.repoId && Truthy(r.value.repoId)
      && (!Truthy(Get(options, "revision", JNull)) ==> r.value.revision == DefaultRevision)
      && (!Truthy(Get(options, "tokenizer_file", JNull)) ==> r.value.tokenizerFile == DefaultTokenizerFile)
      && (!Truthy(Get(options, "cache_dir", JNull)) ==> r.value.cacheRoot == host.home + CacheSuffix)
      && (!Truthy(Get(options, "user_agent", JNull)) ==> r.value.userAgent == DefaultUserAgent)
      && ("download_timeout" !in options ==> r.value.downloadTimeout == DefaultTimeout)
      && (r.value.localFilesOnly <==> Truthy(Get(options, "local_files_only", JNull)))
      && (r.value.addSpecialTokens <==> Truthy(Get(options, "add_special_tokens", JNull)))
      && r.value.authToken.None?
  {
    if !(options.Keys <= OptionKeys) then Err(TypeFault("unexpected keyword argument"))
    else if "repo_id" !in options then Err(TypeFault("missing required keyword-only argument: 'repo_id'"))
    else if !Truthy(options["repo_id"]) then Err(OptionInvalid("'repo_id' option must be provided for HuggingFaceTokenizer"))
    else
      var revision :- StringOr(Get(options, "revision", JNull), DefaultRevision);
      var file :- StringOr(Get(options, "tokenizer_file", JNull), DefaultTokenizerFile);
      var cacheRoot :- StringOr(Get(options, "cache_dir", JNull), host.home + CacheSuffix);
      var localPath :- OptionalPath(Get(options, "local_tokenizer_path", JNull));
      var agent :- StringOr(Get(options, "user_agent", JNull), DefaultUserAgent);
      var timeout :- ToFloat(Get(options, "download_timeout", JNum(DefaultTimeout)));
      Ok(HfSettings(
        options["repo_id"], revision, file, cacheRoot,
        Truthy(Get(options, "local_files_only", JNull)), localPath,
        Truthy(Get(options, "add_special_tokens", JNull)), agent, timeout, None))
  }

  /** What the constructor stores from the options it is given: a truthy
      string option as given, the local path as `OptionalPath` reads it and
      the timeout as `float()` converts it; construction succeeds exactly
      when every option has a type it accepts. */
  lemma BaseSettingsStores(options: map<string, Json>, host: Host)
    ensures var r := BaseSettings(options, host);
      r.Ok? ==>
      && (var v := Get(options, "revision", JNull); Truthy(v) && v.JStr? ==> r.value.revision == v.s)
      && (var v := Get(options, "tokenizer_file", JNull); Truthy(v) && v.JStr? ==> r.value.tokenizerFile == v.s)
      && (var v := Get(options, "cache_dir", JNull); Truthy(v) && v.JStr? ==> r.value.cacheRoot == v.s)
      && (var v := Get(options, "user_agent", JNull); Truthy(v) && v.JStr? ==> r.value.userAgent == v.s)
      && OptionalPath(Get(options, "local_tokenizer_path", JNull)) == Ok(r.value.localTokenizerPath)
      && ("download_timeout" in options ==> ToFloat(options["download_timeout"]) == Ok(r.value.downloadTimeout))
    ensures options.Keys <= OptionKeys && "repo_id" in options && Truthy(options["repo_id"]) ==>
      (BaseSettings(options, host).Ok? <==>
        && FalsyOrString(Get(options, "revision", JNull))
        && FalsyOrString(Get(options, "tokenizer_file", JNull))
        && FalsyOrString(Get(options, "cache_dir", JNull))
        && FalsyOrString(Get(options, "local_tokenizer_path", JNull))
        && FalsyOrString(Get(options, "user_agent", JNull))
        && ("download_timeout" in options ==> options["download_timeout"].JNum? || options["download_timeout"].JBool?))
  {
  }

  /** With only a repository id, every other setting takes its default. */
  lemma RepoOnlySettings(repoId: string, host: Host)
    requires repoId != ""
    ensures BaseSettings(map["repo_id" := JStr(repoId)], host)
      == Ok(HfSettings(JStr(repoId), DefaultRevision, DefaultTokenizerFile, host.home + CacheSuffix, false, None, false,
                       DefaultUserAgent, DefaultTimeout, None))
  {
    assert map["repo_id" := JStr(repoId)].Keys <= OptionKeys;
  }

  /** All the settings `HuggingFaceTokenizer.__init__` stores. */
  function Configure(options: map<string, Json>, host: Host): (r: Result<HfSettings, Error>)
    ensures BaseSettings(options, host).Err? ==> r == BaseSettings(options, host)
    ensures r.Ok? ==>
      && BaseSettings(options, host).Ok?
      && r.value == BaseSettings(options, host).value.(authToken := r.value.authToken)
      && AuthToken(Get(options, "auth_token", JNull), Get(options, "auth_token_env", JNull), host.env) == Ok(r.value.authToken)
    ensures BaseSettings(options, host).Ok? ==>
      var token := AuthToken(Get(options, "auth_token", JNull), Get(options, "auth_token_env", JNull), host.env);
      && (token.Ok? ==> r == Ok(BaseSettings(options, host).value.(authToken := token.value)))
      && (token.Err? ==> r == Err(token.error))
  {
    var base :- BaseSettings(options, host);
    var token :- AuthToken(Get(options, "auth_token", JNull), Get(options, "auth_token_env", JNull), host.env);
    Ok(base.(authToken := token))
  }

  /** `_safe_repo_dir`: the cache root, the repository id with every "/"
      replaced, and the revision. */
  function RepoDir(s: HfSettings): (d: string)
    requires s.repoId.JStr?
    ensures var safe := ReplaceSlashes(s.repoId.s);
      && d == s.cacheRoot + "/" + safe + "/" + s.revision
      && forall k :: 0 <= k < |safe| ==> safe[k] != '/'
  {
    s.cacheRoot + "/" + ReplaceSlashes(s.repoId.s) + "/" + s.revision
  }

  /** The cached tokenizer file. */
  function TargetPath(s: HfSettings): string
    requires s.repoId.JStr?
  {
    RepoDir(s) + "/" + s.tokenizerFile
  }

  /** Repository ids without an underscore get distinct cache directories. */
  lemma {:induction false} SafeNameInjective(a: string, b: string)
    requires forall k :: 0 <= k < |a| ==> a[k] != '_'
    requires forall k :: 0 <= k < |b| ==> b[k] != '_'
    requires ReplaceSlashes(a) == ReplaceSlashes(b)
    ensures a == b
  {
    if a != "" && b != "" && (a[0] == '/' <==> b[0] == '/') {
      var ra, rb := ReplaceSlashes(a[1..]), ReplaceSlashes(b[1..]);
      if a[0] == '/' {
        assert ra == ReplaceSlashes(a)[2..] && rb == ReplaceSlashes(b)[2..];
      } else {
        assert ReplaceSlashes(a)[0] == a[0] && ReplaceSlashes(b)[0] == b[0];
        assert ra == ReplaceSlashes(a)[1..] && rb == ReplaceSlashes(b)[1..];
      }
      SafeNameInjective(a[1..], b[1..]);
    } else if a != "" && b != "" {
      SafeNameHead(a);
      SafeNameHead(b);
    } else if a != "" || b != "" {
      assert false;
    }
  }

  lemma SafeNameHead(x: string)
    requires x != ""
    ensures ReplaceSlashes(x)[0] == if x[0] == '/' then '_' else x[0]
  {
  }

  /** With underscores allowed the naming is not injective: "a/b" and
      "a__b" share a cache directory. */
  lemma SafeNameCollision()
    ensures ReplaceSlashes("a/b") == ReplaceSlashes("a__b") == "a__b"
  {
    assert ReplaceSlashes("b") == "b";
    assert ReplaceSlashes("/b") == "__b";
    assert ReplaceSlashes("_b") == "_b";
    assert ReplaceSlashes("__b") == "__b";
  }

  /** The URL of the tokenizer file on the hub. */
  function DownloadUrl(s: HfSettings): (url: string)
    requires s.repoId.JStr?
    ensures url == HubPrefix + s.repoId.s + "/resolve/" + s.revision + "/" + s.tokenizerFile
    ensures |url| > |HubPrefix| + |s.tokenizerFile| && url[..|HubPrefix|] == HubPrefix
    ensures url[|url| - |s.tokenizerFile| - 1..] == "/" + s.tokenizerFile
  {
    HubPrefix + s.repoId.s + "/resolve/" + s.revision + "/" + s.tokenizerFile
  }

  /** The request headers: the user agent, and a bearer token exactly when
      one was resolved. */
  function DownloadHeaders(s: HfSettings): (h: map<string, string>)
    ensures "User-Agent" in h && h["User-Agent"] == s.userAgent
    ensures "Authorization" in h <==> s.authToken.Some? && s.authToken.value != ""
    ensures "Authorization" in h ==> h["Authorization"] == "Bearer " + s.authToken.value
    ensures h.Keys <= {"User-Agent", "Authorization"}
  {
    var base := map["User-Agent" := s.userAgent];
    if s.authToken.Some? && s.authToken.value != "" then base["Authorization" := "Bearer " + s.authToken.value]
    else base
  }

  function DownloadRequest(s: HfSettings): Request
    requires s.repoId.JStr?
  {
    Request(DownloadUrl(s), DownloadHeaders(s), s.downloadTimeout)
  }

  /** What a download attempt yields: the classified failure, or the bytes,
      which must be UTF-8 text that parses as JSON. */
  function DownloadOutcome(s: HfSettings, host: Host): (r: Result<seq<uint8>, Error>)
    requires s.repoId.JStr?
    ensures r.Ok? ==>
      && host.fetch(DownloadRequest(s)) == Body(r.value)
      && Decode(r.value).Some? && host.isJsonText(Decode(r.value).value)
    ensures host.fetch(DownloadRequest(s)).HttpError? ==>
      var e := host.fetch(DownloadRequest(s));
      r == Err(DownloadFailed(HttpStatus(DownloadUrl(s), e.code, e.reason)))
    ensures host.fetch(DownloadRequest(s)).UrlError? ==>
      r == Err(DownloadFailed(Unreachable(DownloadUrl(s), host.fetch(DownloadRequest(s)).text)))
    ensures host.fetch(DownloadRequest(s)).Body? && r.Err? ==> r == Err(DownloadFailed(NotJson))
    ensures host.fetch(DownloadRequest(s)).Body? ==>
      var d := host.fetch(DownloadRequest(s)).data;
      Decode(d).Some? && host.isJsonText(Decode(d).value) ==> r == Ok(d)
  {
    match host.fetch(DownloadRequest(s))
    case HttpError(code, reason) => Err(DownloadFailed(HttpStatus(DownloadUrl(s), code, reason)))
    case UrlError(text) => Err(DownloadFailed(Unreachable(DownloadUrl(s), text)))
    case Body(data) =>
      var text := Decode(data);
      if text.Some? && host.isJsonText(text.value) then Ok(data) else Err(DownloadFailed(NotJson))
  }

  /** Only a download denied with 401 or 403 appends the access-token hint:
      any other HTTP failure ends with its status and reason, a URL error
      with its text, and a body that is not JSON gives the fixed message. */
  lemma DeniedAccessHint(s: HfSettings, host: Host)
    requires s.repoId.JStr? && DownloadOutcome(s, host).Err?
    ensures var m := Message(DownloadOutcome(s, host).error);
      var f := host.fetch(DownloadRequest(s));
      && (f.HttpError? && DeniesAccess(f.code) ==> EndsIn(m, AuthHint))
      && (f.HttpError? && !DeniesAccess(f.code) ==> EndsIn(m, StatusTail(f.code, f.reason)))
      && (f.UrlError? ==> EndsIn(m, ": " + f.text))
      && (f.Body? ==> m == NotJsonText)
  {
  }

  /** Where `_ensure_local_tokenizer` found the file, and whether it came
      from the cache. */
  datatype Location = Location(path: string, fromCache: bool)

  /** Does resolving the file download it? */
  predicate Downloads(s: HfSettings, files: map<string, seq<uint8>>) {
    s.localTokenizerPath.None? && s.repoId.JStr? && TargetPath(s) !in files && !s.localFilesOnly
  }

  /** The files after `_ensure_local_tokenizer`: the download, when one is
      made and succeeds, is written to the target; nothing else changes. */
  function FilesAfter(s: HfSettings, files: map<string, seq<uint8>>, host: Host): (r: map<string, seq<uint8>>)
    ensures r == files || (Downloads(s, files) && DownloadOutcome(s, host).Ok? && r == files[TargetPath(s) := DownloadOutcome(s, host).value])
  {
    if Downloads(s, files) && DownloadOutcome(s, host).Ok? then files[TargetPath(s) := DownloadOutcome(s, host).value]
    else files
  }

  /** `_ensure_local_tokenizer`: an explicit path, else (with `repo_id`
      used as a string) a cached file, else the local-only failure, else a
      download. The file it names exists afterwards. */
  function Resolve(s: HfSettings, files: map<string, seq<uint8>>, host: Host): (r: Result<Location, Error>)
    ensures r.Ok? ==> r.value.path in FilesAfter(s, files, host)
  {
    match s.localTokenizerPath
    case Some(p) => if p in files then Ok(Location(p, false)) else Err(LocalFileNotFound(p))
    case None =>
      if !s.repoId.JStr? then Err(RepoIdNotString)
      else if TargetPath(s) in files then Ok(Location(TargetPath(s), true))
      else if s.localFilesOnly then Err(DownloadFailed(LocalFilesOnly))
      else
        var _ :- DownloadOutcome(s, host);
        Ok(Location(TargetPath(s), false))
  }

  /** The resolution order, case by case. */
  lemma ResolutionOrder(s: HfSettings, files: map<string, seq<uint8>>, host: Host)
    ensures s.localTokenizerPath.Some? ==>
      var p := s.localTokenizerPath.value;
      Resolve(s, files, host) == (if p in files then Ok(Location(p, false)) else Err(LocalFileNotFound(p)))
    ensures s.localTokenizerPath.None? && !s.repoId.JStr? ==> Resolve(s, files, host) == Err(RepoIdNotString)
    ensures s.localTokenizerPath.None? && s.repoId.JStr? && TargetPath(s) in files ==>
      Resolve(s, files, host) == Ok(Location(TargetPath(s), true))
    ensures s.localTokenizerPath.None? && s.repoId.JStr? && TargetPath(s) !in files && s.localFilesOnly ==>
      Resolve(s, files, host) == Err(DownloadFailed(LocalFilesOnly))
    ensures Downloads(s, files) ==>
      (Resolve(s, files, host).Ok? <==> DownloadOutcome(s, host).Ok?)
      && (Resolve(s, files, host).Ok? ==> Resolve(s, files, host).value == Location(TargetPath(s), false))
      && (Resolve(s, files, host).Err? ==> Resolve(s, files, host).error == DownloadOutcome(s, host).error)
  {
  }

  /** A `repo_id` that is not a string is accepted at construction and only
      matters once the cache directory is needed: with a local file it is
      never used, without one resolution fails. */
  lemma NonStringRepoId(host: Host, files: map<string, seq<uint8>>)
    requires "/x/tokenizer.json" in files
    ensures var options := map["repo_id" := JNum(5.0), "local_tokenizer_path" := JStr("/x/tokenizer.json")];
      var r := BaseSettings(options, host);
      && r.Ok? && r.value.repoId == JNum(5.0)
      && Resolve(r.value, files, host) == Ok(Location("/x/tokenizer.json", false))
      && Resolve(r.value.(localTokenizerPath := None), files, host) == Err(RepoIdNotString)
  {
    RepoAndPathSettings(JNum(5.0), "/x/tokenizer.json", host);
  }

  /** With a truthy `repo_id` and a local path, every other setting takes its default. */
  lemma RepoAndPathSettings(repoId: Json, path: string, host: Host)
    requires Truthy(repoId) && path != ""
    ensures BaseSettings(map["repo_id" := repoId, "local_tokenizer_path" := JStr(path)], host)
      == Ok(HfSettings(repoId, DefaultRevision, DefaultTokenizerFile, host.home + CacheSuffix, false, Some(path), false,
                       DefaultUserAgent, DefaultTimeout, None))
  {
    var options := map["repo_id" := repoId, "local_tokenizer_path" := JStr(path)];
    assert options.Keys == {"repo_id", "local_tokenizer_path"} <= OptionKeys;
  }

  /** The network is consulted only when the file is downloaded. */
  lemma OfflineUnlessDownloading(s: HfSettings, files: map<string, seq<uint8>>, host: Host, fetch: Request -> FetchResult)
    requires !Downloads(s, files)
    ensures Resolve(s, files, host) == Resolve(s, files, host.(fetch := fetch))
    ensures FilesAfter(s, files, host) == files
  {
  }

  /** The backend `_get_backend` builds when none is stored yet: the file is
      resolved first, and only then is the library required. */
  function BackendFor(s: HfSettings, files: map<string, seq<uint8>>, host: Host): (r: Result<Backend, Error>)
    ensures r.Ok? ==>
      && Resolve(s, files, host).Ok? && host.backendInstalled
      && r.value.path == Resolve(s, files, host).value.path
    ensures Resolve(s, files, host).Err? ==> r == Resolve(s, files, host).PropagateFailure()
    ensures Resolve(s, files, host).Ok? && !host.backendInstalled ==> r == Err(MissingDependency)
    ensures Resolve(s, files, host).Ok? && host.backendInstalled ==> r.Ok?
  {
    var location :- Resolve(s, files, host);
    if !host.backendInstalled then Err(MissingDependency)
    else Ok(Backend(location.path, FilesAfter(s, files, host)[location.path]))
  }

  /** The backend a call to `_get_backend` uses: the stored one, or the one
      built from the resolved file. */
  function CurrentBackend(s: HfSettings, backend: Option<Backend>, files: map<string, seq<uint8>>, host: Host): (r: Result<Backend, Error>)
    ensures backend.Some? ==> r == Ok(backend.value)
    ensures backend.None? ==> r == BackendFor(s, files, host)
  {
    if backend.Some? then Ok(backend.value) else BackendFor(s, files, host)
  }

  /** What `tokenize` returns from a given state: no tokens for empty text;
      otherwise what the backend encodes, and an encoding without tokens is
      an error. */
  function TokensFrom(s: HfSettings, backend: Option<Backend>, files: map<string, seq<uint8>>, text: string, host: Host): (r: Result<seq<string>, Error>)
    ensures text == "" ==> r == Ok([])
    ensures text != "" && CurrentBackend(s, backend, files, host).Err? ==> r.Err? && r.error == CurrentBackend(s, backend, files, host).error
    ensures text != "" && r.Ok? ==>
      && CurrentBackend(s, backend, files, host).Ok?
      && host.encode(CurrentBackend(s, backend, files, host).value, text, s.addSpecialTokens) == Some(r.value)
    ensures (&& text != ""
             && CurrentBackend(s, backend, files, host).Ok?
             && host.encode(CurrentBackend(s, backend, files, host).value, text, s.addSpecialTokens).None?)
            ==> r == Err(NoTokenData)
  {
    if text == "" then Ok([])
    else
      var b :- CurrentBackend(s, backend, files, host);
      match host.encode(b, text, s.addSpecialTokens)
      case Some(tokens) => Ok(tokens)
      case None => Err(NoTokenData)
  }

  /** The stored backend after `tokenize`: set by the first successful build. */
  function BackendAfter(s: HfSettings, backend: Option<Backend>, files: map<string, seq<uint8>>, text: string, host: Host): Option<Backend> {
    if text == "" || backend.Some? then backend
    else if BackendFor(s, files, host).Ok? then Some(BackendFor(s, files, host).value)
    else None
  }

  /** The files after `tokenize`: only the first build can download. */
  function FilesAfterTokens(s: HfSettings, backend: Option<Backend>, files: map<string, seq<uint8>>, text: string, host: Host): map<string, seq<uint8>> {
    if text == "" || backend.Some? then files else FilesAfter(s, files, host)
  }

  /** Once a backend is stored, tokenizing reads neither the files nor the
      network, and the stored backend stays. */
  lemma StoredBackendReused(s: HfSettings, b: Backend, files: map<string, seq<uint8>>, other: map<string, seq<uint8>>,
                            text: string, host: Host, fetch: Request -> FetchResult)
    ensures TokensFrom(s, Some(b), files, text, host) == TokensFrom(s, Some(b), other, text, host.(fetch := fetch))
    ensures BackendAfter(s, Some(b), files, text, host) == Some(b)
    ensures FilesAfterTokens(s, Some(b), files, text, host) == files
  {
  }

  class HuggingFaceTokenizer {
    const name: Json
    const settings: HfSettings
    /** `_backend`: built on first use, then reused. */
    var backend: Option<Backend>

    constructor(name: Json, settings: HfSettings)
      ensures this.name == name && this.settings == settings && backend == None
    {
      this.name := name;
      this.settings := settings;
      backend := None;
    }

    /** `HuggingFaceTokenizer.__init__` given keyword arguments, validated in
        the constructor's order. */
    static method Create(name: Json, options: map<string, Json>, host: Host) returns (r: Result<HuggingFaceTokenizer, Error>)
      ensures r.Ok? <==> Configure(options, host).Ok?
      ensures r.Err? ==> r.error == Configure(options, host).error
      ensures r.Ok? ==> fresh(r.value) && r.value.name == name && r.value.settings == Configure(options, host).value
                        && r.value.backend == None
    {
      var base :- BaseSettings(options, host);
      var token :- ResolveAuthToken(Get(options, "auth_token", JNull), Get(options, "auth_token_env", JNull), host.env);
      var t := new HuggingFaceTokenizer(name, base.(authToken := token));
      return Ok(t);
    }

    /** `_download_tokenizer_file`: fetch, classify the failure, and write
        the bytes to `target` only once they are known to be JSON. */
    method DownloadTokenizerFile(target: string, fs: FileSystem, host: Host) returns (r: Result<string, Error>)
      requires settings.repoId.JStr?
      modifies fs
      ensures r.Ok? <==> DownloadOutcome(settings, host).Ok?
      ensures r.Ok? ==> r.value == target && fs.files == old(fs.files)[target := DownloadOutcome(settings, host).value]
      ensures r.Err? ==> r.error == DownloadOutcome(settings, host).error && fs.files == old(fs.files)
    {
      var url := DownloadUrl(settings);
      var response := host.fetch(Request(url, DownloadHeaders(settings), settings.downloadTimeout));
      match response
      case HttpError(code, reason) =>
        return Err(DownloadFailed(HttpStatus(url, code, reason)));
      case UrlError(text) =>
        return Err(DownloadFailed(Unreachable(url, text)));
      case Body(data) =>
        var text := Decode(data);
        if text.None? || !host.isJsonText(text.value) {
          return Err(DownloadFailed(NotJson));
        }
        fs.files := fs.files[target := data];
        return Ok(target);
    }

    /** `_ensure_local_tokenizer`. */
    method EnsureLocalTokenizer(fs: FileSystem, host: Host) returns (r: Result<Location, Error>)
      modifies fs
      ensures r == Resolve(settings, old(fs.files), host)
      ensures fs.files == FilesAfter(settings, old(fs.files), host)
    {
      if settings.localTokenizerPath.Some? {
        var p := settings.localTokenizerPath.value;
        if p !in fs.files {
          return Err(LocalFileNotFound(p));
        }
        return Ok(Location(p, false));
      }
      if !settings.repoId.JStr? {
        return Err(RepoIdNotString);
      }
      var target := TargetPath(settings);
      if target in fs.files {
        return Ok(Location(target, true));
      }
      if settings.localFilesOnly {
        return Err(DownloadFailed(LocalFilesOnly));
      }
      var path :- DownloadTokenizerFile(target, fs, host);
      return Ok(Location(path, false));
    }

    /** `_get_backend`: a stored backend is returned as is; otherwise the
        file is resolved and the backend built and stored. A failure stores
        nothing, so the next call tries again. */
    method GetBackend(fs: FileSystem, host: Host) returns (r: Result<Backend, Error>)
      modifies this, fs
      ensures old(backend).Some? ==> r == Ok(old(backend).value) && backend == old(backend) && fs.files == old(fs.files)
      ensures old(backend).None? ==>
        && r == BackendFor(settings, old(fs.files), host)
        && fs.files == FilesAfter(settings, old(fs.files), host)
        && backend == (if r.Ok? then Some(r.value) else None)
    {
      if backend.None? {
        var location :- EnsureLocalTokenizer(fs, host);
        if !host.backendInstalled {
          return Err(MissingDependency);
        }
        backend := Some(Backend(location.path, fs.files[location.path]));
      }
      return Ok(backend.value);
    }

    /** `HuggingFaceTokenizer.tokenize`: empty text touches nothing;
        otherwise the backend's tokens, or an error when it gives none. */
    method Tokenize(text: string, fs: FileSystem, host: Host) returns (r: Result<seq<string>, Error>)
      modifies this, fs
      ensures r == TokensFrom(settings, old(backend), old(fs.files), text, host)
      ensures backend == BackendAfter(settings, old(backend), old(fs.files), text, host)
      ensures fs.files == FilesAfterTokens(settings, old(backend), old(fs.files), text, host)
    {
      if text == "" {
        return Ok([]);
      }
      var b :- GetBackend(fs, host);
      var tokens := host.encode(b, text, settings.addSpecialTokens);
      if tokens.None? {
        return Err(NoTokenData);
      }
      return Ok(tokens.value);
    }
  }
}
