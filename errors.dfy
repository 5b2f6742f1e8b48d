/** The exceptions the core raises, by kind, and the messages they carry. */
module Errors {
  import opened Text

  /** Why resolving a Hugging Face tokenizer file failed (TokenizerDownloadError). */
  datatype DownloadCause =
    | LocalFilesOnly
    | HttpStatus(url: string, code: int, reason: string)
    | Unreachable(url: string, text: string)  // `text` is `str(exc)` of the URLError
    | NotJson

  datatype Error =
    | ConfigInvalid(reason: string)     // ValueError raised while loading the registry
    | TypeFault(reason: string)         // TypeError / AttributeError on an ill-typed value
    | ModelNotFound(modelId: string)    // ModelNotFoundError
    | UnknownTokenizer(typeName: string) // UnknownTokenizerError
    | OptionInvalid(reason: string)     // ValueError from an adapter constructor
    | PatternInvalid(pattern: string)   // re.error from compiling a custom pattern
    | LocalFileNotFound(path: string)   // FileNotFoundError
    | DownloadFailed(cause: DownloadCause) // TokenizerDownloadError
    | MissingDependency                 // MissingDependencyError
    | NoTokenData                       // RuntimeError from an empty backend encoding

  const DownloadPrefix := "Failed to download tokenizer from "

  const AuthHint := " Repository access was denied. Provide a Hugging Face access token via the 'auth_token' option or the HUGGINGFACE_TOKEN / HUGGINGFACEHUB_API_TOKEN environment variables."

  const LocalFilesOnlyText := "Local files only was requested but tokenizer file is missing."
  const NotJsonText := "Downloaded tokenizer file is not valid JSON."
  const MissingDependencyText := "The 'tokenizers' package is required to use Hugging Face tokenizers. Install it via 'pip install tokenizers'."
  const NoTokenDataText := "The Hugging Face backend did not return token data."
  /** Status codes for which the download error tells the user to supply a token. */
  predicate DeniesAccess(code: int) { code == 401 || code == 403 }

  /** `m` ends with `suffix`. */
  predicate EndsIn(m: string, suffix: string) {
    |m| >= |suffix| && m[|m| - |suffix|..] == suffix
  }

  /** The `: HTTP <code> <reason>.` part of an HTTP download failure. */
  function StatusTail(code: int, reason: string): string {
    ": HTTP " + IntToString(code) + " " + reason + "."
  }

  /** The message of an HTTP download failure: it names the URL, and only a
      401 or 403 appends the access-token hint after the status and reason. */
  function HttpFailureMessage(url: string, code: int, reason: string): (m: string)
    ensures DeniesAccess(code) ==> EndsIn(m, AuthHint) && EndsIn(m, StatusTail(code, reason) + AuthHint)
    ensures !DeniesAccess(code) ==> EndsIn(m, StatusTail(code, reason))
    ensures |m| >= |DownloadPrefix| + |url| && m[|DownloadPrefix|..|DownloadPrefix| + |url|] == url
  {
    var tail := StatusTail(code, reason);
    if DeniesAccess(code) then
      StartsWith(DownloadPrefix, url, tail + AuthHint);
      EndsWith(DownloadPrefix + url, tail, AuthHint);
      EndsInConcat(DownloadPrefix + url, tail + AuthHint);
      DownloadPrefix + url + (tail + AuthHint)
    else
      StartsWith(DownloadPrefix, url, tail);
      EndsInConcat(DownloadPrefix + url, tail);
      DownloadPrefix + url + tail
  }

  /** The text of a TokenizerDownloadError: HTTP and URL errors name the
      URL; only a 401 or 403 appends the access-token hint, other codes end
      with their status and reason, and URL errors with the error's text. */
  function DownloadMessage(cause: DownloadCause): (m: string)
    ensures cause.HttpStatus? && DeniesAccess(cause.code) ==> EndsIn(m, AuthHint)
    ensures cause.HttpStatus? && DeniesAccess(cause.code) ==> EndsIn(m, StatusTail(cause.code, cause.reason) + AuthHint)
    ensures cause.HttpStatus? && !DeniesAccess(cause.code) ==> EndsIn(m, StatusTail(cause.code, cause.reason))
    ensures cause.Unreachable? ==> EndsIn(m, ": " + cause.text)
    ensures cause.HttpStatus? || cause.Unreachable? ==>
              |m| >= |DownloadPrefix| + |cause.url| && m[|DownloadPrefix|..|DownloadPrefix| + |cause.url|] == cause.url
  {
    match cause
    case LocalFilesOnly => LocalFilesOnlyText
    case HttpStatus(url, code, reason) => HttpFailureMessage(url, code, reason)
    case Unreachable(url, text) =>
      StartsWith(DownloadPrefix, url, ": " + text);
      EndsInConcat(DownloadPrefix + url, ": " + text);
      DownloadPrefix + url + (": " + text)
    case NotJson => NotJsonText
  }

  /** The text of the exception, `str(exc)`. A ModelNotFoundError is a
      KeyError, whose text is the `repr` of the id: the id in single quotes
      (escaping of quotes and backslashes inside the id is not modelled).
      The text of a `re.error` is the regex engine's own diagnostic, which
      the host engine does not expose; the text given here only names the
      pattern. */
  function Message(e: Error): (m: string)
    ensures e.UnknownTokenizer? ==> |m| >= |e.typeName| && m[|m| - |e.typeName|..] == e.typeName
    ensures e.DownloadFailed? ==> m == DownloadMessage(e.cause)
  {
    match e
    case ConfigInvalid(reason) => reason
    case TypeFault(reason) => reason
    case ModelNotFound(id) => "'" + id + "'"
    case UnknownTokenizer(t) => EndsWith("Unknown tokenizer type: ", "", t); "Unknown tokenizer type: " + t
    case OptionInvalid(reason) => reason
    case PatternInvalid(p) => "invalid regular expression: " + p
    case LocalFileNotFound(p) => "Local tokenizer file not found: " + p
    case DownloadFailed(cause) => DownloadMessage(cause)
    case MissingDependency =>
      MissingDependencyText
    case NoTokenData => NoTokenDataText
  }

  /** `u` sits right after `p` in `p + u + rest`. */
  lemma StartsWith(p: string, u: string, rest: string)
    ensures |p + u + rest| >= |p| + |u| && (p + u + rest)[|p|..|p| + |u|] == u
  {
    assert (p + u + rest)[|p|..|p| + |u|] == u;
  }

  /** `c` ends `a + c`. */
  lemma EndsInConcat(a: string, c: string)
    ensures EndsIn(a + c, c)
  {
    assert (a + c)[|a + c| - |c|..] == c;
  }

  /** `c` ends `a + (b + c)`. */
  lemma EndsWith(a: string, b: string, c: string)
    ensures |a + (b + c)| >= |c| && (a + (b + c))[|a + (b + c)| - |c|..] == c
  {
    assert (a + (b + c))[|a + (b + c)| - |c|..] == c;
  }
}
