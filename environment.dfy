/** Everything the core reaches outside itself, injected: the Unicode
    database, the `re` engine for custom patterns, `hash`, the process
    environment, the home directory, the network, the optional `tokenizers`
    library, and the file system. */
module Environment {
  import opened Wrappers
  import opened JsonValues
  import opened Utf8

  /** An HTTP GET request: the URL, its headers and the timeout in seconds. */
  datatype Request = Request(url: string, headers: map<string, string>, timeout: real)

  /** What `urlopen(...).read()` gives: an HTTPError with its code and
      reason, a URLError as `str(exc)` renders it (`<urlopen error ...>`), or
      the body. */
  datatype FetchResult =
    | HttpError(code: int, reason: string)
    | UrlError(text: string)
    | Body(data: seq<uint8>)

  /** A `tokenizers.Tokenizer` loaded from a file: where from, and the asset. */
  datatype Backend = Backend(path: string, asset: seq<uint8>)

  datatype Host = Host(
    lower: string -> string,                           // str.lower
    isAlnum: char -> bool,                             // str.isalnum, so \w is isAlnum or '_'
    patternCompiles: string -> bool,                   // re.compile succeeds
    findAll: (string, string) -> seq<string>,          // [m.group(0) for m in re.finditer(pattern, text)]
    optionsHash: map<string, Json> -> int,             // hash(frozenset(options.items()))
    env: map<string, string>,                          // os.environ
    home: string,                                      // Path.home()
    fetch: Request -> FetchResult,                     // urllib.request.urlopen
    backendInstalled: bool,                            // `from tokenizers import Tokenizer` succeeds
    isJsonText: string -> bool,                        // json.loads succeeds
    encode: (Backend, string, bool) -> Option<seq<string>>) // backend.encode(text, add_special_tokens).tokens

  /** The files on disk, by path. */
  class FileSystem {
    var files: map<string, seq<uint8>>

    constructor(files: map<string, seq<uint8>>)
      ensures this.files == files
    {
      this.files := files;
    }
  }
}
