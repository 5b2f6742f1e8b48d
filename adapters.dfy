/** The common adapter interface: every tokenizer has a name, splits text
    into tokens, and counts tokens as the length of that split. The three
    adapters are the variants of one datatype. */
module Adapters {
  import opened Wrappers
  import opened JsonValues
  import opened Utf8
  import opened Errors
  import opened Environment
  import RegexTokenizing
  import ByteTokenizing
  import HuggingFace

  /** A token as an adapter emits it: a piece of text, or one UTF-8 octet. */
  datatype Token = Piece(text: string) | Octet(value: uint8)

  datatype Adapter =
    | Regex(regex: RegexTokenizing.RegexTokenizer)
    | Bytes(bytes: ByteTokenizing.ByteTokenizer)
    | Hf(hf: HuggingFace.HuggingFaceTokenizer)

  /** The adapter's `name`, as given to its constructor. */
  function Name(a: Adapter): Json {
    match a
    case Regex(t) => t.name
    case Bytes(t) => t.name
    case Hf(t) => t.name
  }

  /** The object behind the adapter. */
  function Object(a: Adapter): object {
    match a
    case Regex(t) => t
    case Bytes(t) => t
    case Hf(t) => t
  }

  /** The objects `tokenize` may change: only the Hugging Face adapter keeps
      state, its lazily built backend. */
  function Footprint(a: Adapter): (r: set<object>)
    ensures r <= {Object(a)}
  {
    if a.Hf? then {a.hf} else {}
  }

  function StoredBackend(a: Adapter): Option<Backend>
    reads Footprint(a)
  {
    if a.Hf? then a.hf.backend else None
  }

  function Pieces(ts: seq<string>): (r: seq<Token>)
    ensures |r| == |ts| && forall k :: 0 <= k < |r| ==> r[k] == Piece(ts[k])
  {
    seq(|ts|, k requires 0 <= k < |ts| => Piece(ts[k]))
  }

  function Octets(bs: seq<uint8>): (r: seq<Token>)
    ensures |r| == |bs| && forall k :: 0 <= k < |r| ==> r[k] == Octet(bs[k])
  {
    seq(|bs|, k requires 0 <= k < |bs| => Octet(bs[k]))
  }

  /** What `tokenize` returns, given the stored backend and the files. */
  function Expected(a: Adapter, backend: Option<Backend>, files: map<string, seq<uint8>>, text: string, host: Host): Result<seq<Token>, Error> {
    match a
    case Regex(t) => Ok(Pieces(RegexTokenizing.Tokens(t.settings, text, host)))
    case Bytes(t) => Ok(Octets(t.Tokenize(text)))
    case Hf(t) =>
      var ts :- HuggingFace.TokensFrom(t.settings, backend, files, text, host);
      Ok(Pieces(ts))
  }

  /** The files after `tokenize`. */
  function FilesAfter(a: Adapter, backend: Option<Backend>, files: map<string, seq<uint8>>, text: string, host: Host): map<string, seq<uint8>> {
    if a.Hf? then HuggingFace.FilesAfterTokens(a.hf.settings, backend, files, text, host) else files
  }

  /** `tokenize`, dispatched to the adapter. */
  method Tokenize(a: Adapter, text: string, fs: FileSystem, host: Host) returns (r: Result<seq<Token>, Error>)
    modifies Footprint(a), fs
    ensures r == Expected(a, old(StoredBackend(a)), old(fs.files), text, host)
    ensures a.Hf? ==> a.hf.backend == HuggingFace.BackendAfter(a.hf.settings, old(a.hf.backend), old(fs.files), text, host)
    ensures fs.files == FilesAfter(a, old(StoredBackend(a)), old(fs.files), text, host)
  {
    match a
    case Regex(t) =>
      var ts := t.Tokenize(text, host);
      r := Ok(Pieces(ts));
    case Bytes(t) =>
      r := Ok(Octets(t.Tokenize(text)));
    case Hf(t) =>
      var ts :- t.Tokenize(text, fs, host);
      r := Ok(Pieces(ts));
  }

  /** `count_tokens`: the length of what `tokenize` returns, with the same
      effect on the adapter and the files and none of its own. */
  method CountTokens(a: Adapter, text: string, fs: FileSystem, host: Host) returns (r: Result<nat, Error>)
    modifies Footprint(a), fs
    ensures var e := Expected(a, old(StoredBackend(a)), old(fs.files), text, host);
      && (r.Ok? <==> e.Ok?)
      && (r.Ok? ==> r.value == |e.value|)
      && (r.Err? ==> r.error == e.error)
    ensures a.Hf? ==> a.hf.backend == HuggingFace.BackendAfter(a.hf.settings, old(a.hf.backend), old(fs.files), text, host)
    ensures fs.files == FilesAfter(a, old(StoredBackend(a)), old(fs.files), text, host)
  {
    var tokens :- Tokenize(a, text, fs, host);
    r := Ok(|tokens|);
  }

  /** Every adapter gives no tokens for empty text and leaves the files alone. */
  lemma EmptyTextNoTokens(a: Adapter, backend: Option<Backend>, files: map<string, seq<uint8>>, host: Host)
    ensures Expected(a, backend, files, "", host) == Ok([])
    ensures FilesAfter(a, backend, files, "", host) == files
  {
  }

  /** Tokenizing the same text again, from the state a successful call left
      behind, gives the same tokens and changes nothing more: only the first
      call of a Hugging Face adapter resolves, downloads and builds. */
  lemma TokenizeIdempotent(a: Adapter, backend: Option<Backend>, files: map<string, seq<uint8>>, text: string, host: Host)
    requires Expected(a, backend, files, text, host).Ok?
    ensures var b := if a.Hf? then HuggingFace.BackendAfter(a.hf.settings, backend, files, text, host) else backend;
      var f := FilesAfter(a, backend, files, text, host);
      && Expected(a, b, f, text, host) == Expected(a, backend, files, text, host)
      && (a.Hf? ==> HuggingFace.BackendAfter(a.hf.settings, b, f, text, host) == b)
      && FilesAfter(a, b, f, text, host) == f
  {
    if a.Hf? && text != "" && backend.None? {
      var s := a.hf.settings;
      assert HuggingFace.CurrentBackend(s, backend, files, host).Ok?;
      assert HuggingFace.BackendAfter(s, backend, files, text, host) == Some(HuggingFace.BackendFor(s, files, host).value);
    }
  }

  /** The byte adapter's count lies between the number of characters and four
      times that number, and its octets decode back to the text. */
  lemma ByteCount(t: ByteTokenizing.ByteTokenizer, text: string, backend: Option<Backend>, files: map<string, seq<uint8>>, host: Host)
    ensures var e := Expected(Bytes(t), backend, files, text, host);
      && e.Ok? && |text| <= |e.value| <= 4 * |text|
      && (forall k :: 0 <= k < |e.value| ==> e.value[k].Octet?)
      && Decode(seq(|e.value|, k requires 0 <= k < |e.value| => e.value[k].value)) == Some(text)
  {
    var bs := t.Tokenize(text);
    var e := Octets(bs);
    assert seq(|e|, k requires 0 <= k < |e| => e[k].value) == bs;
  }
}
