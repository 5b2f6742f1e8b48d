/** The tokenizer that splits text with a regular expression and then drops,
    keeps or collapses the whitespace matches. */
module RegexTokenizing {
  import opened Wrappers
  import opened JsonValues
  import opened Text
  import opened Errors
  import opened Environment
  import opened DefaultScanner

  /** The token a collapsed whitespace run becomes. */
  const Sentinel := "<ws>"

  /** The keyword arguments the constructor accepts besides `name`. */
  const OptionKeys: set<string> := {"pattern", "normalize_lowercase", "keep_whitespace", "collapse_whitespace"}

  /** The compiled pattern: the built-in one, or a custom source that compiles. */
  datatype Pattern = Builtin | Custom(source: string)

  datatype RegexSettings = RegexSettings(
    pattern: Pattern,
    normalizeLowercase: bool,
    keepWhitespace: bool,
    collapseWhitespace: bool)

  /** The constructor's handling of its keyword arguments: an unknown keyword
      is a TypeError, a falsy pattern selects the built-in one, a truthy one
      must be a string that compiles, and each flag is the truthiness of its
      value (absent means false). */
  function Configure(options: map<string, Json>, host: Host): (r: Result<RegexSettings, Error>)
    ensures !(options.Keys <= OptionKeys) ==> r.Err? && r.error.TypeFault?
    ensures r.Ok? ==>
      && options.Keys <= OptionKeys
      && (r.value.pattern.Builtin? <==> !Truthy(Get(options, "pattern", JNull)))
      && (r.value.pattern.Custom? ==>
            Get(options, "pattern", JNull) == JStr(r.value.pattern.source) && host.patternCompiles(r.value.pattern.source))
      && (r.value.normalizeLowercase <==> "normalize_lowercase" in options && Truthy(options["normalize_lowercase"]))
      && (r.value.keepWhitespace <==> "keep_whitespace" in options && Truthy(options["keep_whitespace"]))
      && (r.value.collapseWhitespace <==> "collapse_whitespace" in options && Truthy(options["collapse_whitespace"]))
    ensures options.Keys <= OptionKeys && Get(options, "pattern", JNull).JStr? && Truthy(Get(options, "pattern", JNull)) ==>
              (r.Ok? <==> host.patternCompiles(Get(options, "pattern", JNull).s))
    ensures var p := Get(options, "pattern", JNull);
      options.Keys <= OptionKeys && p.JStr? && Truthy(p) && !host.patternCompiles(p.s) ==> r == Err(PatternInvalid(p.s))
    ensures var p := Get(options, "pattern", JNull);
      options.Keys <= OptionKeys && Truthy(p) && !p.JStr? ==> r.Err? && r.error.TypeFault?
    ensures options.Keys <= OptionKeys && !Truthy(Get(options, "pattern", JNull)) ==> r.Ok?
  {
    if !(options.Keys <= OptionKeys) then Err(TypeFault("RegexTokenizer got an unexpected keyword argument"))
    else
      var p := Get(options, "pattern", JNull);
      var pattern :-
        if !Truthy(p) then Ok(Builtin)
        else if !p.JStr? then Err(TypeFault("first argument must be string or compiled pattern"))
        else if !host.patternCompiles(p.s) then Err(PatternInvalid(p.s))
        else Ok(Custom(p.s));
      Ok(RegexSettings(
        pattern,
        Truthy(Get(options, "normalize_lowercase", JBool(false))),
        Truthy(Get(options, "keep_whitespace", JBool(false))),
        Truthy(Get(options, "collapse_whitespace", JBool(false)))))
  }

  /** The text the pattern runs over: lowered when normalisation is on. */
  function Prepared(settings: RegexSettings, text: string, host: Host): string {
    if settings.normalizeLowercase then host.lower(text) else text
  }

  /** The strings `finditer` yields, in order. */
  function FindMatches(pattern: Pattern, text: string, host: Host): seq<string> {
    match pattern
    case Builtin => Scan(text, host.isAlnum)
    case Custom(source) => host.findAll(source, text)
  }

  /** The matches that are not whitespace, in order. */
  function NonSpace(ms: seq<string>): seq<string> {
    if ms == [] then []
    else NonSpace(ms[..|ms| - 1]) + (if IsSpaceString(ms[|ms| - 1]) then [] else [ms[|ms| - 1]])
  }

  /** What match `i` contributes when whitespace is kept and collapsed: itself
      when it is not whitespace; otherwise the sentinel, unless the token
      before it is already the sentinel, which is so exactly when the match
      before it was whitespace or was the sentinel's own text. */
  function Contribution(ms: seq<string>, i: nat): seq<string>
    requires i < |ms|
  {
    if !IsSpaceString(ms[i]) then [ms[i]]
    else if i > 0 && (IsSpaceString(ms[i - 1]) || ms[i - 1] == Sentinel) then []
    else [Sentinel]
  }

  function Collapsed(ms: seq<string>): seq<string> {
    if ms == [] then [] else Collapsed(ms[..|ms| - 1]) + Contribution(ms, |ms| - 1)
  }

  /** The tokens the settings make of a sequence of matches. */
  function Expected(settings: RegexSettings, ms: seq<string>): seq<string> {
    if !settings.keepWhitespace then NonSpace(ms)
    else if !settings.collapseWhitespace then ms
    else Collapsed(ms)
  }

  /** The tokens of `text`, as `RegexTokenizer.tokenize` computes them. */
  function Tokens(settings: RegexSettings, text: string, host: Host): seq<string> {
    if text == "" then []
    else Expected(settings, FindMatches(settings.pattern, Prepared(settings, text, host), host))
  }

  /** One more match extends the expected tokens by what that match contributes. */
  lemma ExpectedStep(settings: RegexSettings, ms: seq<string>, i: nat)
    requires i < |ms|
    ensures var space := IsSpaceString(ms[i]);
      Expected(settings, ms[..i + 1]) == Expected(settings, ms[..i]) +
        if !settings.keepWhitespace then (if space then [] else [ms[i]])
        else if !settings.collapseWhitespace then [ms[i]]
        else Contribution(ms, i)
  {
    var p := ms[..i + 1];
    assert p[..i] == ms[..i];
    assert p[i] == ms[i];
    if i > 0 {
      assert p[i - 1] == ms[i - 1];
    }
  }

  /** What the tokens built so far say about their last one: with whitespace
      kept and collapsed, they end with the sentinel exactly when the last
      match was whitespace or the sentinel's own text. */
  predicate SentinelLast(settings: RegexSettings, ms: seq<string>, i: nat, raw: seq<string>)
    requires i <= |ms|
  {
    settings.keepWhitespace && settings.collapseWhitespace ==>
      (raw != [] && raw[|raw| - 1] == Sentinel <==> i > 0 && (IsSpaceString(ms[i - 1]) || ms[i - 1] == Sentinel))
  }

  /** One pass of the loop in `RegexTokenizer.tokenize`: match `i` is dropped,
      collapsed into the sentinel or kept. */
  method Absorb(settings: RegexSettings, ms: seq<string>, i: nat, raw: seq<string>) returns (next: seq<string>)
    requires i < |ms|
    requires raw == Expected(settings, ms[..i]) && SentinelLast(settings, ms, i, raw)
    ensures next == Expected(settings, ms[..i + 1]) && SentinelLast(settings, ms, i + 1, next)
  {
    var token := ms[i];
    var space := IsSpaceString(token);
    ExpectedStep(settings, ms, i);
    next := raw;
    if !settings.keepWhitespace && space {
    } else if settings.collapseWhitespace && space {
      if !(raw != [] && raw[|raw| - 1] == Sentinel) {
        next := raw + [Sentinel];
      }
    } else {
      next := raw + [token];
    }
  }

  class RegexTokenizer {
    const name: Json
    const settings: RegexSettings

    constructor(name: Json, settings: RegexSettings)
      ensures this.name == name && this.settings == settings
    {
      this.name := name;
      this.settings := settings;
    }

    /** `RegexTokenizer.tokenize`: one pass over the matches, dropping or
        collapsing whitespace as the settings say. */
    method Tokenize(text: string, host: Host) returns (tokens: seq<string>)
      ensures tokens == Tokens(settings, text, host)
    {
      if text == "" {
        return [];
      }
      var t := text;
      if settings.normalizeLowercase {
        t := host.lower(text);
      }
      var matches := FindMatches(settings.pattern, t, host);
      var raw: seq<string> := [];
      var i := 0;
      while i < |matches|
        invariant 0 <= i <= |matches|
        invariant raw == Expected(settings, matches[..i]) && SentinelLast(settings, matches, i, raw)
      {
        raw := Absorb(settings, matches, i, raw);
        i := i + 1;
      }
      assert matches[..i] == matches;
      tokens := raw;
    }
  }
  /** The tokens that are neither whitespace nor the sentinel, in order. */
  function Visible(ts: seq<string>): seq<string> {
    if ts == [] then []
    else Visible(ts[..|ts| - 1]) + (if IsSpaceString(ts[|ts| - 1]) || ts[|ts| - 1] == Sentinel then [] else [ts[|ts| - 1]])
  }

  function Count(x: string, ts: seq<string>): nat {
    if ts == [] then 0 else Count(x, ts[..|ts| - 1]) + (if ts[|ts| - 1] == x then 1 else 0)
  }

  /** The number of maximal runs of consecutive whitespace matches. */
  function Runs(ms: seq<string>): nat {
    if ms == [] then 0
    else
      var n := |ms|;
      Runs(ms[..n - 1]) + (if IsSpaceString(ms[n - 1]) && (n == 1 || !IsSpaceString(ms[n - 2])) then 1 else 0)
  }

  lemma {:induction false} VisibleAppend(a: seq<string>, b: seq<string>)
    ensures Visible(a + b) == Visible(a) + Visible(b)
    decreases |b|
  {
    if b == [] {
      assert a + b == a;
    } else {
      assert (a + b)[..|a + b| - 1] == a + b[..|b| - 1];
      VisibleAppend(a, b[..|b| - 1]);
    }
  }

  lemma {:induction false} CountAppend(x: string, a: seq<string>, b: seq<string>)
    ensures Count(x, a + b) == Count(x, a) + Count(x, b)
    decreases |b|
  {
    if b == [] {
      assert a + b == a;
    } else {
      assert (a + b)[..|a + b| - 1] == a + b[..|b| - 1];
      CountAppend(x, a, b[..|b| - 1]);
    }
  }

  /** Collapsing the prefix `ms[..n]` only looks at that prefix. */
  lemma CollapsedPrefix(ms: seq<string>, n: nat)
    requires 0 < n <= |ms|
    ensures Collapsed(ms[..n]) == Collapsed(ms[..n - 1]) + Contribution(ms, n - 1)
  {
    assert ms[..n][..n - 1] == ms[..n - 1];
  }

  /** With lowercasing on, the tokens are those of the lowered text with
      lowercasing off (Python's `lower` never empties a non-empty string). */
  lemma LowercaseNormalizes(settings: RegexSettings, text: string, host: Host)
    requires settings.normalizeLowercase
    requires text != "" <==> host.lower(text) != ""
    ensures Tokens(settings, text, host) == Tokens(settings.(normalizeLowercase := false), host.lower(text), host)
    ensures text != "" ==>
      Tokens(settings, text, host) == Expected(settings, FindMatches(settings.pattern, host.lower(text), host))
  {
  }

  /** The tokens never outnumber the matches. */
  lemma {:induction false} ExpectedLength(settings: RegexSettings, ms: seq<string>)
    ensures |Expected(settings, ms)| <= |ms|
  {
    NonSpaceLength(ms);
    CollapsedLength(ms);
  }

  lemma {:induction false} NonSpaceLength(ms: seq<string>)
    ensures |NonSpace(ms)| <= |ms|
  {
    if ms != [] {
      NonSpaceLength(ms[..|ms| - 1]);
    }
  }

  lemma {:induction false} CollapsedLength(ms: seq<string>)
    ensures |Collapsed(ms)| <= |ms|
  {
    if ms != [] {
      CollapsedLength(ms[..|ms| - 1]);
    }
  }

  /** Unless whitespace is kept verbatim, no token is whitespace. */
  lemma {:induction false} NoWhitespaceTokens(settings: RegexSettings, ms: seq<string>)
    requires !settings.keepWhitespace || settings.collapseWhitespace
    ensures forall k :: 0 <= k < |Expected(settings, ms)| ==> !IsSpaceString(Expected(settings, ms)[k])
  {
    if !settings.keepWhitespace {
      NonSpaceHasNoSpace(ms);
    } else {
      CollapsedHasNoSpace(ms);
    }
  }

  lemma {:induction false} NonSpaceHasNoSpace(ms: seq<string>)
    ensures forall k :: 0 <= k < |NonSpace(ms)| ==> !IsSpaceString(NonSpace(ms)[k])
  {
    if ms != [] {
      NonSpaceHasNoSpace(ms[..|ms| - 1]);
    }
  }

  lemma {:induction false} CollapsedHasNoSpace(ms: seq<string>)
    ensures forall k :: 0 <= k < |Collapsed(ms)| ==> !IsSpaceString(Collapsed(ms)[k])
  {
    if ms != [] {
      CollapsedHasNoSpace(ms[..|ms| - 1]);
      assert !IsSpaceString(Sentinel) by {
        assert !IsSpace(Sentinel[0]);
      }
    }
  }

  /** Whatever the settings, the tokens that are neither whitespace nor the
      sentinel are exactly those of the matches, in the same order. */
  lemma {:induction false} VisibleKept(settings: RegexSettings, ms: seq<string>)
    ensures Visible(Expected(settings, ms)) == Visible(ms)
  {
    if !settings.keepWhitespace {
      NonSpaceVisible(ms);
    } else if settings.collapseWhitespace {
      CollapsedVisible(ms);
    }
  }

  lemma {:induction false} NonSpaceVisible(ms: seq<string>)
    ensures Visible(NonSpace(ms)) == Visible(ms)
  {
    if ms != [] {
      var init := ms[..|ms| - 1];
      var last := ms[|ms| - 1];
      NonSpaceVisible(init);
      VisibleAppend(NonSpace(init), if IsSpaceString(last) then [] else [last]);
      VisibleSingle(last);
    }
  }

  /** What a match contributes shows the match itself, if it is visible. */
  lemma VisibleContribution(ms: seq<string>, i: nat)
    requires i < |ms|
    ensures Visible(Contribution(ms, i)) == if IsSpaceString(ms[i]) || ms[i] == Sentinel then [] else [ms[i]]
  {
    if !IsSpaceString(ms[i]) {
      VisibleSingle(ms[i]);
    } else if Contribution(ms, i) != [] {
      VisibleSingle(Sentinel);
    }
  }

  /** One token is visible unless it is whitespace or the sentinel. */
  lemma VisibleSingle(x: string)
    ensures Visible([x]) == if IsSpaceString(x) || x == Sentinel then [] else [x]
  {
    assert [x][..0] == [];
  }

  lemma {:induction false} CollapsedVisible(ms: seq<string>)
    ensures Visible(Collapsed(ms)) == Visible(ms)
  {
    if ms != [] {
      var n := |ms|;
      var init := ms[..n - 1];
      var last := ms[n - 1];
      assert Collapsed(ms) == Collapsed(init) + Contribution(ms, n - 1);
      assert Visible(ms) == Visible(init) + if IsSpaceString(last) || last == Sentinel then [] else [last];
      CollapsedVisible(init);
      VisibleAppend(Collapsed(init), Contribution(ms, n - 1));
      VisibleContribution(ms, n - 1);
    }
  }

  /** The last collapsed token is the sentinel exactly when the last match
      was whitespace or the sentinel's own text. */
  lemma {:induction false} CollapsedEndsWithSentinel(ms: seq<string>)
    ensures (Collapsed(ms) != [] && Collapsed(ms)[|Collapsed(ms)| - 1] == Sentinel)
        <==> (ms != [] && (IsSpaceString(ms[|ms| - 1]) || ms[|ms| - 1] == Sentinel))
  {
    if ms != [] {
      var n := |ms|;
      CollapsedEndsWithSentinel(ms[..n - 1]);
      if n > 1 {
        assert ms[..n - 1][n - 2] == ms[n - 2];
      }
    }
  }

  /** With whitespace collapsed, and no match that is itself the sentinel's
      text, two sentinels are never adjacent. */
  lemma {:induction false} NoAdjacentSentinels(ms: seq<string>)
    requires Sentinel !in ms
    ensures forall k :: 0 <= k < |Collapsed(ms)| - 1 ==> !(Collapsed(ms)[k] == Sentinel && Collapsed(ms)[k + 1] == Sentinel)
  {
    if ms != [] {
      var n := |ms|;
      var init := ms[..n - 1];
      assert Sentinel !in init;
      NoAdjacentSentinels(init);
      CollapsedEndsWithSentinel(init);
      if n > 1 {
        assert init[n - 2] == ms[n - 2];
      }
    }
  }

  /** With whitespace collapsed, and no match that is itself the sentinel's
      text, there is one sentinel per run of whitespace matches. */
  lemma {:induction false} SentinelPerRun(ms: seq<string>)
    requires Sentinel !in ms
    ensures Count(Sentinel, Collapsed(ms)) == Runs(ms)
  {
    if ms != [] {
      var n := |ms|;
      var init := ms[..n - 1];
      assert Sentinel !in init;
      SentinelPerRun(init);
      CountAppend(Sentinel, Collapsed(init), Contribution(ms, n - 1));
      assert Count(Sentinel, [Sentinel]) == 1 by {
        assert [Sentinel][..0] == [];
      }
      assert Count(Sentinel, [ms[n - 1]]) == 0 by {
        assert [ms[n - 1]][..0] == [];
      }
    }
  }

  /** The built-in pattern never yields the sentinel's text as one match. */
  lemma BuiltinNeverSentinel(t: string, isAlnum: char -> bool)
    ensures Sentinel !in Scan(t, isAlnum)
  {
    ScanShapes(t, 0, isAlnum);
    assert !IsTokenShape(isAlnum, Sentinel) by {
      assert !IsAsciiLetter(Sentinel[0]) && !IsAsciiDigit(Sentinel[0]) && !IsSpace(Sentinel[0]);
      assert RunEnd(Sentinel, 0, IsAsciiLetter) == 0;
    }
  }

  /** A run that ends at `j` is reported as ending at `j`. */
  lemma {:induction false} RunEndAt(t: string, i: nat, j: nat, p: char -> bool)
    requires i <= j <= |t|
    requires forall k :: i <= k < j ==> p(t[k])
    requires j < |t| ==> !p(t[j])
    ensures RunEnd(t, i, p) == j
    decreases j - i
  {
    if i < j {
      RunEndAt(t, i + 1, j, p);
    }
  }

  /** A letter run with no apostrophe tail is one match. */
  lemma LetterRunMatch(t: string, i: nat, j: nat, a: char -> bool)
    requires i < j <= |t|
    requires forall k :: i <= k < j ==> IsAsciiLetter(t[k])
    requires j < |t| ==> !IsAsciiLetter(t[j]) && t[j] != '\''
    ensures MatchLength(t, i, a) == j - i
  {
    RunEndAt(t, i, j, IsAsciiLetter);
  }

  lemma DigitRunMatch(t: string, i: nat, j: nat, a: char -> bool)
    requires i < j <= |t|
    requires forall k :: i <= k < j ==> IsAsciiDigit(t[k])
    requires j < |t| ==> !IsAsciiDigit(t[j])
    ensures MatchLength(t, i, a) == j - i
  {
    RunEndAt(t, i, j, IsAsciiDigit);
  }

  lemma SpaceRunMatch(t: string, i: nat, j: nat, a: char -> bool)
    requires i < j <= |t|
    requires forall k :: i <= k < j ==> IsSpace(t[k])
    requires j < |t| ==> !IsSpace(t[j])
    ensures MatchLength(t, i, a) == j - i
  {
    RunEndAt(t, i, j, IsSpace);
  }

  /** A script character, or a character that is neither a word character
      nor whitespace, is a match of its own. */
  lemma SingleMatch(t: string, i: nat, a: char -> bool)
    requires i < |t|
    requires IsScriptChar(t[i]) || (!IsAsciiLetter(t[i]) && !IsAsciiDigit(t[i]) && !IsWordChar(a, t[i]) && !IsSpace(t[i]))
    ensures MatchLength(t, i, a) == 1
  {
  }

  /** One step of the scanner, for a match whose length and text are known. */
  lemma ScanStep(t: string, i: nat, a: char -> bool, m: string)
    requires i + |m| <= |t| && |m| > 0
    requires MatchLength(t, i, a) == |m| && t[i..i + |m|] == m
    ensures ScanFrom(t, i, a) == [m] + ScanFrom(t, i + |m|, a)
  {
  }

  const HiThere := "Hi  there\n"

  lemma HiThereMatches(a: char -> bool)
    ensures MatchLength(HiThere, 0, a) == 2 && MatchLength(HiThere, 2, a) == 2
    ensures MatchLength(HiThere, 4, a) == 5 && MatchLength(HiThere, 9, a) == 1
  {
    assert HiThere[2] == ' ' && HiThere[4] == 't' && HiThere[9] == '\n';
    LetterRunMatch(HiThere, 0, 2, a);
    SpaceRunMatch(HiThere, 2, 4, a);
    LetterRunMatch(HiThere, 4, 9, a);
    SpaceRunMatch(HiThere, 9, 10, a);
  }

  lemma HiThereSlices()
    ensures |HiThere| == 10
    ensures HiThere[0..2] == "Hi" && HiThere[2..4] == "  " && HiThere[4..9] == "there" && HiThere[9..10] == "\n"
  {
  }

  /** The scan of any text of ten characters with the example's matches. */
  lemma ScanOfCollapseMatches(t: string, a: char -> bool)
    requires |t| == 10
    requires t[0..2] == "Hi" && t[2..4] == "  " && t[4..9] == "there" && t[9..10] == "\n"
    requires MatchLength(t, 0, a) == 2 && MatchLength(t, 2, a) == 2
    requires MatchLength(t, 4, a) == 5 && MatchLength(t, 9, a) == 1
    ensures Scan(t, a) == ["Hi", "  ", "there", "\n"]
  {
    assert ScanFrom(t, 10, a) == [];
    ScanStep(t, 9, a, "\n");
    ScanStep(t, 4, a, "there");
    ScanStep(t, 2, a, "  ");
    ScanStep(t, 0, a, "Hi");
  }

  lemma HiThereScan(a: char -> bool)
    ensures Scan(HiThere, a) == ["Hi", "  ", "there", "\n"]
  {
    HiThereMatches(a);
    HiThereSlices();
    ScanOfCollapseMatches(HiThere, a);
  }

  lemma HiThereCollapsed()
    ensures Collapsed(["Hi", "  ", "there", "\n"]) == ["Hi", Sentinel, "there", Sentinel]
  {
    var ms := ["Hi", "  ", "there", "\n"];
    assert !IsSpaceString(ms[0]) && IsSpaceString(ms[1]) && !IsSpaceString(ms[2]) && IsSpaceString(ms[3]) by {
      assert ms[0][0] == 'H' && ms[2][0] == 't';
    }
    assert ms[0] != Sentinel && ms[2] != Sentinel by {
      assert ms[0][0] == 'H' && ms[2][0] == 't' && Sentinel[0] == '<';
    }
    CollapsedAlternating(ms[0], ms[1], ms[2], ms[3]);
  }

  /** Word, whitespace, word, whitespace: each whitespace match becomes one
      sentinel. */
  lemma CollapsedAlternating(a: string, b: string, c: string, d: string)
    requires !IsSpaceString(a) && IsSpaceString(b) && !IsSpaceString(c) && IsSpaceString(d)
    requires a != Sentinel && c != Sentinel
    ensures Collapsed([a, b, c, d]) == [a, Sentinel, c, Sentinel]
  {
    var ms := [a, b, c, d];
    assert Collapsed(ms[..0]) == [];
    CollapsedPrefix(ms, 1);
    CollapsedPrefix(ms, 2);
    CollapsedPrefix(ms, 3);
    CollapsedPrefix(ms, 4);
    assert ms[..4] == ms;
  }

  /** The second example of the tokenizer's tests: whitespace kept and collapsed. */
  lemma CollapseExample(host: Host)
    ensures Tokens(RegexSettings(Builtin, false, true, true), HiThere, host) == ["Hi", Sentinel, "there", Sentinel]
  {
    HiThereScan(host.isAlnum);
    HiThereCollapsed();
  }

  const HelloWorld := "Hello, \U{4E16}\U{754C}! 123\nNew line."

  const HelloWorldMatches: seq<string> :=
    ["Hello", ",", " ", "\U{4E16}", "\U{754C}", "!", " ", "123", "\n", "New", " ", "line", "."]

  /** The punctuation of the example is not alphanumeric. */
  predicate PunctuationNotAlnum(a: char -> bool) {
    !a(',') && !a('!') && !a('.')
  }

  lemma HelloWorldChars()
    ensures |HelloWorld| == 24
    ensures HelloWorld[5] == ',' && HelloWorld[6] == ' ' && HelloWorld[7] == '\U{4E16}'
    ensures HelloWorld[8] == '\U{754C}' && HelloWorld[9] == '!' && HelloWorld[10] == ' '
    ensures HelloWorld[14] == '\n' && HelloWorld[18] == ' ' && HelloWorld[23] == '.'
  {
  }

  lemma HelloWorldMatchesFront(a: char -> bool)
    requires PunctuationNotAlnum(a)
    ensures MatchLength(HelloWorld, 0, a) == 5 && MatchLength(HelloWorld, 5, a) == 1
  {
    HelloWorldChars();
    LetterRunMatch(HelloWorld, 0, 5, a);
    SingleMatch(HelloWorld, 5, a);
  }

  lemma HelloWorldMatchesScript(a: char -> bool)
    requires PunctuationNotAlnum(a)
    ensures MatchLength(HelloWorld, 6, a) == 1 && MatchLength(HelloWorld, 7, a) == 1
    ensures MatchLength(HelloWorld, 8, a) == 1
  {
    HelloWorldChars();
    SpaceRunMatch(HelloWorld, 6, 7, a);
    SingleMatch(HelloWorld, 7, a);
    SingleMatch(HelloWorld, 8, a);
  }

  lemma HelloWorldMatchesMiddle(a: char -> bool)
    requires PunctuationNotAlnum(a)
    ensures MatchLength(HelloWorld, 9, a) == 1 && MatchLength(HelloWorld, 10, a) == 1
  {
    HelloWorldChars();
    SingleMatch(HelloWorld, 9, a);
    SpaceRunMatch(HelloWorld, 10, 11, a);
  }

  lemma HelloWorldMatchesDigits(a: char -> bool)
    requires PunctuationNotAlnum(a)
    ensures MatchLength(HelloWorld, 11, a) == 3 && MatchLength(HelloWorld, 14, a) == 1
  {
    HelloWorldChars();
    DigitRunMatch(HelloWorld, 11, 14, a);
    SpaceRunMatch(HelloWorld, 14, 15, a);
  }

  lemma HelloWorldMatchesBack(a: char -> bool)
    requires PunctuationNotAlnum(a)
    ensures MatchLength(HelloWorld, 15, a) == 3 && MatchLength(HelloWorld, 18, a) == 1
  {
    HelloWorldChars();
    LetterRunMatch(HelloWorld, 15, 18, a);
    SpaceRunMatch(HelloWorld, 18, 19, a);
  }

  lemma HelloWorldMatchesEnd(a: char -> bool)
    requires PunctuationNotAlnum(a)
    ensures MatchLength(HelloWorld, 19, a) == 4 && MatchLength(HelloWorld, 23, a) == 1
  {
    HelloWorldChars();
    LetterRunMatch(HelloWorld, 19, 23, a);
    SingleMatch(HelloWorld, 23, a);
  }

  lemma HelloWorldSlices()
    ensures HelloWorld[0..5] == "Hello" && HelloWorld[5..6] == "," && HelloWorld[6..7] == " "
    ensures HelloWorld[7..8] == "\U{4E16}" && HelloWorld[8..9] == "\U{754C}" && HelloWorld[9..10] == "!"
    ensures HelloWorld[10..11] == " " && HelloWorld[11..14] == "123" && HelloWorld[14..15] == "\n"
    ensures HelloWorld[15..18] == "New" && HelloWorld[18..19] == " " && HelloWorld[19..23] == "line"
    ensures HelloWorld[23..24] == "."
  {
  }

  /** The scan of any text of 24 characters with the example's matches. */
  lemma ScanOfExampleMatches(t: string, a: char -> bool)
    requires |t| == 24
    requires t[0..5] == "Hello" && t[5..6] == "," && t[6..7] == " "
    requires MatchLength(t, 0, a) == 5 && MatchLength(t, 5, a) == 1 && MatchLength(t, 6, a) == 1
    requires ScanFrom(t, 7, a) == ["\U{4E16}", "\U{754C}", "!", " ", "123", "\n", "New", " ", "line", "."]
    ensures Scan(t, a) == ["Hello", ",", " ", "\U{4E16}", "\U{754C}", "!", " ", "123", "\n", "New", " ", "line", "."]
  {
    ScanStep(t, 6, a, " ");
    ScanStep(t, 5, a, ",");
    ScanStep(t, 0, a, "Hello");
  }

  /** The scan of the example from its first ideograph on. */
  lemma ScanOfExampleMiddle(t: string, a: char -> bool)
    requires |t| == 24
    requires t[7..8] == "\U{4E16}" && t[8..9] == "\U{754C}" && t[9..10] == "!" && t[10..11] == " "
    requires MatchLength(t, 7, a) == 1 && MatchLength(t, 8, a) == 1 && MatchLength(t, 9, a) == 1
    requires MatchLength(t, 10, a) == 1
    requires ScanFrom(t, 11, a) == ["123", "\n", "New", " ", "line", "."]
    ensures ScanFrom(t, 7, a) == ["\U{4E16}", "\U{754C}", "!", " ", "123", "\n", "New", " ", "line", "."]
  {
    ScanStep(t, 10, a, " ");
    ScanStep(t, 9, a, "!");
    ScanStep(t, 8, a, "\U{754C}");
    ScanStep(t, 7, a, "\U{4E16}");
  }

  /** The scan of the example's last 13 characters. */
  lemma ScanOfExampleTail(t: string, a: char -> bool)
    requires |t| == 24
    requires t[11..14] == "123" && t[14..15] == "\n" && t[15..18] == "New" && t[18..19] == " " && t[19..23] == "line" && t[23..24] == "."
    requires MatchLength(t, 11, a) == 3 && MatchLength(t, 14, a) == 1
    requires MatchLength(t, 15, a) == 3 && MatchLength(t, 18, a) == 1 && MatchLength(t, 19, a) == 4
    requires MatchLength(t, 23, a) == 1
    ensures ScanFrom(t, 11, a) == ["123", "\n", "New", " ", "line", "."]
  {
    assert ScanFrom(t, 24, a) == [];
    ScanStep(t, 23, a, ".");
    ScanStep(t, 19, a, "line");
    ScanStep(t, 18, a, " ");
    ScanStep(t, 15, a, "New");
    ScanStep(t, 14, a, "\n");
    ScanStep(t, 11, a, "123");
  }

  lemma HelloWorldScan(a: char -> bool)
    requires PunctuationNotAlnum(a)
    ensures Scan(HelloWorld, a) == HelloWorldMatches
  {
    HelloWorldChars();
    HelloWorldSlices();
    HelloWorldMatchesFront(a);
    HelloWorldMatchesScript(a);
    HelloWorldMatchesMiddle(a);
    HelloWorldMatchesDigits(a);
    HelloWorldMatchesBack(a);
    HelloWorldMatchesEnd(a);
    ScanOfExampleTail(HelloWorld, a);
    ScanOfExampleMiddle(HelloWorld, a);
    ScanOfExampleMatches(HelloWorld, a);
  }

  lemma {:induction false} NonSpaceAppend(a: seq<string>, b: seq<string>)
    ensures NonSpace(a + b) == NonSpace(a) + NonSpace(b)
    decreases |b|
  {
    if b == [] {
      assert a + b == a;
    } else {
      assert (a + b)[..|a + b| - 1] == a + b[..|b| - 1];
      NonSpaceAppend(a, b[..|b| - 1]);
    }
  }

  lemma NonSpacePrefix(ms: seq<string>, n: nat)
    requires 0 < n <= |ms|
    ensures NonSpace(ms[..n]) == NonSpace(ms[..n - 1]) + (if IsSpaceString(ms[n - 1]) then [] else [ms[n - 1]])
  {
    assert ms[..n][..n - 1] == ms[..n - 1];
  }

  lemma {:induction false} NonSpaceOfSpaceFree(ms: seq<string>)
    requires forall k :: 0 <= k < |ms| ==> !IsSpaceString(ms[k])
    ensures NonSpace(ms) == ms
  {
    if ms != [] {
      NonSpaceOfSpaceFree(ms[..|ms| - 1]);
    }
  }

  lemma NonSpaceOfSpace(m: string)
    requires IsSpaceString(m)
    ensures NonSpace([m]) == []
  {
    assert [m][..0] == [];
  }

  /** Dropping the whitespace from seven matches of which the third and
      seventh are whitespace. */
  lemma NonSpaceOfSeven(ms: seq<string>)
    requires |ms| == 7
    requires IsSpaceString(ms[2]) && IsSpaceString(ms[6])
    requires !IsSpaceString(ms[0]) && !IsSpaceString(ms[1]) && !IsSpaceString(ms[3]) && !IsSpaceString(ms[4])
    requires !IsSpaceString(ms[5])
    ensures NonSpace(ms) == [ms[0], ms[1], ms[3], ms[4], ms[5]]
  {
    assert NonSpace(ms[..0]) == [];
    NonSpacePrefix(ms, 1);
    NonSpacePrefix(ms, 2);
    NonSpacePrefix(ms, 3);
    NonSpacePrefix(ms, 4);
    NonSpacePrefix(ms, 5);
    NonSpacePrefix(ms, 6);
    NonSpacePrefix(ms, 7);
    assert ms[..7] == ms;
  }

  /** Dropping the whitespace from six matches of which the second and
      fourth are whitespace. */
  lemma NonSpaceOfSix(ms: seq<string>)
    requires |ms| == 6
    requires IsSpaceString(ms[1]) && IsSpaceString(ms[3])
    requires !IsSpaceString(ms[0]) && !IsSpaceString(ms[2]) && !IsSpaceString(ms[4]) && !IsSpaceString(ms[5])
    ensures NonSpace(ms) == [ms[0], ms[2], ms[4], ms[5]]
  {
    assert NonSpace(ms[..0]) == [];
    NonSpacePrefix(ms, 1);
    NonSpacePrefix(ms, 2);
    NonSpacePrefix(ms, 3);
    NonSpacePrefix(ms, 4);
    NonSpacePrefix(ms, 5);
    NonSpacePrefix(ms, 6);
    assert ms[..6] == ms;
  }

  lemma HelloWorldSpaces()
    ensures IsSpaceString(HelloWorldMatches[2]) && IsSpaceString(HelloWorldMatches[6])
    ensures IsSpaceString(HelloWorldMatches[8]) && IsSpaceString(HelloWorldMatches[10])
  {
  }

  lemma HelloWorldWords()
    ensures !IsSpaceString(HelloWorldMatches[0]) && !IsSpaceString(HelloWorldMatches[1])
    ensures !IsSpaceString(HelloWorldMatches[3]) && !IsSpaceString(HelloWorldMatches[4])
    ensures !IsSpaceString(HelloWorldMatches[5]) && !IsSpaceString(HelloWorldMatches[7])
    ensures !IsSpaceString(HelloWorldMatches[9]) && !IsSpaceString(HelloWorldMatches[11])
    ensures !IsSpaceString(HelloWorldMatches[12])
  {
    var ms := HelloWorldMatches;
    assert ms[0][0] == 'H' && ms[1][0] == ',' && ms[3][0] == '\U{4E16}' && ms[4][0] == '\U{754C}';
    assert ms[5][0] == '!' && ms[7][0] == '1' && ms[9][0] == 'N' && ms[11][0] == 'l' && ms[12][0] == '.';
  }

  /** Dropping the whitespace from thirteen matches of which the third,
      seventh, ninth and eleventh are whitespace. */
  lemma NonSpaceOfThirteen(ms: seq<string>)
    requires |ms| == 13
    requires IsSpaceString(ms[2]) && IsSpaceString(ms[6]) && IsSpaceString(ms[8]) && IsSpaceString(ms[10])
    requires !IsSpaceString(ms[0]) && !IsSpaceString(ms[1]) && !IsSpaceString(ms[3]) && !IsSpaceString(ms[4])
    requires !IsSpaceString(ms[5]) && !IsSpaceString(ms[7]) && !IsSpaceString(ms[9]) && !IsSpaceString(ms[11])
    requires !IsSpaceString(ms[12])
    ensures NonSpace(ms) == [ms[0], ms[1], ms[3], ms[4], ms[5], ms[7], ms[9], ms[11], ms[12]]
  {
    NonSpaceOfSeven(ms[..7]);
    NonSpaceOfSix(ms[7..]);
    NonSpaceAppend(ms[..7], ms[7..]);
    assert ms[..7] + ms[7..] == ms;
  }

  lemma HelloWorldTokens(a: char -> bool)
    requires PunctuationNotAlnum(a)
    ensures NonSpace(Scan(HelloWorld, a)) == ["Hello", ",", "\U{4E16}", "\U{754C}", "!", "123", "New", "line", "."]
  {
    HelloWorldScan(a);
    HelloWorldSpaces();
    HelloWorldWords();
    NonSpaceOfThirteen(HelloWorldMatches);
  }

  /** The first example of the tokenizer's tests: whitespace dropped, each
      ideograph a token of its own, punctuation split off. It holds for any
      Unicode database that agrees with Python on which ASCII characters are
      alphanumeric. */
  lemma BasicExample(host: Host)
    requires AsciiAlnum(host.isAlnum)
    ensures Tokens(RegexSettings(Builtin, false, false, false), HelloWorld, host)
         == ["Hello", ",", "\U{4E16}", "\U{754C}", "!", "123", "New", "line", "."]
  {
    assert PunctuationNotAlnum(host.isAlnum);
    HelloWorldChars();
    HelloWorldTokens(host.isAlnum);
  }
}
