/** The built-in pattern of the regex tokenizer, as a scanner that tries the
    alternatives in their priority order at each position:
      one CJK ideograph, one kana, one Hangul syllable;
      a Latin word with at most one apostrophe-joined tail;
      a digit run; an underscore run;
      one character that is neither a word character nor whitespace;
      a whitespace run.
    A position where no alternative matches is skipped, as `finditer` does. */
module DefaultScanner {
  import opened Text

  predicate IsCjk(c: char) { '\U{4E00}' <= c <= '\U{9FFF}' }

  predicate IsKana(c: char) { '\U{3040}' <= c <= '\U{30FF}' }

  predicate IsHangul(c: char) { '\U{AC00}' <= c <= '\U{D7AF}' }

  predicate IsScriptChar(c: char) { IsCjk(c) || IsKana(c) || IsHangul(c) }

  predicate IsUnderscore(c: char) { c == '_' }

  /** `\w`: alphanumeric in the Unicode database, or the underscore. */
  predicate IsWordChar(isAlnum: char -> bool, c: char) { isAlnum(c) || c == '_' }

  /** Python's `str.isalnum` on ASCII: exactly the letters and digits. */
  ghost predicate AsciiAlnum(isAlnum: char -> bool) {
    forall c: char :: c < '\U{80}' ==> (isAlnum(c) <==> IsAsciiLetter(c) || IsAsciiDigit(c))
  }

  /** The end of the run of characters satisfying `p` that starts at `i`. */
  function RunEnd(t: string, i: nat, p: char -> bool): (j: nat)
    requires i <= |t|
    ensures i <= j <= |t|
    ensures forall k :: i <= k < j ==> p(t[k])
    ensures j < |t| ==> !p(t[j])
    decreases |t| - i
  {
    if i < |t| && p(t[i]) then RunEnd(t, i + 1, p) else i
  }

  /** Where the Latin-word alternative's match at `i` ends: after the letter
      run, or after a second letter run when an apostrophe joins them. */
  function WordEnd(t: string, i: nat): (e: nat)
    requires i < |t| && IsAsciiLetter(t[i])
    ensures i < e <= |t|
  {
    var j := RunEnd(t, i, IsAsciiLetter);
    if j + 1 < |t| && t[j] == '\'' && IsAsciiLetter(t[j + 1]) then RunEnd(t, j + 1, IsAsciiLetter) else j
  }

  /** The length of the default pattern's match at position `i`, the first
      alternative that matches winning; 0 when none matches. */
  function MatchLength(t: string, i: nat, isAlnum: char -> bool): (n: nat)
    requires i < |t|
    ensures i + n <= |t|
  {
    var c := t[i];
    if IsScriptChar(c) then 1
    else if IsAsciiLetter(c) then WordEnd(t, i) - i
    else if IsAsciiDigit(c) then RunEnd(t, i, IsAsciiDigit) - i
    else if c == '_' then RunEnd(t, i, IsUnderscore) - i
    else if !IsWordChar(isAlnum, c) && !IsSpace(c) then 1
    else if IsSpace(c) then RunEnd(t, i, IsSpace) - i
    else 0
  }

  /** The matches from position `i` on, left to right and non-overlapping. */
  function ScanFrom(t: string, i: nat, isAlnum: char -> bool): seq<string>
    requires i <= |t|
    decreases |t| - i
  {
    if i == |t| then []
    else
      var n := MatchLength(t, i, isAlnum);
      if n == 0 then ScanFrom(t, i + 1, isAlnum)
      else [t[i..i + n]] + ScanFrom(t, i + n, isAlnum)
  }

  /** `[m.group(0) for m in re.finditer(_DEFAULT_PATTERN, t)]`. */
  function Scan(t: string, isAlnum: char -> bool): seq<string> {
    ScanFrom(t, 0, isAlnum)
  }

  /** Characters some alternative can start a match with. */
  predicate Matchable(isAlnum: char -> bool, c: char) {
    IsScriptChar(c) || IsAsciiLetter(c) || IsAsciiDigit(c) || c == '_' || !IsWordChar(isAlnum, c) || IsSpace(c)
  }

  predicate IsRun(m: string, p: char -> bool) {
    |m| > 0 && forall k :: 0 <= k < |m| ==> p(m[k])
  }

  /** A Latin word: letters, optionally an apostrophe and more letters. */
  predicate IsLatinWord(m: string) {
    IsRun(m, IsAsciiLetter)
    || (var j := RunEnd(m, 0, IsAsciiLetter);
        0 < j < |m| - 1 && m[j] == '\'' && IsRun(m[j + 1..], IsAsciiLetter))
  }

  /** The shapes the alternatives of the default pattern match. */
  predicate IsTokenShape(isAlnum: char -> bool, m: string) {
    || (|m| == 1 && IsScriptChar(m[0]))
    || IsLatinWord(m)
    || IsRun(m, IsAsciiDigit)
    || IsRun(m, IsUnderscore)
    || (|m| == 1 && !IsScriptChar(m[0]) && !IsWordChar(isAlnum, m[0]) && !IsSpace(m[0]))
    || IsRun(m, IsSpace)
  }

  /** The characters of `s` some alternative can match, in order. */
  function Matchables(isAlnum: char -> bool, s: string): (r: string)
    ensures |r| <= |s|
  {
    if s == "" then ""
    else (if Matchable(isAlnum, s[0]) then [s[0]] else "") + Matchables(isAlnum, s[1..])
  }

  function Concat(ms: seq<string>): string {
    if ms == [] then "" else ms[0] + Concat(ms[1..])
  }

  /** The match at `i` comes from the first alternative that applies to
      `t[i]`, and a run or a word is as long as that alternative allows: the
      character after it cannot extend it. A word character that no
      alternative starts with is not matched at all. */
  lemma FirstAlternativeWins(t: string, i: nat, isAlnum: char -> bool)
    requires i < |t|
    ensures var c, n := t[i], MatchLength(t, i, isAlnum);
      var m, e := t[i..i + n], i + n;
      && (IsScriptChar(c) ==> n == 1)
      && (IsAsciiLetter(c) ==>
            && IsLatinWord(m)
            && (e < |t| ==> !IsAsciiLetter(t[e]))
            && ('\'' !in m && e + 1 < |t| && t[e] == '\'' ==> !IsAsciiLetter(t[e + 1])))
      && (IsAsciiDigit(c) ==> IsRun(m, IsAsciiDigit) && (e < |t| ==> !IsAsciiDigit(t[e])))
      && (c == '_' ==> IsRun(m, IsUnderscore) && (e < |t| ==> t[e] != '_'))
      && (!Matchable(isAlnum, c) <==> n == 0)
      && (Matchable(isAlnum, c) && !IsScriptChar(c) && !IsAsciiLetter(c) && !IsAsciiDigit(c) && c != '_' && !IsSpace(c) ==> n == 1)
      && (IsSpace(c) ==> IsRun(m, IsSpace) && (e < |t| ==> !IsSpace(t[e])))
  {
    var c := t[i];
    if IsAsciiLetter(c) {
      LetterAlternative(t, i, isAlnum);
    }
    if IsAsciiDigit(c) {
      RunAlternative(t, i, isAlnum, IsAsciiDigit);
    }
    if c == '_' {
      RunAlternative(t, i, isAlnum, IsUnderscore);
    }
    if IsSpace(c) {
      RunAlternative(t, i, isAlnum, IsSpace);
    }
    MatchableAlternative(t, i, isAlnum);
  }

  /** A letter starts the Latin-word alternative. */
  lemma LetterAlternative(t: string, i: nat, isAlnum: char -> bool)
    requires i < |t| && IsAsciiLetter(t[i])
    ensures var n := MatchLength(t, i, isAlnum);
      var m, e := t[i..i + n], i + n;
      && IsLatinWord(m)
      && (e < |t| ==> !IsAsciiLetter(t[e]))
      && ('\'' !in m && e + 1 < |t| && t[e] == '\'' ==> !IsAsciiLetter(t[e + 1]))
  {
    assert MatchLength(t, i, isAlnum) == WordEnd(t, i) - i;
    LetterMaximal(t, i);
  }

  /** A digit, an underscore or a whitespace character starts its run alternative. */
  lemma RunAlternative(t: string, i: nat, isAlnum: char -> bool, p: char -> bool)
    requires i < |t|
    requires p == IsAsciiDigit || p == IsUnderscore || p == IsSpace
    requires p(t[i])
    ensures var e := i + MatchLength(t, i, isAlnum);
      IsRun(t[i..e], p) && (e < |t| ==> !p(t[e]))
  {
    assert MatchLength(t, i, isAlnum) == RunEnd(t, i, p) - i;
    RunMaximal(t, i, p);
  }

  /** Script characters and symbols are single-character matches, and only
      characters no alternative starts with give no match. */
  lemma MatchableAlternative(t: string, i: nat, isAlnum: char -> bool)
    requires i < |t|
    ensures var c, n := t[i], MatchLength(t, i, isAlnum);
      && (IsScriptChar(c) ==> n == 1)
      && (!Matchable(isAlnum, c) <==> n == 0)
      && (Matchable(isAlnum, c) && !IsScriptChar(c) && !IsAsciiLetter(c) && !IsAsciiDigit(c) && c != '_' && !IsSpace(c) ==> n == 1)
  {
  }

  /** A run alternative matches a run the next character cannot extend. */
  lemma RunMaximal(t: string, i: nat, p: char -> bool)
    requires i < |t| && p(t[i])
    ensures var e := RunEnd(t, i, p);
      IsRun(t[i..e], p) && (e < |t| ==> !p(t[e]))
  {
    RunShape(t, i, p);
  }

  /** The Latin-word alternative matches a word no longer word can replace. */
  lemma LetterMaximal(t: string, i: nat)
    requires i < |t| && IsAsciiLetter(t[i])
    ensures var e := WordEnd(t, i); var m := t[i..e];
      && IsLatinWord(m)
      && (e < |t| ==> !IsAsciiLetter(t[e]))
      && ('\'' !in m && e + 1 < |t| && t[e] == '\'' ==> !IsAsciiLetter(t[e + 1]))
  {
    WordEndShape(t, i);
    var j := RunEnd(t, i, IsAsciiLetter);
    if j + 1 < |t| && t[j] == '\'' && IsAsciiLetter(t[j + 1]) {
      assert t[i..WordEnd(t, i)][j - i] == '\'';
    }
  }

  lemma MatchShape(t: string, i: nat, isAlnum: char -> bool)
    requires i < |t| && MatchLength(t, i, isAlnum) > 0
    ensures IsTokenShape(isAlnum, t[i..i + MatchLength(t, i, isAlnum)])
  {
    var c := t[i];
    if IsScriptChar(c) || IsAsciiLetter(c) {
      WordShape(t, i, isAlnum);
    } else if IsAsciiDigit(c) || c == '_' {
      DigitOrUnderscoreShape(t, i, isAlnum);
    } else {
      OtherShape(t, i, isAlnum);
    }
  }

  lemma WordShape(t: string, i: nat, isAlnum: char -> bool)
    requires i < |t| && (IsScriptChar(t[i]) || IsAsciiLetter(t[i]))
    ensures IsTokenShape(isAlnum, t[i..i + MatchLength(t, i, isAlnum)])
  {
    if !IsScriptChar(t[i]) {
      LetterShape(t, i, isAlnum);
    }
  }

  lemma LetterShape(t: string, i: nat, isAlnum: char -> bool)
    requires i < |t| && !IsScriptChar(t[i]) && IsAsciiLetter(t[i])
    ensures IsTokenShape(isAlnum, t[i..i + MatchLength(t, i, isAlnum)])
  {
    var n := MatchLength(t, i, isAlnum);
    assert i + n == WordEnd(t, i);
    WordEndShape(t, i);
    LatinWordShape(isAlnum, t[i..i + n]);
  }

  /** The Latin-word alternative matches a Latin word. */
  lemma WordEndShape(t: string, i: nat)
    requires i < |t| && IsAsciiLetter(t[i])
    ensures IsLatinWord(t[i..WordEnd(t, i)])
  {
    var j := RunEnd(t, i, IsAsciiLetter);
    if j + 1 < |t| && t[j] == '\'' && IsAsciiLetter(t[j + 1]) {
      ApostropheWordShape(t, i, j);
    } else {
      RunShape(t, i, IsAsciiLetter);
    }
  }

  lemma LatinWordShape(isAlnum: char -> bool, m: string)
    requires IsLatinWord(m)
    ensures IsTokenShape(isAlnum, m)
  {
  }

  lemma DigitOrUnderscoreShape(t: string, i: nat, isAlnum: char -> bool)
    requires i < |t| && (IsAsciiDigit(t[i]) || t[i] == '_')
    ensures IsTokenShape(isAlnum, t[i..i + MatchLength(t, i, isAlnum)])
  {
    if IsAsciiDigit(t[i]) {
      RunShape(t, i, IsAsciiDigit);
    } else {
      RunShape(t, i, IsUnderscore);
    }
  }

  lemma OtherShape(t: string, i: nat, isAlnum: char -> bool)
    requires i < |t| && !IsScriptChar(t[i]) && !IsAsciiLetter(t[i]) && !IsAsciiDigit(t[i]) && t[i] != '_'
    requires MatchLength(t, i, isAlnum) > 0
    ensures IsTokenShape(isAlnum, t[i..i + MatchLength(t, i, isAlnum)])
  {
    if IsSpace(t[i]) {
      RunShape(t, i, IsSpace);
    }
  }

  /** A run alternative matches a run. */
  lemma RunShape(t: string, i: nat, p: char -> bool)
    requires i < |t| && p(t[i])
    ensures IsRun(t[i..RunEnd(t, i, p)], p)
  {
    var m := t[i..RunEnd(t, i, p)];
    assert forall k :: 0 <= k < |m| ==> m[k] == t[i + k];
  }

  /** The Latin-word alternative with its apostrophe tail matches a Latin word. */
  lemma ApostropheWordShape(t: string, i: nat, j: nat)
    requires i < |t| && IsAsciiLetter(t[i]) && j == RunEnd(t, i, IsAsciiLetter)
    requires j + 1 < |t| && t[j] == '\'' && IsAsciiLetter(t[j + 1])
    ensures IsLatinWord(t[i..RunEnd(t, j + 1, IsAsciiLetter)])
  {
    var e := RunEnd(t, j + 1, IsAsciiLetter);
    var m := t[i..e];
    RunEndOfSlice(t, i, e, IsAsciiLetter);
    assert m[j - i] == '\'';
    RunShape(t, j + 1, IsAsciiLetter);
    assert m[j - i + 1..] == t[j + 1..e];
  }

  /** Within a slice that starts with a run, the run ends where it ends in
      the whole string (or at the end of the slice). */
  lemma RunEndOfSlice(t: string, i: nat, e: nat, p: char -> bool)
    requires i <= e <= |t|
    requires RunEnd(t, i, p) < e
    ensures RunEnd(t[i..e], 0, p) == RunEnd(t, i, p) - i
  {
    var m := t[i..e];
    assert forall k :: 0 <= k < |m| ==> m[k] == t[i + k];
  }

  /** Every match has one of the shapes of the pattern's alternatives. */
  lemma ScanShapes(t: string, i: nat, isAlnum: char -> bool)
    requires i <= |t|
    ensures forall m :: m in ScanFrom(t, i, isAlnum) ==> IsTokenShape(isAlnum, m)
  {
    ScanAllShaped(t, i, isAlnum);
    AllShapedMembers(isAlnum, ScanFrom(t, i, isAlnum));
  }

  /** Each string of `ms` has a token shape, stated one string at a time. */
  predicate AllShaped(isAlnum: char -> bool, ms: seq<string>)
    decreases |ms|
  {
    ms == [] || (IsTokenShape(isAlnum, ms[0]) && AllShaped(isAlnum, ms[1..]))
  }

  lemma {:induction false} ScanAllShaped(t: string, i: nat, isAlnum: char -> bool)
    requires i <= |t|
    ensures AllShaped(isAlnum, ScanFrom(t, i, isAlnum))
    decreases |t| - i
  {
    if i < |t| {
      var n := MatchLength(t, i, isAlnum);
      if n == 0 {
        ScanFromStep(t, i, isAlnum);
        ScanAllShaped(t, i + 1, isAlnum);
      } else {
        HeadShaped(t, i, isAlnum);
        ScanAllShaped(t, i + n, isAlnum);
      }
    }
  }

  /** A match is the first string of the scan from its position, and has a
      token shape. */
  lemma HeadShaped(t: string, i: nat, isAlnum: char -> bool)
    requires i < |t| && MatchLength(t, i, isAlnum) > 0
    ensures var ms := ScanFrom(t, i, isAlnum);
      |ms| > 0 && IsTokenShape(isAlnum, ms[0]) && ms[1..] == ScanFrom(t, i + MatchLength(t, i, isAlnum), isAlnum)
  {
    var n := MatchLength(t, i, isAlnum);
    ScanFromStep(t, i, isAlnum);
    MatchShape(t, i, isAlnum);
    var ms := ScanFrom(t, i, isAlnum);
    assert ms[0] == t[i..i + n];
  }

  lemma {:induction false} AllShapedMembers(isAlnum: char -> bool, ms: seq<string>)
    requires AllShaped(isAlnum, ms)
    ensures forall m :: m in ms ==> IsTokenShape(isAlnum, m)
    decreases |ms|
  {
    if ms != [] {
      AllShapedMembers(isAlnum, ms[1..]);
      assert forall m :: m in ms ==> m == ms[0] || m in ms[1..];
    }
  }

  /** The priority of the script alternatives: a CJK, kana or Hangul
      character is always a token of its own. */
  lemma ScriptCharsStandAlone(t: string, isAlnum: char -> bool)
    ensures forall m, k :: m in Scan(t, isAlnum) && 0 <= k < |m| && IsScriptChar(m[k]) ==> m == [m[k]]
  {
    ScanShapes(t, 0, isAlnum);
    forall m, k | m in Scan(t, isAlnum) && 0 <= k < |m| && IsScriptChar(m[k])
      ensures m == [m[k]]
    {
      assert IsTokenShape(isAlnum, m);
    }
  }
  lemma {:induction false} MatchablesAppend(isAlnum: char -> bool, a: string, b: string)
    ensures Matchables(isAlnum, a + b) == Matchables(isAlnum, a) + Matchables(isAlnum, b)
  {
    if a == "" {
      assert a + b == b;
    } else {
      var ab := a + b;
      assert ab[0] == a[0] && ab[1..] == a[1..] + b;
      var head := if Matchable(isAlnum, a[0]) then [a[0]] else "";
      assert Matchables(isAlnum, ab) == head + Matchables(isAlnum, a[1..] + b);
      MatchablesAppend(isAlnum, a[1..], b);
      assert Matchables(isAlnum, a) == head + Matchables(isAlnum, a[1..]);
    }
  }

  lemma {:induction false} MatchablesOfMatchable(isAlnum: char -> bool, s: string)
    requires forall k :: 0 <= k < |s| ==> Matchable(isAlnum, s[k])
    ensures Matchables(isAlnum, s) == s
  {
    if s != "" {
      MatchablesOfMatchable(isAlnum, s[1..]);
    }
  }

  /** A match consists of matchable characters only; a position without a
      match holds a character no alternative can start with. */
  lemma MatchMatchable(t: string, i: nat, isAlnum: char -> bool)
    requires i < |t| && !isAlnum('\'')
    ensures var n := MatchLength(t, i, isAlnum);
      && (n == 0 <==> !Matchable(isAlnum, t[i]))
      && forall k :: i <= k < i + n ==> Matchable(isAlnum, t[k])
  {
  }

  /** Nothing is lost but the characters no alternative matches: the
      matches, joined, are the matchable characters of the text in order. */
  lemma {:induction false} ScanCovers(t: string, i: nat, isAlnum: char -> bool)
    requires i <= |t| && !isAlnum('\'')
    ensures Concat(ScanFrom(t, i, isAlnum)) == Matchables(isAlnum, t[i..])
    decreases |t| - i
  {
    if i < |t| {
      var n := MatchLength(t, i, isAlnum);
      MatchMatchable(t, i, isAlnum);
      ScanFromStep(t, i, isAlnum);
      var next := if n == 0 then i + 1 else i + n;
      ScanCovers(t, next, isAlnum);
      CoverCase(isAlnum, t, i, n, ScanFrom(t, i, isAlnum), ScanFrom(t, next, isAlnum));
    }
  }

  /** One step of the scanner: a position without a match is skipped. */
  lemma ScanFromStep(t: string, i: nat, isAlnum: char -> bool)
    requires i < |t|
    ensures var n := MatchLength(t, i, isAlnum);
      ScanFrom(t, i, isAlnum) == if n == 0 then ScanFrom(t, i + 1, isAlnum) else [t[i..i + n]] + ScanFrom(t, i + n, isAlnum)
  {
  }

  /** The matches from `i` on, given the first step and the matches after it. */
  lemma CoverCase(isAlnum: char -> bool, t: string, i: nat, n: nat, scanned: seq<string>, tail: seq<string>)
    requires i < |t| && i + n <= |t|
    requires n == 0 ==> !Matchable(isAlnum, t[i]) && scanned == tail && Concat(tail) == Matchables(isAlnum, t[i + 1..])
    requires n > 0 ==> && (forall k :: i <= k < i + n ==> Matchable(isAlnum, t[k]))
                       && scanned == [t[i..i + n]] + tail && Concat(tail) == Matchables(isAlnum, t[i + n..])
    ensures Concat(scanned) == Matchables(isAlnum, t[i..])
  {
    if n == 0 {
      assert t[i..][0] == t[i] && t[i..][1..] == t[i + 1..];
    } else {
      var m := t[i..i + n];
      assert t[i..] == m + t[i + n..];
      assert forall k :: 0 <= k < |m| ==> m[k] == t[i + k];
      MatchablesAppend(isAlnum, m, t[i + n..]);
      MatchablesOfMatchable(isAlnum, m);
      assert scanned[0] == m && scanned[1..] == tail;
    }
  }
}
