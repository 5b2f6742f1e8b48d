/** UTF-8 as section 3 of RFC 3629 defines it: the encoding `str.encode("utf-8")`
    produces, and the strict decoding `bytes.decode("utf-8")` performs. */
module Utf8 {
  import opened Wrappers

  type uint8 = b: int | 0 <= b < 256

  /** Number of octets RFC 3629 uses for a character. */
  function Width(c: char): nat {
    var cp := c as int;
    if cp < 0x80 then 1 else if cp < 0x800 then 2 else if cp < 0x10000 then 3 else 4
  }

  predicate IsContinuation(b: uint8) { 0x80 <= b < 0xC0 }

  /** The six payload bits of an octet (meaningful for a continuation octet). */
  function Low(b: uint8): int { (b as int) - 0x80 }

  /** The octets of one character, lead octet first. */
  function EncodeChar(c: char): (r: seq<uint8>)
    ensures |r| == Width(c)
    ensures forall k :: 1 <= k < |r| ==> IsContinuation(r[k])
  {
    var cp := c as int;
    if cp < 0x80 then [cp]
    else if cp < 0x800 then [0xC0 + cp / 64, 0x80 + cp % 64]
    else if cp < 0x10000 then [0xE0 + cp / 4096, 0x80 + (cp / 64) % 64, 0x80 + cp % 64]
    else [0xF0 + cp / 262144, 0x80 + (cp / 4096) % 64, 0x80 + (cp / 64) % 64, 0x80 + cp % 64]
  }

  /** The UTF-8 encoding of a string: the characters' octets, in order. */
  function Encode(s: string): seq<uint8>
  {
    if s == "" then [] else EncodeChar(s[0]) + Encode(s[1..])
  }

  /** The sum of the characters' widths. */
  function TotalWidth(s: string): nat
  {
    if s == "" then 0 else Width(s[0]) + TotalWidth(s[1..])
  }

  /** Decodes the character at the front of `b`, with the number of octets it
      used; None for an ill-formed sequence (a stray continuation octet, a
      truncated sequence, an overlong form, a surrogate or a value above
      U+10FFFF). */
  function DecodeChar(b: seq<uint8>): (r: Option<(char, nat)>)
    requires |b| > 0
    ensures r.Some? ==> 1 <= r.value.1 <= |b| && r.value.1 <= 4
  {
    var b0 := b[0] as int;
    if b0 < 0x80 then Some((b0 as char, 1))
    else if 0xC2 <= b0 < 0xE0 then
      if |b| < 2 || !IsContinuation(b[1]) then None
      else Some((((b0 - 0xC0) * 64 + Low(b[1])) as char, 2))
    else if 0xE0 <= b0 < 0xF0 then
      if |b| < 3 || !IsContinuation(b[1]) || !IsContinuation(b[2]) then None
      else
        var cp := (b0 - 0xE0) * 4096 + Low(b[1]) * 64 + Low(b[2]);
        if cp < 0x800 || (0xD800 <= cp < 0xE000) then None else Some((cp as char, 3))
    else if 0xF0 <= b0 < 0xF5 then
      if |b| < 4 || !IsContinuation(b[1]) || !IsContinuation(b[2]) || !IsContinuation(b[3]) then None
      else
        var cp := (b0 - 0xF0) * 262144 + Low(b[1]) * 4096 + Low(b[2]) * 64 + Low(b[3]);
        if cp < 0x10000 || cp >= 0x110000 then None else Some((cp as char, 4))
    else None
  }

  /** Strict decoding of a whole octet sequence. */
  function Decode(b: seq<uint8>): Option<string>
    decreases |b|
  {
    if b == [] then Some("")
    else
      var front :- DecodeChar(b);
      var rest :- Decode(b[front.1..]);
      Some([front.0] + rest)
  }

  lemma DivMod64(x: nat)
    ensures x == (x / 64) * 64 + x % 64
    ensures x / 4096 == (x / 64) / 64
    ensures x / 262144 == (x / 4096) / 64
  {
  }

  /** Decoding the octets of one character gives that character back and
      consumes exactly its width, whatever follows. */
  lemma DecodeEncodeChar(c: char, rest: seq<uint8>)
    ensures DecodeChar(EncodeChar(c) + rest) == Some((c, Width(c)))
  {
    var cp := c as int;
    var b := EncodeChar(c) + rest;
    DivMod64(cp);
    DivMod64(cp / 64);
    DivMod64(cp / 4096);
    if cp < 0x80 {
    } else if cp < 0x800 {
      assert (b[0] as int - 0xC0) * 64 + Low(b[1]) == cp;
    } else if cp < 0x10000 {
      assert (b[0] as int - 0xE0) * 4096 + Low(b[1]) * 64 + Low(b[2]) == cp;
    } else {
      assert (b[0] as int - 0xF0) * 262144 + Low(b[1]) * 4096 + Low(b[2]) * 64 + Low(b[3]) == cp;
    }
  }

  /** Round trip: decoding the encoding of a string gives the string back. */
  lemma {:induction false} DecodeEncode(s: string)
    ensures Decode(Encode(s)) == Some(s)
  {
    if s != "" {
      var tail := Encode(s[1..]);
      DecodeEncodeChar(s[0], tail);
      assert (EncodeChar(s[0]) + tail)[Width(s[0])..] == tail;
      DecodeEncode(s[1..]);
      assert [s[0]] + s[1..] == s;
    }
  }

  /** The encoding is injective: distinct texts never share a token list. */
  lemma EncodeInjective(a: string, b: string)
    requires Encode(a) == Encode(b)
    ensures a == b
  {
    DecodeEncode(a);
    DecodeEncode(b);
  }

  /** Encoding distributes over concatenation. */
  lemma {:induction false} EncodeAppend(a: string, b: string)
    ensures Encode(a + b) == Encode(a) + Encode(b)
  {
    if a == "" {
      assert a + b == b;
    } else {
      assert (a + b)[0] == a[0];
      assert (a + b)[1..] == a[1..] + b;
      EncodeAppend(a[1..], b);
    }
  }

  /** The encoding has one octet per unit of width, so between one and four
      octets per character. */
  lemma {:induction false} EncodeLength(s: string)
    ensures |Encode(s)| == TotalWidth(s)
    ensures |s| <= |Encode(s)| <= 4 * |s|
  {
    if s != "" {
      EncodeLength(s[1..]);
    }
  }

  /** ASCII text is encoded as its own code points, one octet each. */
  lemma {:induction false} EncodeAscii(s: string)
    requires forall k :: 0 <= k < |s| ==> (s[k] as int) < 0x80
    ensures |Encode(s)| == |s|
    ensures forall k :: 0 <= k < |s| ==> Encode(s)[k] == s[k] as int
  {
    if s != "" {
      EncodeAscii(s[1..]);
      assert Encode(s) == [s[0] as int] + Encode(s[1..]);
    }
  }
}
