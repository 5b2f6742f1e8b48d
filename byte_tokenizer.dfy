/** The tokenizer that emits one token per UTF-8 octet. */
module ByteTokenizing {
  import opened Wrappers
  import opened JsonValues
  import opened Utf8

  /** The name the adapter takes when none is given. */
  const DefaultName := JStr("byte-tokenizer")

  class ByteTokenizer {
    const name: Json

    constructor(name: Json)
      ensures this.name == name
    {
      this.name := name;
    }

    /** `ByteTokenizer.tokenize`: the octets of `text.encode("utf-8")`, which
        decode back to the text, between one and four per character. */
    function Tokenize(text: string): (r: seq<uint8>)
      ensures text == "" ==> r == []
      ensures Decode(r) == Some(text)
      ensures |text| <= |r| <= 4 * |text|
    {
      if text == "" then []
      else
        DecodeEncode(text);
        EncodeLength(text);
        Encode(text)
    }
  }
}
