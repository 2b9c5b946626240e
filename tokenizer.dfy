/** The placeholder tokenizer: every character of the text is one token, its numeric value. */
module Tokenization {

  /** A C++ `char` on the platforms the engine targets: a signed 8-bit value. */
  type Char8 = c: int | -0x80 <= c < 0x80

  /** `static_cast<char>(token)`: the token reduced modulo 256 into the signed range, so a value
      that already is a `char` is kept. */
  function ToChar(token: int): (c: Char8)
    ensures -0x80 <= token < 0x80 ==> c == token
    ensures (token - c) % 0x100 == 0
  {
    (token + 0x80) % 0x100 - 0x80
  }

  /** The tokens of `text`, built one `push_back` at a time. */
  function Encoded(text: seq<Char8>): (tokens: seq<int>)
    ensures |tokens| == |text|
    ensures forall i :: 0 <= i < |text| ==> tokens[i] == text[i]
  {
    if text == [] then [] else Encoded(text[..|text| - 1]) + [text[|text| - 1]]
  }

  /** The text of `tokens`, built one `+=` at a time. */
  function Decoded(tokens: seq<int>): (text: seq<Char8>)
    ensures |text| == |tokens|
    ensures forall i :: 0 <= i < |tokens| ==> text[i] == ToChar(tokens[i])
  {
    if tokens == [] then [] else Decoded(tokens[..|tokens| - 1]) + [ToChar(tokens[|tokens| - 1])]
  }

  /** Decoding the encoding of any text gives the text back. */
  lemma DecodeEncode(text: seq<Char8>)
    ensures Decoded(Encoded(text)) == text
  {
  }

  /** Encoding the decoding of tokens gives the tokens back exactly when every token is a
      `char` value; any other token comes back reduced modulo 256. */
  lemma EncodeDecode(tokens: seq<int>)
    ensures Encoded(Decoded(tokens)) == tokens <==>
      forall i :: 0 <= i < |tokens| ==> -0x80 <= tokens[i] < 0x80
  {
    if Encoded(Decoded(tokens)) == tokens {
      forall i | 0 <= i < |tokens|
        ensures -0x80 <= tokens[i] < 0x80
      {
        assert Encoded(Decoded(tokens))[i] == Decoded(tokens)[i];
      }
    }
  }

  class Tokenizer {
    /** `vocab_size()`. */
    const vocabSize: int

    /** `Tokenizer()`: no vocabulary. */
    constructor Empty()
      ensures vocabSize == 0
    {
      vocabSize := 0;
    }

    /** `Tokenizer(vocab_size)`. */
    constructor (vocabSize: int)
      ensures this.vocabSize == vocabSize
    {
      this.vocabSize := vocabSize;
    }

    /** `encode`: one token per character, the character's value. */
    method Encode(text: seq<Char8>) returns (tokens: seq<int>)
      ensures tokens == Encoded(text)
    {
      tokens := [];
      for i := 0 to |text|
        invariant tokens == Encoded(text[..i])
      {
        assert text[..i + 1][..i] == text[..i];
        tokens := tokens + [text[i]];
      }
      assert text[..|text|] == text;
    }

    /** `decode`: one character per token. */
    method Decode(tokens: seq<int>) returns (text: seq<Char8>)
      ensures text == Decoded(tokens)
    {
      text := [];
      for i := 0 to |tokens|
        invariant text == Decoded(tokens[..i])
      {
        assert tokens[..i + 1][..i] == tokens[..i];
        text := text + [ToChar(tokens[i])];
      }
      assert tokens[..|tokens|] == tokens;
    }
  }
}
