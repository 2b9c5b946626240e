/** The on-disk header of a DaisoML model file: a magic number, a format version and seven
    configuration fields, each a 32-bit word.  The writer and the loader copy the record's raw
    bytes, so the byte form is the nine words in declaration order, each little-endian. */
module FileFormat {

  type Byte = b: int | 0 <= b < 0x100
  type U32 = x: int | 0 <= x < 0x1_0000_0000
  type I32 = x: int | -0x8000_0000 <= x < 0x8000_0000

  /** Identifies a DaisoML file.  Its value spells "dais" when the word is read from its most
      significant byte down; the little-endian file holds the bytes in the opposite order. */
  const DAISO_MAGIC: U32 := 0x64616973

  /** The only version `load_weights` accepts. */
  const SUPPORTED_VERSION: I32 := 1

  /** Nine 32-bit fields. */
  const HEADER_BYTES: nat := 36

  /** `DaisoModelHeader`. */
  datatype Header = Header(
    magic: U32,
    version: I32,
    dim: I32,         // transformer dimension
    hiddenDim: I32,   // feed-forward hidden dimension
    nLayers: I32,
    nHeads: I32,      // query heads
    nKvHeads: I32,    // key/value heads
    vocabSize: I32,
    seqLen: I32       // maximum sequence length
  )

  /** The four bytes of a word, least significant first. */
  function WordBytes(x: U32): (b: seq<Byte>)
    ensures |b| == 4
  {
    [x % 0x100, x / 0x100 % 0x100, x / 0x1_0000 % 0x100, x / 0x100_0000]
  }

  /** The word whose little-endian bytes are `b`. */
  function WordOf(b: seq<Byte>): (x: U32)
    requires |b| == 4
  {
    b[0] as int + 0x100 * b[1] as int + 0x1_0000 * b[2] as int + 0x100_0000 * b[3] as int
  }

  lemma WordOfWordBytes(x: U32)
    ensures WordOf(WordBytes(x)) == x
  {
    var q1, q2 := x / 0x100, x / 0x1_0000;
    assert q2 == q1 / 0x100;
    assert x / 0x100_0000 == q2 / 0x100;
    assert x == x % 0x100 + 0x100 * q1;
    assert q1 == q1 % 0x100 + 0x100 * q2;
    assert q2 == q2 % 0x100 + 0x100 * (x / 0x100_0000);
  }

  lemma WordBytesWordOf(b: seq<Byte>)
    requires |b| == 4
    ensures WordBytes(WordOf(b)) == b
  {
    var x := WordOf(b);
    DivDigits(x, b[0], b[1] as int + 0x100 * b[2] as int + 0x1_0000 * b[3] as int);
    DivDigits(x / 0x100, b[1], b[2] as int + 0x100 * b[3] as int);
    DivDigits(x / 0x1_0000, b[2], b[3]);
    assert x / 0x1_0000 == x / 0x100 / 0x100;
    assert x / 0x100_0000 == x / 0x1_0000 / 0x100;
  }

  /** The low byte and the rest of `lo + 256 * hi`, for a byte `lo`. */
  lemma DivDigits(n: int, lo: int, hi: int)
    requires 0 <= lo < 0x100 && 0 <= hi && n == lo + 0x100 * hi
    ensures n % 0x100 == lo && n / 0x100 == hi
  {
  }

  /** Bit pattern of a signed field: two's complement. */
  function Bits(x: I32): (u: U32)
    ensures x >= 0 ==> u == x
  {
    if x < 0 then x + 0x1_0000_0000 else x
  }

  /** The signed field stored in a bit pattern. */
  function Signed(u: U32): (x: I32)
    ensures u < 0x8000_0000 ==> x == u
  {
    if u >= 0x8000_0000 then u - 0x1_0000_0000 else u
  }

  lemma SignedBits(x: I32)
    ensures Signed(Bits(x)) == x
  {
  }

  lemma BitsSigned(u: U32)
    ensures Bits(Signed(u)) == u
  {
  }

  /** The words of a sequence of words, little-endian, one after the other. */
  function WordsBytes(ws: seq<U32>): (b: seq<Byte>)
    ensures |b| == 4 * |ws|
  {
    if ws == [] then [] else WordBytes(ws[0]) + WordsBytes(ws[1..])
  }

  /** The words a byte string holds, four bytes each. */
  function Words(b: seq<Byte>): (ws: seq<U32>)
    requires |b| % 4 == 0
    ensures |ws| == |b| / 4
  {
    if b == [] then [] else [WordOf(b[..4])] + Words(b[4..])
  }

  lemma {:induction false} WordsWordsBytes(ws: seq<U32>)
    ensures Words(WordsBytes(ws)) == ws
  {
    if ws != [] {
      var b := WordsBytes(ws);
      assert b[..4] == WordBytes(ws[0]);
      assert b[4..] == WordsBytes(ws[1..]);
      WordOfWordBytes(ws[0]);
      WordsWordsBytes(ws[1..]);
    }
  }

  lemma {:induction false} WordsBytesWords(b: seq<Byte>)
    requires |b| % 4 == 0
    ensures WordsBytes(Words(b)) == b
  {
    if b != [] {
      var ws := Words(b);
      assert ws[0] == WordOf(b[..4]);
      assert ws[1..] == Words(b[4..]);
      WordBytesWordOf(b[..4]);
      WordsBytesWords(b[4..]);
      assert b == b[..4] + b[4..];
    }
  }

  /** The fields of the record in declaration order, as stored. */
  function HeaderWords(h: Header): (ws: seq<U32>)
    ensures |ws| == 9 && ws[0] == h.magic
  {
    [h.magic, Bits(h.version), Bits(h.dim), Bits(h.hiddenDim), Bits(h.nLayers), Bits(h.nHeads),
     Bits(h.nKvHeads), Bits(h.vocabSize), Bits(h.seqLen)]
  }

  function HeaderOfWords(ws: seq<U32>): (h: Header)
    requires |ws| == 9
    ensures h.magic == ws[0]
  {
    Header(ws[0], Signed(ws[1]), Signed(ws[2]), Signed(ws[3]), Signed(ws[4]), Signed(ws[5]),
           Signed(ws[6]), Signed(ws[7]), Signed(ws[8]))
  }

  /** The bytes the writer emits for a header. */
  function Encode(h: Header): (b: seq<Byte>)
    ensures |b| == HEADER_BYTES
  {
    WordsBytes(HeaderWords(h))
  }

  /** The header the loader reads from the first 36 bytes of the file. */
  function Decode(b: seq<Byte>): Header
    requires |b| == HEADER_BYTES
  {
    HeaderOfWords(Words(b))
  }

  /** Reading back what the writer wrote gives the same record. */
  lemma DecodeEncode(h: Header)
    ensures Decode(Encode(h)) == h
  {
    WordsWordsBytes(HeaderWords(h));
    SignedBits(h.version);
    SignedBits(h.dim);
    SignedBits(h.hiddenDim);
    SignedBits(h.nLayers);
    SignedBits(h.nHeads);
    SignedBits(h.nKvHeads);
    SignedBits(h.vocabSize);
    SignedBits(h.seqLen);
  }

  /** Every 36-byte string is the encoding of exactly the header it decodes to. */
  lemma EncodeDecode(b: seq<Byte>)
    requires |b| == HEADER_BYTES
    ensures Encode(Decode(b)) == b
  {
    var ws := Words(b);
    forall i | 1 <= i < 9
      ensures Bits(Signed(ws[i])) == ws[i]
    {
      BitsSigned(ws[i]);
    }
    assert HeaderWords(HeaderOfWords(ws)) == ws;
    WordsBytesWords(b);
  }

  /** The magic number's bytes as they appear at the start of the file: "siad". */
  lemma MagicOnDisk()
    ensures WordBytes(DAISO_MAGIC) == [0x73, 0x69, 0x61, 0x64]
  {
  }
}
