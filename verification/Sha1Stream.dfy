/**
 The streaming digest object: bytes are fed in any split, whole blocks are hashed
 as they fill up, and the final call pads what is left.
 */
module Sha1Stream {
  import opened SecureHash
  import opened Sha1

  // ----- bytes and words ---------------------------------------------------

  lemma WordsAppend(p: seq<Byte>, q: seq<Byte>)
    requires |p| % 4 == 0 && |q| % 4 == 0
    ensures (|p| + |q|) % 4 == 0 && Words(p + q) == Words(p) + Words(q)
  {
    hide BigEndian;
    var n := |p| / 4;
    assert |p| == 4 * n;
    forall i | 0 <= i < (|p| + |q|) / 4 ensures Words(p + q)[i] == (Words(p) + Words(q))[i] {
      if i >= n {
        assert 4 * i - |p| == 4 * (i - n);
        assert (p + q)[4 * i] == q[4 * (i - n)] && (p + q)[4 * i + 1] == q[4 * (i - n) + 1];
        assert (p + q)[4 * i + 2] == q[4 * (i - n) + 2] && (p + q)[4 * i + 3] == q[4 * (i - n) + 3];
      }
    }
  }

  lemma HashBlocksAppend(h: Registers, w: seq<Word>, last: seq<Word>)
    requires |w| % 16 == 0 && |last| == 16
    ensures (|w| + 16) % 16 == 0 && HashBlocks(h, w + last) == Compress(HashBlocks(h, w), last)
  {
    hide Compress;
    var all := w + last;
    assert all[..|all| - 16] == w && all[|all| - 16..] == last;
  }

  lemma Quarter(q: nat)
    ensures (64 * q) % 4 == 0 && (64 * q) / 4 == 16 * q
  {
    assert 64 * q == 4 * (16 * q);
  }

  lemma MultipleOf64(q: nat)
    ensures (64 * q) % 64 == 0
  {
  }

  lemma MultipleOf16(q: nat)
    ensures (16 * q) % 16 == 0
  {
  }

  /** Length of the part that is hashed: the whole blocks. */
  function Whole(n: nat): (m: nat)
    ensures m % 64 == 0 && m <= n < m + 64 && m % 4 == 0 && (m / 4) % 16 == 0
  {
    Quarter(n / 64);
    MultipleOf64(n / 64);
    MultipleOf16(n / 64);
    64 * (n / 64)
  }

  /** The registers after the whole blocks of a message. */
  function HashWhole(message: seq<Byte>): Registers {
    HashBlocks(INITIAL, Words(message[..Whole(|message|)]))
  }

  lemma WholeGrows(n: nat, k: nat)
    requires n % 64 + k < 64
    ensures Whole(n + k) == Whole(n)
    ensures n % 64 + k == n + k - Whole(n)
  {
    var q := n / 64;
    assert n + k == 64 * q + (n % 64 + k);
    assert (n + k) / 64 == q;
  }

  lemma WholeSteps(n: nat, k: nat)
    requires n % 64 + k == 64
    ensures Whole(n + k) == Whole(n) + 64 && n + k == Whole(n) + 64
  {
    assert n + k == 64 * (n / 64 + 1);
    assert (n + k) / 64 == n / 64 + 1;
  }

  /** Bytes that do not fill a block leave the registers alone. */
  lemma HashWholeStays(message: seq<Byte>, more: seq<Byte>)
    requires |message| % 64 + |more| < 64
    ensures HashWhole(message + more) == HashWhole(message)
  {
    hide Words, HashBlocks, Whole;
    WholeGrows(|message|, |more|);
    var m := Whole(|message|);
    assert (message + more)[..m] == message[..m];
  }

  /** Bytes that fill a block compress it. */
  lemma HashWholeSteps(message: seq<Byte>, more: seq<Byte>)
    requires |message| % 64 + |more| == 64
    ensures var last := message[Whole(|message|)..] + more;
            |last| == 64 && HashWhole(message + more) == Compress(HashWhole(message), Words(last))
  {
    hide Words, HashBlocks, Compress, Whole;
    WholeSteps(|message|, |more|);
    var m := Whole(|message|);
    var last := message[m..] + more;
    assert (message + more)[..m + 64] == message[..m] + last;
    WordsAppend(message[..m], last);
    HashBlocksAppend(INITIAL, Words(message[..m]), Words(last));
  }

  method BufferToBlock(buffer: seq<Byte>) returns (block: array<Word>)
    requires |buffer| == 64
    ensures fresh(block) && block.Length == 16 && block[..] == Words(buffer)
  {
    hide BigEndian;
    block := new Word[16];
    for i := 0 to 16
      invariant forall j :: 0 <= j < i ==> block[j] == Words(buffer)[j]
    {
      block[i] := BigEndian(buffer[4 * i], buffer[4 * i + 1], buffer[4 * i + 2], buffer[4 * i + 3]);
    }
  }

  // ----- hexadecimal output ------------------------------------------------

  const HEX_DIGITS := "0123456789abcdef"

  function Digit(n: bv4): (c: char)
    ensures c in HEX_DIGITS
  {
    HEX_DIGITS[n as int]
  }

  function DigitValue(c: char): bv4 {
    if '0' <= c <= '9' then (c as int - '0' as int) as bv4
    else if 'a' <= c <= 'f' then (c as int - 'a' as int + 10) as bv4
    else 0
  }

  function Nibble(w: Word, shift: nat): bv4
    requires shift < 32
  {
    ((w >> shift) & 0xf) as bv4
  }

  /** Eight digits, the most significant first. */
  function HexWord(w: Word): (s: string)
    ensures |s| == 8
  {
    [Digit(Nibble(w, 28)), Digit(Nibble(w, 24)), Digit(Nibble(w, 20)), Digit(Nibble(w, 16)),
     Digit(Nibble(w, 12)), Digit(Nibble(w, 8)), Digit(Nibble(w, 4)), Digit(Nibble(w, 0))]
  }

  function ParseWord(s: string): Word
    requires |s| == 8
  {
    (DigitValue(s[0]) as Word << 28) | (DigitValue(s[1]) as Word << 24)
    | (DigitValue(s[2]) as Word << 20) | (DigitValue(s[3]) as Word << 16)
    | (DigitValue(s[4]) as Word << 12) | (DigitValue(s[5]) as Word << 8)
    | (DigitValue(s[6]) as Word << 4) | DigitValue(s[7]) as Word
  }

  function HexString(r: Registers): string {
    HexWord(r.a) + HexWord(r.b) + HexWord(r.c) + HexWord(r.d) + HexWord(r.e)
  }

  lemma NibblesRebuild(w: Word)
    ensures (Nibble(w, 28) as Word << 28) | (Nibble(w, 24) as Word << 24)
          | (Nibble(w, 20) as Word << 20) | (Nibble(w, 16) as Word << 16)
          | (Nibble(w, 12) as Word << 12) | (Nibble(w, 8) as Word << 8)
          | (Nibble(w, 4) as Word << 4) | Nibble(w, 0) as Word == w
  {
    NibblesInPlace(w);
    hide Nibble;
    MasksCover(w);
  }

  lemma NibblesInPlace(w: Word)
    ensures Nibble(w, 28) as Word << 28 == w & 0xf000_0000
    ensures Nibble(w, 24) as Word << 24 == w & 0x0f00_0000
    ensures Nibble(w, 20) as Word << 20 == w & 0x00f0_0000
    ensures Nibble(w, 16) as Word << 16 == w & 0x000f_0000
    ensures Nibble(w, 12) as Word << 12 == w & 0x0000_f000
    ensures Nibble(w, 8) as Word << 8 == w & 0x0000_0f00
    ensures Nibble(w, 4) as Word << 4 == w & 0x0000_00f0
    ensures Nibble(w, 0) as Word == w & 0x0000_000f
  {
  }

  lemma MasksCover(w: Word)
    ensures (w & 0xf000_0000) | (w & 0x0f00_0000) | (w & 0x00f0_0000) | (w & 0x000f_0000)
          | (w & 0x0000_f000) | (w & 0x0000_0f00) | (w & 0x0000_00f0) | (w & 0x0000_000f) == w
  {
  }

  lemma DigitRoundTrip(n: bv4)
    ensures DigitValue(Digit(n)) == n
  {
  }

  /** The printed digits determine the word: leading zeros are printed too. */
  lemma HexRoundTrip(w: Word)
    ensures ParseWord(HexWord(w)) == w
  {
    DigitRoundTrip(Nibble(w, 28));
    DigitRoundTrip(Nibble(w, 24));
    DigitRoundTrip(Nibble(w, 20));
    DigitRoundTrip(Nibble(w, 16));
    DigitRoundTrip(Nibble(w, 12));
    DigitRoundTrip(Nibble(w, 8));
    DigitRoundTrip(Nibble(w, 4));
    DigitRoundTrip(Nibble(w, 0));
    hide Digit, DigitValue, Nibble;
    NibblesRebuild(w);
  }

  /** Forty digits, which determine the five words in their order. */
  lemma HexStringRoundTrip(r: Registers)
    ensures var s := HexString(r);
            && |s| == 40
            && Registers(ParseWord(s[..8]), ParseWord(s[8..16]), ParseWord(s[16..24]), ParseWord(s[24..32]),
                         ParseWord(s[32..])) == r
  {
    FiveOfEight(HexWord(r.a), HexWord(r.b), HexWord(r.c), HexWord(r.d), HexWord(r.e));
    hide HexWord, ParseWord;
    HexRoundTrip(r.a);
    HexRoundTrip(r.b);
    HexRoundTrip(r.c);
    HexRoundTrip(r.d);
    HexRoundTrip(r.e);
  }

  lemma FiveOfEight(a: string, b: string, c: string, d: string, e: string)
    requires |a| == |b| == |c| == |d| == |e| == 8
    ensures var s := a + b + c + d + e;
            |s| == 40 && s[..8] == a && s[8..16] == b && s[16..24] == c && s[24..32] == d && s[32..] == e
  {
  }

  // ----- padding -----------------------------------------------------------

  /** A rest filled up to a block with a one bit and zeros. */
  function Filled(rest: seq<Byte>): (f: seq<Byte>)
    requires |rest| < 64
    ensures |f| == 64
  {
    rest + [0x80] + Zeros(63 - |rest|)
  }

  /** What the last call hashes after the whole blocks, when the message leaves
      `rest` bytes: one block if a length field still fits, two otherwise. */
  function LastBlocks(rest: seq<Byte>, bits: nat): seq<Word>
    requires |rest| < 64
  {
    if |rest| < 56 then Words(Filled(rest))[..14] + [HighWord(bits), LowWord(bits)]
    else Words(Filled(rest)) + seq(14, _ => 0) + [HighWord(bits), LowWord(bits)]
  }

  lemma ZeroWord()
    ensures BigEndian(0, 0, 0, 0) == 0
  {
  }

  lemma ZeroWords(n: nat)
    requires n % 4 == 0
    ensures Words(Zeros(n)) == seq(n / 4, _ => 0)
  {
    ZeroWord();
    hide BigEndian;
  }

  lemma WordsPrefix(s: seq<Byte>, n: nat)
    requires |s| % 4 == 0 && n % 4 == 0 && n <= |s|
    ensures n / 4 <= |s| / 4 && Words(s[..n]) == Words(s)[..n / 4]
  {
    hide BigEndian;
  }

  /** What is left of a message, padded. */
  function PaddedRest(rest: seq<Byte>): (tail: seq<Byte>)
    requires |rest| < 64
    ensures |tail| == if |rest| < 56 then 56 else 120
  {
    rest + [0x80] + Zeros((119 - |rest|) % 64)
  }

  lemma PaddedRestWords(rest: seq<Byte>, bits: nat)
    requires |rest| < 64
    ensures Words(PaddedRest(rest)) + [HighWord(bits), LowWord(bits)] == LastBlocks(rest, bits)
  {
    hide Words, HighWord, LowWord;
    var tail, filled := PaddedRest(rest), Filled(rest);
    if |rest| < 56 {
      assert tail == filled[..56];
      WordsPrefix(filled, 56);
    } else {
      assert tail == filled + Zeros(56);
      WordsAppend(filled, Zeros(56));
      ZeroWords(56);
    }
  }

  /** The standard's padding, cut at the last whole block. */
  lemma PaddingSplits(message: seq<Byte>)
    ensures var rest := message[Whole(|message|)..];
            var bits := (8 * |message|) % TWO_TO_THE_64;
            PaddedWords(message) == Words(message[..Whole(|message|)]) + LastBlocks(rest, bits)
  {
    var m := Whole(|message|);
    var rest := message[m..];
    var bits := (8 * |message|) % TWO_TO_THE_64;
    assert |rest| == |message| % 64;
    assert Padded(message) == message[..m] + PaddedRest(rest);
    PaddedLength(|Padded(message)|);
    hide Words, HighWord, LowWord, Padded, PaddedRest, LastBlocks;
    WordsAppend(message[..m], PaddedRest(rest));
    PaddedRestWords(rest, bits);
    assert PaddedWords(message) == Words(Padded(message)) + [HighWord(bits), LowWord(bits)];
  }

  /** What the message leaves over its whole blocks. */
  function Rest(message: seq<Byte>): (r: seq<Byte>)
    ensures |r| == |message| % 64 < 64
  {
    message[Whole(|message|)..]
  }

  /** One last block when the length field still fits behind the padding. */
  lemma OneLastBlock(message: seq<Byte>)
    requires |message| % 64 < 56
    ensures var bits := (8 * |message|) % TWO_TO_THE_64;
            var last := Words(Filled(Rest(message)))[..14] + [HighWord(bits), LowWord(bits)];
            Digest(message) == Compress(HashWhole(message), last)
  {
    hide Words, HighWord, LowWord, Compress, Whole;
    PaddingSplits(message);
    var bits := (8 * |message|) % TWO_TO_THE_64;
    HashBlocksAppend(INITIAL, Words(message[..Whole(|message|)]), LastBlocks(Rest(message), bits));
  }

  /** Two last blocks when it does not: the second holds only zeros and the length. */
  lemma TwoLastBlocks(message: seq<Byte>)
    requires |message| % 64 >= 56
    ensures var bits := (8 * |message|) % TWO_TO_THE_64;
            var last := seq(14, _ => 0 as Word) + [HighWord(bits), LowWord(bits)];
            Digest(message) == Compress(Compress(HashWhole(message), Words(Filled(Rest(message)))), last)
  {
    hide Words, HighWord, LowWord, Compress, Whole;
    PaddingSplits(message);
    var bits := (8 * |message|) % TWO_TO_THE_64;
    var whole := Words(message[..Whole(|message|)]);
    var first := Words(Filled(Rest(message)));
    var last := seq(14, _ => 0 as Word) + [HighWord(bits), LowWord(bits)];
    assert LastBlocks(Rest(message), bits) == first + last;
    assert whole + (first + last) == (whole + first) + last;
    HashBlocksAppend(INITIAL, whole, first);
    HashBlocksAppend(INITIAL, whole + first, last);
  }

  /** Counting blocks modulo 2^64 loses nothing of the length modulo 2^64. */
  lemma LengthModulo(blocks: nat, n: nat, rest: nat)
    requires n == 64 * blocks + rest
    ensures ((blocks % TWO_TO_THE_64) * 64 + rest) * 8 % TWO_TO_THE_64 == (8 * n) % TWO_TO_THE_64
  {
    var q := blocks / TWO_TO_THE_64;
    var r := blocks % TWO_TO_THE_64;
    assert blocks == q * TWO_TO_THE_64 + r;
    assert 8 * n == (r * 64 + rest) * 8 + TWO_TO_THE_64 * (512 * q);
    DropMultiple((r * 64 + rest) * 8, 512 * q);
  }

  lemma DropMultiple(x: nat, q: nat)
    ensures (x + TWO_TO_THE_64 * q) % TWO_TO_THE_64 == x % TWO_TO_THE_64
  {
  }

  // ----- what one read does to the state -----------------------------------

  function Count(message: seq<Byte>): nat { (|message| / 64) % TWO_TO_THE_64 }

  lemma ReadPart(message: seq<Byte>, read: seq<Byte>)
    requires |message| % 64 + |read| < 64
    ensures Rest(message + read) == Rest(message) + read
    ensures Count(message + read) == Count(message)
    ensures HashWhole(message + read) == HashWhole(message)
  {
    hide HashWhole, Words;
    HashWholeStays(message, read);
    WholeGrows(|message|, |read|);
    assert (|message| + |read|) / 64 == |message| / 64;
  }

  lemma Increment(n: nat)
    ensures (n % TWO_TO_THE_64 + 1) % TWO_TO_THE_64 == (n + 1) % TWO_TO_THE_64
  {
  }

  lemma ReadRest(message: seq<Byte>, read: seq<Byte>)
    requires |message| % 64 + |read| == 64
    ensures Rest(message + read) == []
    ensures Count(message + read) == (Count(message) + 1) % TWO_TO_THE_64
    ensures HashWhole(message + read) == Compress(HashWhole(message), Words(Rest(message) + read))
  {
    hide HashWhole, Words, Compress;
    HashWholeSteps(message, read);
    WholeSteps(|message|, |read|);
    assert (|message| + |read|) / 64 == |message| / 64 + 1;
    Increment(|message| / 64);
  }

  // ----- the digest object -------------------------------------------------

  lemma NothingFed()
    ensures Rest([]) == [] && Count([]) == 0 && HashWhole([]) == INITIAL
  {
    hide Compress;
    assert Whole(0) == 0;
    assert Words([]) == [];
  }

  class Sha1Hash {
    const digest: array<Word>
    var buffer: seq<Byte>
    var transforms: nat
    /** Everything fed since the object was made or last asked for its digest. */
    ghost var message: seq<Byte>

    /** Digest, buffer and counter are functions of the message alone. */
    ghost predicate Valid()
      reads this, digest
    {
      && digest.Length == 5
      && buffer == Rest(message)
      && transforms == Count(message)
      && RegistersOf(digest[..]) == HashWhole(message)
    }

    method Reset()
      requires digest.Length == 5
      modifies this`buffer, this`transforms, this`message, digest
      ensures Valid() && message == []
    {
      NothingFed();
      hide Rest, Count, HashWhole;
      digest[0] := 0x67452301;
      digest[1] := 0xefcdab89;
      digest[2] := 0x98badcfe;
      digest[3] := 0x10325476;
      digest[4] := 0xc3d2e1f0;
      buffer := [];
      transforms := 0;
      message := [];
    }

    constructor ()
      ensures Valid() && message == [] && fresh(digest)
    {
      digest := new Word[5];
      new;
      Reset();
    }

    /** Reads the stream to its end, hashing every block that fills up. */
    method Update(s: seq<Byte>)
      requires Valid()
      modifies this`buffer, this`transforms, this`message, digest
      ensures Valid() && message == old(message) + s
    {
      hide Rest, Count, HashWhole, Words, Compress, RegistersOf;
      var rest := s;
      while true
        invariant Valid() && message + rest == old(message) + s
        decreases |rest|
      {
        ghost var before := message;
        var count := if |rest| < 64 - |buffer| then |rest| else 64 - |buffer|;
        var read := rest[..count];
        buffer := buffer + read;
        message := message + read;
        rest := rest[count..];
        assert message + rest == old(message) + s;
        if |buffer| != 64 {
          ReadPart(before, read);
          assert rest == [];
          return;
        }
        ReadRest(before, read);
        var block := BufferToBlock(buffer);
        assert block[..] == Words(Rest(before) + read);
        Transform(digest, block);
        transforms := (transforms + 1) % TWO_TO_THE_64;
        buffer := [];
      }
    }

    /** Fills the buffered bytes up to a block with a one bit and zeros. */
    method Pad() returns (originalSize: nat)
      requires Valid()
      modifies this`buffer
      ensures buffer == Filled(Rest(message)) && originalSize == |Rest(message)| + 1
    {
      hide HashWhole;
      buffer := buffer + [0x80];
      originalSize := |buffer|;
      while |buffer| < 64
        invariant originalSize <= |buffer| <= 64
        invariant buffer == Rest(message) + [0x80] + Zeros(|buffer| - originalSize)
      {
        buffer := buffer + [0];
      }
    }

    method PrintDigest() returns (result: string)
      requires digest.Length == 5
      ensures result == HexString(RegistersOf(digest[..]))
    {
      hide HexWord;
      result := "";
      for i := 0 to 5
        invariant i == 0 ==> result == ""
        invariant i == 1 ==> result == HexWord(digest[0])
        invariant i == 2 ==> result == HexWord(digest[0]) + HexWord(digest[1])
        invariant i == 3 ==> result == HexWord(digest[0]) + HexWord(digest[1]) + HexWord(digest[2])
        invariant i == 4 ==> result == HexWord(digest[0]) + HexWord(digest[1]) + HexWord(digest[2]) + HexWord(digest[3])
        invariant i == 5 ==> result == HexString(RegistersOf(digest[..]))
      {
        result := result + HexWord(digest[i]);
      }
    }

    /** The digest of everything fed so far; the object then starts over. */
    method Final() returns (result: string)
      requires Valid()
      modifies this`buffer, this`transforms, this`message, digest
      ensures result == HexString(Digest(old(message)))
      ensures Valid() && message == []
    {
      var totalBits := ((transforms * 64 + |buffer|) * 8) % TWO_TO_THE_64;
      assert totalBits == (8 * |message|) % TWO_TO_THE_64
          by { LengthModulo(|message| / 64, |message|, |message| % 64); }
      var originalSize := Pad();
      hide HashWhole, Words, Compress, RegistersOf, HighWord, LowWord, Digest, Filled, HexString, Rest;
      var block := BufferToBlock(buffer);
      if originalSize > 56 {
        TwoLastBlocks(message);
        Transform(digest, block);
        ClearWords(block);
      } else {
        OneLastBlock(message);
      }
      SetLength(block, totalBits);
      Transform(digest, block);
      result := PrintDigest();
      Reset();
    }
  }

  method ClearWords(block: array<Word>)
    requires block.Length == 16
    modifies block
    ensures block[..14] == seq(14, _ => 0)
  {
    for i := 0 to 14
      invariant forall j :: 0 <= j < i ==> block[j] == 0
    {
      block[i] := 0;
    }
  }

  method SetLength(block: array<Word>, bits: nat)
    requires block.Length == 16
    modifies block
    ensures block[..] == old(block[..14]) + [HighWord(bits), LowWord(bits)]
  {
    hide HighWord, LowWord;
    block[15] := LowWord(bits);
    block[14] := HighWord(bits);
  }

  /** However a message was split when it was fed, the same message leaves the same
      digest, buffer and counter, and less than a block in the buffer. */
  lemma SplitDoesNotMatter(x: Sha1Hash, y: Sha1Hash)
    requires x.Valid() && y.Valid() && x.message == y.message
    ensures x.digest[..] == y.digest[..] && x.buffer == y.buffer && x.transforms == y.transforms && |x.buffer| < 64
  {
    assert forall i :: 0 <= i < 5 ==> x.digest[i] == y.digest[i];
  }
}
