/**
 SHA-1 as FIPS 180-4 defines it: functions and constants (sections 4.1.1 and
 4.2.1), padding and parsing (5.1.1, 5.2.1), initial value (5.3.1) and the hash
 computation with the full 80-word schedule (6.1.2).
 */
module SecureHash {

  type Byte = bv8
  type Word = bv32

  function Rotl(x: Word, n: nat): Word
    requires 0 < n < 32
  {
    (x << n) | (x >> (32 - n))
  }

  function Ch(x: Word, y: Word, z: Word): Word { (x & y) ^ (!x & z) }

  function Parity(x: Word, y: Word, z: Word): Word { x ^ y ^ z }

  function Maj(x: Word, y: Word, z: Word): Word { (x & y) ^ (x & z) ^ (y & z) }

  function F(t: nat, x: Word, y: Word, z: Word): Word {
    if t < 20 then Ch(x, y, z) else if t < 40 then Parity(x, y, z) else if t < 60 then Maj(x, y, z) else Parity(x, y, z)
  }

  function K(t: nat): Word {
    if t < 20 then 0x5a827999 else if t < 40 then 0x6ed9eba1 else if t < 60 then 0x8f1bbcdc else 0xca62c1d6
  }

  /** The root of which `K(t)` is the integer part of 2^30 times. */
  function Radicand(t: nat): nat {
    if t < 20 then 2 else if t < 40 then 3 else if t < 60 then 5 else 10
  }

  /** The round constants are 2^30 times the square roots of 2, 3, 5 and 10, rounded down. */
  lemma ConstantsAreRoots(t: nat)
    ensures var k := K(t) as nat;
            k * k <= Radicand(t) * 0x1000_0000_0000_0000 < (k + 1) * (k + 1)
  {
    var k := K(t) as nat;
    if t < 20 {
      assert k == 0x5a827999;
    } else if t < 40 {
      assert k == 0x6ed9eba1;
    } else if t < 60 {
      assert k == 0x8f1bbcdc;
    } else {
      assert k == 0xca62c1d6;
    }
  }

  /** A block of sixteen words. */
  type Block = b: seq<Word> | |b| == 16 witness [0, 0, 0, 0, 0, 0, 0, 0, 0, 0, 0, 0, 0, 0, 0, 0]

  /** A new schedule word from the words 3, 8, 14 and 16 places before it. */
  function NextScheduled(w3: Word, w8: Word, w14: Word, w16: Word): Word {
    Rotl(w3 ^ w8 ^ w14 ^ w16, 1)
  }

  /** The message schedule: word `t` of eighty. */
  function Schedule(m: Block, t: nat): Word {
    if t < 16 then m[t]
    else NextScheduled(Schedule(m, t - 3), Schedule(m, t - 8), Schedule(m, t - 14), Schedule(m, t - 16))
  }

  datatype Registers = Registers(a: Word, b: Word, c: Word, d: Word, e: Word)

  /** Addition of five words modulo 2^32. */
  function Sum5(a: Word, b: Word, c: Word, d: Word, e: Word): Word { a + b + c + d + e }

  function Round(t: nat, r: Registers, w: Word): Registers {
    Registers(Sum5(Rotl(r.a, 5), F(t, r.b, r.c, r.d), r.e, K(t), w), r.a, Rotl(r.b, 30), r.c, r.d)
  }

  /** The registers after the first `t` rounds on a block. */
  function Rounds(h: Registers, m: Block, t: nat): Registers {
    if t == 0 then h else Round(t - 1, Rounds(h, m, t - 1), Schedule(m, t - 1))
  }

  function Sum2(x: Word, y: Word): Word { x + y }

  function Added(h: Registers, r: Registers): Registers {
    Registers(Sum2(h.a, r.a), Sum2(h.b, r.b), Sum2(h.c, r.c), Sum2(h.d, r.d), Sum2(h.e, r.e))
  }

  function Compress(h: Registers, m: Block): Registers {
    Added(h, Rounds(h, m, 80))
  }

  const INITIAL := Registers(0x67452301, 0xefcdab89, 0x98badcfe, 0x10325476, 0xc3d2e1f0)

  function BigEndian(b0: Byte, b1: Byte, b2: Byte, b3: Byte): Word {
    (b0 as Word << 24) | (b1 as Word << 16) | (b2 as Word << 8) | b3 as Word
  }

  /** Bytes in equal steps: 01 23 .. ef, then fe dc .. 10, then f0 e1 d2 c3. */
  function PatternByte(k: Byte): Byte {
    if k < 8 then 0x01 + 0x22 * k else if k < 16 then 0xfe - 0x22 * (k - 8) else 0xf0 - 0x0f * (k - 16)
  }

  /** Four of them, the last one first. */
  function PatternWord(k: Byte): Word {
    BigEndian(PatternByte(k + 3), PatternByte(k + 2), PatternByte(k + 1), PatternByte(k))
  }

  lemma InitialIsPattern()
    ensures INITIAL == Registers(PatternWord(0), PatternWord(4), PatternWord(8), PatternWord(12), PatternWord(16))
  {
  }

  /** The words of a byte string whose length is a multiple of four. */
  function Words(s: seq<Byte>): (w: seq<Word>)
    requires |s| % 4 == 0
    ensures |w| == |s| / 4
  {
    seq(|s| / 4, i requires 0 <= i < |s| / 4 => BigEndian(s[4 * i], s[4 * i + 1], s[4 * i + 2], s[4 * i + 3]))
  }

  const TWO_TO_THE_32: nat := 0x1_0000_0000
  const TWO_TO_THE_64: nat := 0x1_0000_0000_0000_0000

  function Zeros(n: nat): seq<Byte> { seq(n, _ => 0) }

  /** The message, a one bit and as few zero bits as bring it to 448 modulo 512. */
  function Padded(message: seq<Byte>): (p: seq<Byte>)
    ensures |p| % 64 == 56 && |message| < |p| <= |message| + 64
  {
    message + [0x80] + Zeros((119 - |message| % 64) % 64)
  }

  function HighWord(bits: nat): Word { ((bits / TWO_TO_THE_32) % TWO_TO_THE_32) as Word }

  function LowWord(bits: nat): Word { (bits % TWO_TO_THE_32) as Word }

  /** The message, the byte 80, then zeros only. */
  lemma PaddingLayout(message: seq<Byte>)
    ensures var p := Padded(message);
            && message <= p && p[|message|] == 0x80
            && forall i :: |message| < i < |p| ==> p[i] == 0
  {
    assert Padded(message)[..|message|] == message;
  }

  lemma PaddedLength(n: nat)
    requires n % 64 == 56
    ensures n % 4 == 0 && (n / 4 + 2) % 16 == 0
  {
    var q := n / 64;
    assert n == 64 * q + 56;
    assert n == 4 * (16 * q + 14);
    assert n / 4 == 16 * q + 14;
    assert n / 4 + 2 == 16 * (q + 1);
  }

  /** The padded message as words, closed by the length in bits as a 64-bit number. */
  function PaddedWords(message: seq<Byte>): (w: seq<Word>)
    ensures |w| % 16 == 0
  {
    var bits := (8 * |message|) % TWO_TO_THE_64;
    PaddedLength(|Padded(message)|);
    Words(Padded(message)) + [HighWord(bits), LowWord(bits)]
  }

  /** The hash value after all blocks of a whole number of blocks. */
  function HashBlocks(h: Registers, w: seq<Word>): Registers
    requires |w| % 16 == 0
    decreases |w|
  {
    if w == [] then h else Compress(HashBlocks(h, w[..|w| - 16]), w[|w| - 16..])
  }

  function Digest(message: seq<Byte>): Registers {
    HashBlocks(INITIAL, PaddedWords(message))
  }
}
