/**
 The library's SHA-1: an unrolled compression with rotating argument roles and a
 sixteen-word schedule kept in place (the form of section 6.1.3 of FIPS 180-4),
 fed by a byte stream of any split.
 */
module Sha1 {
  import opened SecureHash

  // ----- the expressions as the code writes them ---------------------------

  function Choose(w: Word, x: Word, y: Word): Word { (w & (x ^ y)) ^ y }

  function Majority(w: Word, x: Word, y: Word): Word { ((w | x) & y) | (w & x) }

  function Mix(z: Word, f: Word, word: Word, k: Word, r: Word): Word { z + (f + word + k + r) }

  lemma ChooseIsCh(w: Word, x: Word, y: Word)
    ensures Choose(w, x, y) == Ch(w, x, y)
  {
    assert (w & (x ^ y)) ^ y == (w & x) ^ (!w & y);
  }

  lemma MajorityIsMaj(w: Word, x: Word, y: Word)
    ensures Majority(w, x, y) == Maj(w, x, y)
  {
    assert ((w | x) & y) | (w & x) == (w & x) ^ (w & y) ^ (x & y);
  }

  /** The order of the five summands does not matter in arithmetic modulo 2^32. */
  lemma MixIsSum(z: Word, f: Word, word: Word, k: Word, r: Word)
    ensures Mix(z, f, word, k, r) == Sum5(r, f, z, k, word)
  {
  }

  // ----- one operation -----------------------------------------------------

  /** Slot `s % 16` holds schedule word `s`, for the latest sixteen words made when
      round `t` is about to start. */
  ghost predicate Circular(block: seq<Word>, m: Block, t: nat) {
    var end := if t < 16 then 16 else t;
    |block| == 16 && forall s :: 0 <= s && end - 16 <= s < end ==> block[s % 16] == Schedule(m, s)
  }

  /** Registers and block are where round `t` of the standard starts from. */
  ghost predicate At(h: Registers, m: Block, t: nat, a: Word, b: Word, c: Word, d: Word, e: Word, block: seq<Word>) {
    Registers(a, b, c, d, e) == Rounds(h, m, t) && Circular(block, m, t)
  }

  function Blk(block: array<Word>, i: nat): Word
    requires block.Length == 16 && i < 16
    reads block
  {
    NextScheduled(block[(i + 13) % 16], block[(i + 8) % 16], block[(i + 2) % 16], block[i])
  }

  lemma InSlot(block: seq<Word>, m: Block, t: nat, s: nat)
    requires Circular(block, m, t) && (if t < 16 then 16 else t) - 16 <= s < (if t < 16 then 16 else t)
    ensures block[s % 16] == Schedule(m, s)
  {
  }

  lemma Slots(t: nat, i: nat)
    requires t >= 16 && i == t % 16
    ensures (t - 3) % 16 == (i + 13) % 16 && (t - 8) % 16 == (i + 8) % 16 && (t - 14) % 16 == (i + 2) % 16
        && (t - 16) % 16 == i
  {
    var q := t / 16;
    assert t == 16 * q + i;
    assert t - 3 == 16 * (q - 1) + (i + 13);
    assert t - 8 == 16 * (q - 1) + (i + 8);
    assert t - 14 == 16 * (q - 1) + (i + 2);
    assert t - 16 == 16 * (q - 1) + i;
  }

  lemma OtherSlot(s: nat, t: nat)
    requires t - 16 < s < t
    ensures s % 16 != t % 16
  {
  }

  /** The word made in place is the next word of the schedule. */
  lemma NextWord(block: seq<Word>, m: Block, t: nat, i: nat)
    requires t >= 16 && i == t % 16 && Circular(block, m, t)
    ensures NextScheduled(block[(i + 13) % 16], block[(i + 8) % 16], block[(i + 2) % 16], block[i]) == Schedule(m, t)
  {
    Slots(t, i);
    InSlot(block, m, t, t - 3);
    InSlot(block, m, t, t - 8);
    InSlot(block, m, t, t - 14);
    InSlot(block, m, t, t - 16);
    hide Circular, NextScheduled;
  }

  /** It replaces the one word that is not needed any more. */
  lemma NextBlock(block: seq<Word>, m: Block, t: nat, i: nat)
    requires t >= 16 && i == t % 16 && Circular(block, m, t)
    ensures Circular(block[i := Schedule(m, t)], m, t + 1)
  {
    hide Schedule;
    var next := block[i := Schedule(m, t)];
    forall s: int | 0 <= s && t - 15 <= s < t + 1 ensures next[s % 16] == Schedule(m, s) {
      if s < t {
        InSlot(block, m, t, s);
        OtherSlot(s, t);
      }
    }
  }

  /** The first sixteen rounds use the block as it came. */
  lemma SameBlock(block: seq<Word>, m: Block, t: nat)
    requires t < 16 && Circular(block, m, t)
    ensures Circular(block, m, t + 1) && block[t] == Schedule(m, t)
  {
    hide Schedule;
    InSlot(block, m, t, t);
  }

  lemma RoundStep(h: Registers, m: Block, t: nat, a: Word, b: Word, c: Word, d: Word, e: Word)
    requires Registers(a, b, c, d, e) == Rounds(h, m, t)
    ensures Registers(Sum5(Rotl(a, 5), F(t, b, c, d), e, K(t), Schedule(m, t)), a, Rotl(b, 30), c, d)
        == Rounds(h, m, t + 1)
  {
    hide F, K, Rotl, Schedule, Sum5;
  }

  /** One operation of the code is one round of the standard; the roles of the five
      variables rotate instead of their values. */
  lemma OperationIsRound(h: Registers, m: Block, t: nat, v: Word, w: Word, x: Word, y: Word, z: Word, f: Word, k: Word,
      before: seq<Word>, after: seq<Word>)
    requires At(h, m, t, v, w, x, y, z, before) && Circular(after, m, t + 1) && f == F(t, w, x, y) && k == K(t)
    ensures At(h, m, t + 1, Mix(z, f, Schedule(m, t), k, Rotl(v, 5)), v, Rotl(w, 30), x, y, after)
  {
    hide F, K, Rotl, Schedule, Circular, Rounds, Sum5, Mix;
    RoundStep(h, m, t, v, w, x, y, z);
    MixIsSum(z, f, Schedule(m, t), k, Rotl(v, 5));
  }

  method R0(block: array<Word>, v: Word, w: Word, x: Word, y: Word, z: Word, i: nat, ghost h: Registers, ghost m: Block,
      ghost t: nat)
    returns (w': Word, z': Word)
    requires block.Length == 16 && i == t < 16
    requires At(h, m, t, v, w, x, y, z, block[..])
    ensures At(h, m, t + 1, z', v, w', x, y, block[..])
  {
    hide NextScheduled, Rotl, Choose, Ch, Mix, Circular, Schedule, Rounds;
    z' := Mix(z, Choose(w, x, y), block[i], 0x5a827999, Rotl(v, 5));
    w' := Rotl(w, 30);
    ChooseIsCh(w, x, y);
    SameBlock(block[..], m, t);
    OperationIsRound(h, m, t, v, w, x, y, z, Choose(w, x, y), 0x5a827999, block[..], block[..]);
  }

  method R1(block: array<Word>, v: Word, w: Word, x: Word, y: Word, z: Word, i: nat, ghost h: Registers, ghost m: Block,
      ghost t: nat)
    returns (w': Word, z': Word)
    requires block.Length == 16 && 16 <= t < 20 && i == t % 16
    requires At(h, m, t, v, w, x, y, z, block[..])
    modifies block
    ensures At(h, m, t + 1, z', v, w', x, y, block[..])
  {
    hide NextScheduled, Rotl, Choose, Ch, Mix, Circular, Schedule, Rounds;
    NextWord(block[..], m, t, i);
    NextBlock(block[..], m, t, i);
    block[i] := Blk(block, i);
    assert block[..] == old(block[..])[i := Schedule(m, t)];
    z' := Mix(z, Choose(w, x, y), block[i], 0x5a827999, Rotl(v, 5));
    w' := Rotl(w, 30);
    ChooseIsCh(w, x, y);
    OperationIsRound(h, m, t, v, w, x, y, z, Choose(w, x, y), 0x5a827999, old(block[..]), block[..]);
  }

  method R2(block: array<Word>, v: Word, w: Word, x: Word, y: Word, z: Word, i: nat, ghost h: Registers, ghost m: Block,
      ghost t: nat)
    returns (w': Word, z': Word)
    requires block.Length == 16 && 20 <= t < 40 && i == t % 16
    requires At(h, m, t, v, w, x, y, z, block[..])
    modifies block
    ensures At(h, m, t + 1, z', v, w', x, y, block[..])
  {
    hide NextScheduled, Rotl, Parity, Mix, Circular, Schedule, Rounds;
    NextWord(block[..], m, t, i);
    NextBlock(block[..], m, t, i);
    block[i] := Blk(block, i);
    assert block[..] == old(block[..])[i := Schedule(m, t)];
    z' := Mix(z, Parity(w, x, y), block[i], 0x6ed9eba1, Rotl(v, 5));
    w' := Rotl(w, 30);
    OperationIsRound(h, m, t, v, w, x, y, z, Parity(w, x, y), 0x6ed9eba1, old(block[..]), block[..]);
  }

  method R3(block: array<Word>, v: Word, w: Word, x: Word, y: Word, z: Word, i: nat, ghost h: Registers, ghost m: Block,
      ghost t: nat)
    returns (w': Word, z': Word)
    requires block.Length == 16 && 40 <= t < 60 && i == t % 16
    requires At(h, m, t, v, w, x, y, z, block[..])
    modifies block
    ensures At(h, m, t + 1, z', v, w', x, y, block[..])
  {
    hide NextScheduled, Rotl, Majority, Maj, Mix, Circular, Schedule, Rounds;
    NextWord(block[..], m, t, i);
    NextBlock(block[..], m, t, i);
    block[i] := Blk(block, i);
    assert block[..] == old(block[..])[i := Schedule(m, t)];
    z' := Mix(z, Majority(w, x, y), block[i], 0x8f1bbcdc, Rotl(v, 5));
    w' := Rotl(w, 30);
    MajorityIsMaj(w, x, y);
    OperationIsRound(h, m, t, v, w, x, y, z, Majority(w, x, y), 0x8f1bbcdc, old(block[..]), block[..]);
  }

  method R4(block: array<Word>, v: Word, w: Word, x: Word, y: Word, z: Word, i: nat, ghost h: Registers, ghost m: Block,
      ghost t: nat)
    returns (w': Word, z': Word)
    requires block.Length == 16 && 60 <= t < 80 && i == t % 16
    requires At(h, m, t, v, w, x, y, z, block[..])
    modifies block
    ensures At(h, m, t + 1, z', v, w', x, y, block[..])
  {
    hide NextScheduled, Rotl, Parity, Mix, Circular, Schedule, Rounds;
    NextWord(block[..], m, t, i);
    NextBlock(block[..], m, t, i);
    block[i] := Blk(block, i);
    assert block[..] == old(block[..])[i := Schedule(m, t)];
    z' := Mix(z, Parity(w, x, y), block[i], 0xca62c1d6, Rotl(v, 5));
    w' := Rotl(w, 30);
    OperationIsRound(h, m, t, v, w, x, y, z, Parity(w, x, y), 0xca62c1d6, old(block[..]), block[..]);
  }

  // ----- hashing a block ---------------------------------------------------

  method FirstRound(block: array<Word>, a0: Word, b0: Word, c0: Word, d0: Word, e0: Word, ghost h: Registers,
      ghost m: Block)
    returns (a: Word, b: Word, c: Word, d: Word, e: Word)
    requires block.Length == 16 && At(h, m, 0, a0, b0, c0, d0, e0, block[..])
    modifies block
    ensures At(h, m, 20, a, b, c, d, e, block[..])
  {
    hide *;
    a, b, c, d, e := a0, b0, c0, d0, e0;
    b, e := R0(block, a, b, c, d, e, 0, h, m, 0);
    a, d := R0(block, e, a, b, c, d, 1, h, m, 1);
    e, c := R0(block, d, e, a, b, c, 2, h, m, 2);
    d, b := R0(block, c, d, e, a, b, 3, h, m, 3);
    c, a := R0(block, b, c, d, e, a, 4, h, m, 4);
    b, e := R0(block, a, b, c, d, e, 5, h, m, 5);
    a, d := R0(block, e, a, b, c, d, 6, h, m, 6);
    e, c := R0(block, d, e, a, b, c, 7, h, m, 7);
    d, b := R0(block, c, d, e, a, b, 8, h, m, 8);
    c, a := R0(block, b, c, d, e, a, 9, h, m, 9);
    b, e := R0(block, a, b, c, d, e, 10, h, m, 10);
    a, d := R0(block, e, a, b, c, d, 11, h, m, 11);
    e, c := R0(block, d, e, a, b, c, 12, h, m, 12);
    d, b := R0(block, c, d, e, a, b, 13, h, m, 13);
    c, a := R0(block, b, c, d, e, a, 14, h, m, 14);
    b, e := R0(block, a, b, c, d, e, 15, h, m, 15);
    a, d := R1(block, e, a, b, c, d, 0, h, m, 16);
    e, c := R1(block, d, e, a, b, c, 1, h, m, 17);
    d, b := R1(block, c, d, e, a, b, 2, h, m, 18);
    c, a := R1(block, b, c, d, e, a, 3, h, m, 19);
  }

  method SecondRound(block: array<Word>, a0: Word, b0: Word, c0: Word, d0: Word, e0: Word, ghost h: Registers,
      ghost m: Block)
    returns (a: Word, b: Word, c: Word, d: Word, e: Word)
    requires block.Length == 16 && At(h, m, 20, a0, b0, c0, d0, e0, block[..])
    modifies block
    ensures At(h, m, 40, a, b, c, d, e, block[..])
  {
    hide *;
    a, b, c, d, e := a0, b0, c0, d0, e0;
    b, e := R2(block, a, b, c, d, e, 4, h, m, 20);
    a, d := R2(block, e, a, b, c, d, 5, h, m, 21);
    e, c := R2(block, d, e, a, b, c, 6, h, m, 22);
    d, b := R2(block, c, d, e, a, b, 7, h, m, 23);
    c, a := R2(block, b, c, d, e, a, 8, h, m, 24);
    b, e := R2(block, a, b, c, d, e, 9, h, m, 25);
    a, d := R2(block, e, a, b, c, d, 10, h, m, 26);
    e, c := R2(block, d, e, a, b, c, 11, h, m, 27);
    d, b := R2(block, c, d, e, a, b, 12, h, m, 28);
    c, a := R2(block, b, c, d, e, a, 13, h, m, 29);
    b, e := R2(block, a, b, c, d, e, 14, h, m, 30);
    a, d := R2(block, e, a, b, c, d, 15, h, m, 31);
    e, c := R2(block, d, e, a, b, c, 0, h, m, 32);
    d, b := R2(block, c, d, e, a, b, 1, h, m, 33);
    c, a := R2(block, b, c, d, e, a, 2, h, m, 34);
    b, e := R2(block, a, b, c, d, e, 3, h, m, 35);
    a, d := R2(block, e, a, b, c, d, 4, h, m, 36);
    e, c := R2(block, d, e, a, b, c, 5, h, m, 37);
    d, b := R2(block, c, d, e, a, b, 6, h, m, 38);
    c, a := R2(block, b, c, d, e, a, 7, h, m, 39);
  }

  method ThirdRound(block: array<Word>, a0: Word, b0: Word, c0: Word, d0: Word, e0: Word, ghost h: Registers,
      ghost m: Block)
    returns (a: Word, b: Word, c: Word, d: Word, e: Word)
    requires block.Length == 16 && At(h, m, 40, a0, b0, c0, d0, e0, block[..])
    modifies block
    ensures At(h, m, 60, a, b, c, d, e, block[..])
  {
    hide *;
    a, b, c, d, e := a0, b0, c0, d0, e0;
    b, e := R3(block, a, b, c, d, e, 8, h, m, 40);
    a, d := R3(block, e, a, b, c, d, 9, h, m, 41);
    e, c := R3(block, d, e, a, b, c, 10, h, m, 42);
    d, b := R3(block, c, d, e, a, b, 11, h, m, 43);
    c, a := R3(block, b, c, d, e, a, 12, h, m, 44);
    b, e := R3(block, a, b, c, d, e, 13, h, m, 45);
    a, d := R3(block, e, a, b, c, d, 14, h, m, 46);
    e, c := R3(block, d, e, a, b, c, 15, h, m, 47);
    d, b := R3(block, c, d, e, a, b, 0, h, m, 48);
    c, a := R3(block, b, c, d, e, a, 1, h, m, 49);
    b, e := R3(block, a, b, c, d, e, 2, h, m, 50);
    a, d := R3(block, e, a, b, c, d, 3, h, m, 51);
    e, c := R3(block, d, e, a, b, c, 4, h, m, 52);
    d, b := R3(block, c, d, e, a, b, 5, h, m, 53);
    c, a := R3(block, b, c, d, e, a, 6, h, m, 54);
    b, e := R3(block, a, b, c, d, e, 7, h, m, 55);
    a, d := R3(block, e, a, b, c, d, 8, h, m, 56);
    e, c := R3(block, d, e, a, b, c, 9, h, m, 57);
    d, b := R3(block, c, d, e, a, b, 10, h, m, 58);
    c, a := R3(block, b, c, d, e, a, 11, h, m, 59);
  }

  method FourthRound(block: array<Word>, a0: Word, b0: Word, c0: Word, d0: Word, e0: Word, ghost h: Registers,
      ghost m: Block)
    returns (a: Word, b: Word, c: Word, d: Word, e: Word)
    requires block.Length == 16 && At(h, m, 60, a0, b0, c0, d0, e0, block[..])
    modifies block
    ensures At(h, m, 80, a, b, c, d, e, block[..])
  {
    hide *;
    a, b, c, d, e := a0, b0, c0, d0, e0;
    b, e := R4(block, a, b, c, d, e, 12, h, m, 60);
    a, d := R4(block, e, a, b, c, d, 13, h, m, 61);
    e, c := R4(block, d, e, a, b, c, 14, h, m, 62);
    d, b := R4(block, c, d, e, a, b, 15, h, m, 63);
    c, a := R4(block, b, c, d, e, a, 0, h, m, 64);
    b, e := R4(block, a, b, c, d, e, 1, h, m, 65);
    a, d := R4(block, e, a, b, c, d, 2, h, m, 66);
    e, c := R4(block, d, e, a, b, c, 3, h, m, 67);
    d, b := R4(block, c, d, e, a, b, 4, h, m, 68);
    c, a := R4(block, b, c, d, e, a, 5, h, m, 69);
    b, e := R4(block, a, b, c, d, e, 6, h, m, 70);
    a, d := R4(block, e, a, b, c, d, 7, h, m, 71);
    e, c := R4(block, d, e, a, b, c, 8, h, m, 72);
    d, b := R4(block, c, d, e, a, b, 9, h, m, 73);
    c, a := R4(block, b, c, d, e, a, 10, h, m, 74);
    b, e := R4(block, a, b, c, d, e, 11, h, m, 75);
    a, d := R4(block, e, a, b, c, d, 12, h, m, 76);
    e, c := R4(block, d, e, a, b, c, 13, h, m, 77);
    d, b := R4(block, c, d, e, a, b, 14, h, m, 78);
    c, a := R4(block, b, c, d, e, a, 15, h, m, 79);
  }

  ghost function RegistersOf(digest: seq<Word>): Registers
    requires |digest| == 5
  {
    Registers(digest[0], digest[1], digest[2], digest[3], digest[4])
  }

  /** Hashes one block into the digest; the block is used up as working space. */
  method Transform(digest: array<Word>, block: array<Word>)
    requires digest.Length == 5 && block.Length == 16 && digest != block
    modifies digest, block
    ensures RegistersOf(digest[..]) == Compress(RegistersOf(old(digest[..])), old(block[..]))
  {
    ghost var h, m := RegistersOf(digest[..]), block[..];
    var a, b, c, d, e := digest[0], digest[1], digest[2], digest[3], digest[4];
    assert At(h, m, 0, a, b, c, d, e, block[..]) by { StartsAt(h, m); }
    hide Circular, Rounds, Added, RegistersOf;
    a, b, c, d, e := FirstRound(block, a, b, c, d, e, h, m);
    a, b, c, d, e := SecondRound(block, a, b, c, d, e, h, m);
    a, b, c, d, e := ThirdRound(block, a, b, c, d, e, h, m);
    a, b, c, d, e := FourthRound(block, a, b, c, d, e, h, m);
    assert digest[..] == old(digest[..]);
    AddBack(digest, a, b, c, d, e);
  }

  /** Adds the working variables back into the digest. */
  method AddBack(digest: array<Word>, a: Word, b: Word, c: Word, d: Word, e: Word)
    requires digest.Length == 5
    modifies digest
    ensures RegistersOf(digest[..]) == Added(RegistersOf(old(digest[..])), Registers(a, b, c, d, e))
  {
    hide Sum2;
    digest[0] := Sum2(digest[0], a);
    digest[1] := Sum2(digest[1], b);
    digest[2] := Sum2(digest[2], c);
    digest[3] := Sum2(digest[3], d);
    digest[4] := Sum2(digest[4], e);
  }

  lemma StartsAt(h: Registers, m: Block)
    ensures At(h, m, 0, h.a, h.b, h.c, h.d, h.e, m)
  {
  }
}
