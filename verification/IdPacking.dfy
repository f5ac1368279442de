/** Packing two ids into one word (lib/names.h) and hashing a key
    (lib/names-hash.c, id_hash), in unsigned 32-bit arithmetic. */
module IdPacking {
  import opened Config

  function BitOr(a: nat, b: nat): nat {
    if a == 0 && b == 0 then 0
    else (if a % 2 == 1 || b % 2 == 1 then 1 else 0) + 2 * BitOr(a / 2, b / 2)
  }

  function BitXor(a: nat, b: nat): nat {
    if a == 0 && b == 0 then 0
    else (if a % 2 != b % 2 then 1 else 0) + 2 * BitXor(a / 2, b / 2)
  }

  /** x << k, before truncation to a word. */
  function Shl(x: nat, k: nat): nat {
    if k == 0 then x else 2 * Shl(x, k - 1)
  }

  function IdPair(x: U32, y: U32): U32 {
    ShlWord();
    OrBound(Shl(x, 16) % TWO32, y, 32);
    BitOr(Shl(x, 16) % TWO32, y)
  }

  function PairFirst(x: U32): U32 {
    x / 0x1_0000 % 0x1_0000
  }

  function PairSecond(x: U32): U32 {
    x % 0x1_0000
  }

  const HASH_SIZE := 4099

  /** id_hash; the category is an int, an entry only keeps its low byte. */
  function IdHash(cat: nat, id12: U32, id34: U32): (h: nat)
    ensures h < HASH_SIZE
  {
    BitXor(BitXor(id12, Shl(id34, 3) % TWO32), Shl(cat, 5) % TWO32) % HASH_SIZE
  }

  lemma {:induction false} OrZero(a: nat)
    ensures BitOr(a, 0) == a
  {
    if a > 0 { OrZero(a / 2); }
  }

  /** Or-ing into the bits a shift freed is adding. */
  lemma {:induction false} OrShifted(x: nat, y: nat, k: nat)
    requires y < Shl(1, k)
    ensures BitOr(Shl(x, k), y) == Shl(x, k) + y
    decreases k
  {
    if k == 0 {
      OrZero(x);
    } else {
      OrShifted(x, y / 2, k - 1);
      assert Shl(x, k) / 2 == Shl(x, k - 1) && Shl(x, k) % 2 == 0;
    }
  }

  lemma {:induction false} ShlTwice(x: nat, j: nat, k: nat)
    ensures Shl(Shl(x, j), k) == Shl(x, j + k)
    decreases k
  {
    if k > 0 { ShlTwice(x, j, k - 1); }
  }

  lemma {:induction false} OrBound(a: nat, b: nat, k: nat)
    requires a < Shl(1, k) && b < Shl(1, k)
    ensures BitOr(a, b) < Shl(1, k)
    decreases k
  {
    if k > 0 { OrBound(a / 2, b / 2, k - 1); }
  }

  lemma ShlNibble(x: nat, k: nat)
    ensures Shl(x, k + 4) == 16 * Shl(x, k)
  {
    assert Shl(x, k + 2) == 4 * Shl(x, k);
    assert Shl(x, k + 4) == 4 * Shl(x, k + 2);
  }

  lemma Shl16(x: nat)
    ensures Shl(x, 16) == x * 0x1_0000
  {
    ShlNibble(x, 0);
    ShlNibble(x, 4);
    ShlNibble(x, 8);
    ShlNibble(x, 12);
  }

  lemma ShlWord()
    ensures Shl(1, 32) == TWO32
  {
    Shl16(1);
    Shl16(Shl(1, 16));
    ShlTwice(1, 16, 16);
  }

  lemma PairValue(x: U16, y: U16)
    ensures IdPair(x, y) == x * 0x1_0000 + y
  {
    Shl16(x);
    Shl16(1);
    OrShifted(x, y, 16);
  }

  /** 16-bit ids come back out of a pair, so different pairs pack differently. */
  lemma PairRoundTrip(x: U16, y: U16)
    ensures PairFirst(IdPair(x, y)) == x && PairSecond(IdPair(x, y)) == y
  {
    PairValue(x, y);
  }

  /** Ids come back out of their pair if and only if both fit 16 bits. */
  lemma PairRoundTripIff(x: U32, y: U32)
    ensures (PairFirst(IdPair(x, y)) == x && PairSecond(IdPair(x, y)) == y) <==> x < 0x1_0000 && y < 0x1_0000
  {
    if x < 0x1_0000 && y < 0x1_0000 { PairRoundTrip(x, y); }
  }

  /** Any word is the pair of its halves. */
  lemma PairOfHalves(w: U32)
    ensures IdPair(PairFirst(w), PairSecond(w)) == w
  {
    PairValue(PairFirst(w), PairSecond(w));
  }

  /** Beyond 16 bits packing is ambiguous. */
  lemma WideIdsCollide()
    ensures IdPair(0x1_0000, 0) == IdPair(0, 0)
    ensures IdPair(0, 0x1_0000) == IdPair(1, 0)
  {
    Shl16(0x1_0000);
    Shl16(0);
    Shl16(1);
    OrZero(0x1_0000);
    calc {
      IdPair(0, 0x1_0000);
      BitOr(0, 0x1_0000);
      { OrCommutes(0, 0x1_0000); }
      0x1_0000;
      IdPair(1, 0);
    }
  }

  lemma {:induction false} OrCommutes(a: nat, b: nat)
    ensures BitOr(a, b) == BitOr(b, a)
  {
    if a > 0 || b > 0 { OrCommutes(a / 2, b / 2); }
  }

  /* ---- categories wider than a byte ---- */

  lemma {:induction false} XorZero(a: nat)
    ensures BitXor(a, 0) == a
  {
    if a > 0 { XorZero(a / 2); }
  }

  /** Flipping bits changes a number, by no more than the bits flipped. */
  lemma {:induction false} XorMoves(a: nat, m: nat)
    ensures BitXor(a, m) <= a + m && a <= BitXor(a, m) + m && (m > 0 ==> BitXor(a, m) != a)
    decreases m
  {
    if m == 0 { XorZero(a); } else { XorMoves(a / 2, m / 2); }
  }

  /** Flipping further bits above bit k moves the result by d times 2^k. */
  lemma {:induction false} XorAbove(x: nat, c: nat, m: nat, k: nat) returns (d: int)
    requires c < Shl(1, k)
    ensures BitXor(x, c + Shl(m, k)) - BitXor(x, c) == d * Shl(1, k)
    ensures 0 <= d + m && d <= m && (m > 0 ==> d != 0)
    decreases k
  {
    hide BitXor, Shl;
    ShlStep(m, k);
    ShlStep(1, k);
    if k == 0 {
      XorZero(x);
      XorMoves(x, m);
      d := BitXor(x, m) - x;
    } else {
      d := XorAbove(x / 2, c / 2, m, k - 1);
      var y := c + Shl(m, k);
      assert y / 2 == c / 2 + Shl(m, k - 1) && y % 2 == c % 2;
      XorHalves(x, y);
      XorHalves(x, c);
      var e := d * Shl(1, k - 1);
      assert d * Shl(1, k) == 2 * e;
    }
  }

  lemma ShlStep(x: nat, k: nat)
    ensures Shl(x, k) == if k == 0 then x else 2 * Shl(x, k - 1)
  {
  }

  lemma XorHalves(x: nat, y: nat)
    ensures BitXor(x, y) == (if x % 2 != y % 2 then 1 else 0) + 2 * BitXor(x / 2, y / 2)
  {
  }

  /** 4099 is prime to 8192. */
  lemma NewRemainder(a: nat, d: int)
    requires -HASH_SIZE < d < HASH_SIZE && d != 0 && a + 8192 * d >= 0
    ensures (a + 8192 * d) % HASH_SIZE != a % HASH_SIZE
  {
  }

  lemma Shl5(cat: nat)
    ensures Shl(cat, 5) == 32 * cat && Shl(1, 13) == 8192 && Shl(cat, 13) == 8192 * cat
  {
    assert Shl(cat, 5) == 2 * Shl(cat, 4);
    ShlNibble(cat, 0);
    ShlNibble(cat, 4);
    ShlNibble(cat, 8);
    ShlNibble(1, 0);
    ShlNibble(1, 4);
    ShlNibble(1, 8);
    assert Shl(cat, 13) == 2 * Shl(cat, 12) && Shl(1, 13) == 2 * Shl(1, 12);
  }

  /** An entry is filed under the hash of its whole category but keeps a byte of
      it: below 2^20 it sits in the chain of its own hash if and only if the
      category is a byte, whatever its ids are. */
  lemma FiledIff(cat: nat, id12: U32, id34: U32)
    requires cat < 0x10_0000
    ensures IdHash(cat, id12, id34) == IdHash(cat % 0x100, id12, id34) <==> cat < 0x100
  {
    hide BitXor, Shl;
    var b, m := cat % 0x100, cat / 0x100;
    if cat >= 0x100 {
      var x := BitXor(id12, Shl(id34, 3) % TWO32);
      Shl5(cat);
      Shl5(b);
      Shl5(m);
      assert Shl(cat, 5) == Shl(b, 5) + Shl(m, 13);
      var d := XorAbove(x, Shl(b, 5), m, 13);
      NewRemainder(BitXor(x, Shl(b, 5)), d);
    }
  }

  lemma HashOfZero(cat: nat)
    requires cat < 0x100_0000
    ensures IdHash(cat, 0, 0) == 32 * cat % HASH_SIZE
  {
    hide BitXor, Shl;
    Shl5(cat);
    ShlOfZero(3);
    XorOfZero(32 * cat);
    XorOfZero(0);
  }

  lemma {:induction false} ShlOfZero(k: nat)
    ensures Shl(0, k) == 0
  {
    if k > 0 { ShlOfZero(k - 1); }
  }

  /** Category 256 hashes to chain 4093, its byte 0 to chain 0. */
  lemma WideCategoryMisfiled()
    ensures IdHash(256, 0, 0) == 4093 && IdHash(0, 0, 0) == 0
  {
    hide BitXor, Shl;
    HashOfZero(256);
    HashOfZero(0);
  }

  /** Beyond 2^20 a wide category can meet the chain of its byte. */
  lemma WideCategoryMeetsByte()
    ensures IdHash(0x100 * 4099, 0, 0) == IdHash(0, 0, 0)
  {
    hide BitXor, Shl;
    HashOfZero(0x100 * 4099);
    HashOfZero(0);
  }

  lemma {:induction false} XorOfZero(a: nat)
    ensures BitXor(0, a) == a
  {
    if a > 0 { XorOfZero(a / 2); }
  }
}
