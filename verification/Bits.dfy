/** Bitwise operations on natural numbers, and the few facts about bytes the frame codecs use. */
module Bits {
  import opened Common

  function Xor(a: nat, b: nat): nat {
    if a == 0 && b == 0 then 0 else (a + b) % 2 + 2 * Xor(a / 2, b / 2)
  }

  function And(a: nat, b: nat): nat {
    if a == 0 || b == 0 then 0 else (if a % 2 == 1 && b % 2 == 1 then 1 else 0) + 2 * And(a / 2, b / 2)
  }

  function Or(a: nat, b: nat): nat {
    if a == 0 && b == 0 then 0 else (if a % 2 == 1 || b % 2 == 1 then 1 else 0) + 2 * Or(a / 2, b / 2)
  }

  lemma {:induction false} XorTwice(a: nat, b: nat)
    ensures Xor(Xor(a, b), b) == a
  {
    if a != 0 || b != 0 {
      var x, rest := Xor(a, b), Xor(a / 2, b / 2);
      XorTwice(a / 2, b / 2);
      assert x / 2 == rest && x % 2 == (a + b) % 2;
      if x != 0 || b != 0 {
        assert Xor(x, b) == (x + b) % 2 + 2 * Xor(rest, b / 2);
        assert (x + b) % 2 == a % 2 by { Parity(x, a, b); }
      }
    }
  }

  lemma Parity(x: nat, a: nat, b: nat)
    requires x % 2 == (a + b) % 2
    ensures (x + b) % 2 == a % 2
  {
    var h, k := x / 2, (a + b) / 2;
    assert x + b == 2 * (h - k + b) + a;
  }

  lemma {:induction false} XorBelow(a: nat, b: nat, limit: nat)
    requires a < limit && b < limit && limit in {1, 2, 4, 8, 16, 32, 64, 128, 256}
    ensures Xor(a, b) < limit
  {
    if limit > 1 { XorBelow(a / 2, b / 2, limit / 2); }
  }

  function XorByte(a: Byte, b: Byte): Byte {
    XorBelow(a, b, 256);
    Xor(a, b)
  }

  /** Binary digit `k` of `n`, counted from the lowest. */
  predicate Bit(n: nat, k: nat) {
    if k == 0 then n % 2 == 1 else Bit(n / 2, k - 1)
  }

  lemma {:induction false} XorBits(a: nat, b: nat, k: nat)
    ensures Bit(Xor(a, b), k) <==> Bit(a, k) != Bit(b, k)
  {
    hide Xor;
    XorStep(a, b);
    if k > 0 { XorBits(a / 2, b / 2, k - 1); }
  }

  lemma XorStep(a: nat, b: nat)
    ensures Xor(a, b) / 2 == Xor(a / 2, b / 2)
    ensures Xor(a, b) % 2 == 1 <==> (a % 2 == 1) != (b % 2 == 1)
  {
    var rest, low := Xor(a / 2, b / 2), (a + b) % 2;
    assert Xor(a, b) == low + 2 * rest;
    hide Xor;
    OddSum(a, b);
  }

  lemma OddSum(a: nat, b: nat)
    ensures (a + b) % 2 == 1 <==> (a % 2 == 1) != (b % 2 == 1)
  {
    assert a + b == a % 2 + b % 2 + 2 * (a / 2 + b / 2);
  }

  lemma {:induction false} OrHigh(low: nat, high: nat)
    requires high in {1, 2, 4, 8, 16, 32, 64, 128} && low < high
    ensures Or(high, low) == high + low
  {
    if high > 1 { OrHigh(low / 2, high / 2); }
    else { assert Or(1, 0) == 1; }
  }

  lemma AndStep(a: nat, b: nat)
    ensures And(a, 2 * b + 1) == a % 2 + 2 * And(a / 2, b)
    ensures And(a, 2 * b) == 2 * And(a / 2, b)
  {
    var odd, even := 2 * b + 1, 2 * b;
    assert odd % 2 == 1 && odd / 2 == b && even % 2 == 0 && even / 2 == b;
    AndZero(a / 2);
    if a > 0 { assert And(a, odd) == (if a % 2 == 1 then 1 else 0) + 2 * And(a / 2, b); }
  }

  lemma AndZero(a: nat)
    ensures And(a, 0) == And(0, a) == 0
  {
  }

  /** The masks of the frame header: opcode, length, flag and reserved bits. */
  lemma HeaderMasks(b: Byte)
    ensures And(b, 0x0F) == b % 16
    ensures And(b, 0x7F) == b % 128
    ensures And(b, 0x80) != 0 <==> b >= 128
    ensures And(b, 0x70) != 0 <==> b % 128 >= 16
  {
    hide And;
    And15(b);
    And127(b);
    And128(b);
    And112(b);
  }

  lemma And7(a: nat)
    ensures And(a, 7) == a % 8
  {
    hide And;
    AndZero(a / 8);
    AndStep(a, 3); AndStep(a / 2, 1); AndStep(a / 4, 0);
    assert a / 2 / 2 == a / 4 && a / 4 / 2 == a / 8;
  }

  lemma And15(a: nat)
    ensures And(a, 15) == a % 16
  {
    hide And;
    AndStep(a, 7);
    And7(a / 2);
    assert a == 16 * (a / 2 / 8) + (a / 2 % 8 * 2 + a % 2);
  }

  lemma And31(a: nat)
    ensures And(a, 31) == a % 32
  {
    hide And;
    AndStep(a, 15);
    And15(a / 2);
    assert a == 32 * (a / 2 / 16) + (a / 2 % 16 * 2 + a % 2);
  }

  lemma And63(a: nat)
    ensures And(a, 63) == a % 64
  {
    hide And;
    AndStep(a, 31);
    And31(a / 2);
    assert a == 64 * (a / 2 / 32) + (a / 2 % 32 * 2 + a % 2);
  }

  lemma And127(a: nat)
    ensures And(a, 127) == a % 128
  {
    hide And;
    AndStep(a, 63);
    And63(a / 2);
    assert a == 128 * (a / 2 / 64) + (a / 2 % 64 * 2 + a % 2);
  }

  lemma And128(a: nat)
    requires a < 256
    ensures And(a, 128) != 0 <==> a >= 128
  {
    hide And;
    AndStep(a, 64); AndStep(a / 2, 32); AndStep(a / 4, 16); AndStep(a / 8, 8);
    assert a / 2 / 2 == a / 4 && a / 4 / 2 == a / 8 && a / 8 / 2 == a / 16;
    And8(a / 16);
  }

  lemma And8(a: nat)
    requires a < 16
    ensures And(a, 8) != 0 <==> a >= 8
  {
    hide And;
    AndStep(a, 4); AndStep(a / 2, 2); AndStep(a / 4, 1); AndStep(a / 8, 0);
    AndZero(a / 16);
    assert a / 2 / 2 == a / 4 && a / 4 / 2 == a / 8 && a / 8 / 2 == a / 16;
  }

  lemma And112(a: nat)
    ensures And(a, 112) != 0 <==> a % 128 >= 16
  {
    hide And;
    AndStep(a, 56); AndStep(a / 2, 28); AndStep(a / 2 / 2, 14); AndStep(a / 2 / 2 / 2, 7);
    And7(a / 2 / 2 / 2 / 2);
    Sixteenth(a);
  }

  lemma Sixteenth(a: nat)
    ensures a / 2 / 2 / 2 / 2 == a / 16
    ensures a / 16 % 8 != 0 <==> a % 128 >= 16
  {
    assert a / 2 / 2 == a / 4;
    assert a / 4 / 2 == a / 8;
    assert a / 8 / 2 == a / 16;
    var q := a / 16;
    assert a == 128 * (q / 8) + (q % 8 * 16 + a % 16);
  }
}
