/** Bytes as numbers, with exclusive or and single bits written out in arithmetic. */
module Bytes {

  type uint8 = n: int | 0 <= n < 256
  type uint16 = n: int | 0 <= n < 0x1_0000

  function Pow2(n: nat): nat {
    if n == 0 then 1 else 2 * Pow2(n - 1)
  }

  /** Exclusive or of two numbers, least significant bit first. */
  function XorBits(a: nat, b: nat): nat
    decreases a + b
  {
    if a + b == 0 then 0 else 2 * XorBits(a / 2, b / 2) + (a % 2 + b % 2) % 2
  }

  lemma {:induction false} XorBitsInRange(a: nat, b: nat, width: nat)
    requires a < Pow2(width) && b < Pow2(width)
    ensures XorBits(a, b) < Pow2(width)
    decreases width
  {
    if width == 0 {
    } else {
      XorBitsInRange(a / 2, b / 2, width - 1);
    }
  }

  function Xor(a: uint8, b: uint8): uint8 {
    assert Pow2(8) == 256;
    XorBitsInRange(a, b, 8);
    XorBits(a, b)
  }

  predicate Bit(b: nat, j: nat)
    decreases j
  {
    if j == 0 then b % 2 == 1 else Bit(b / 2, j - 1)
  }

  lemma HalfAndParity(half: nat, parity: nat)
    requires parity < 2
    ensures (2 * half + parity) / 2 == half && (2 * half + parity) % 2 == parity
  {
  }

  lemma ParityOfSum(a: nat, b: nat)
    ensures (a % 2 + b % 2) % 2 == 1 <==> (a % 2 == 1) != (b % 2 == 1)
  {
  }

  lemma {:induction false} BitOfXorBits(a: nat, b: nat, j: nat)
    ensures Bit(XorBits(a, b), j) <==> Bit(a, j) != Bit(b, j)
    decreases j
  {
    HalfAndParity(XorBits(a / 2, b / 2), (a % 2 + b % 2) % 2);
    ParityOfSum(a, b);
    if j == 0 {
    } else {
      BitOfXorBits(a / 2, b / 2, j - 1);
    }
  }

  /** Bit by bit, exclusive or is inequality. */
  lemma BitOfXor(a: uint8, b: uint8, j: nat)
    ensures Bit(Xor(a, b), j) <==> Bit(a, j) != Bit(b, j)
  {
    BitOfXorBits(a, b, j);
  }

  lemma {:induction false} BitsDetermine(a: nat, b: nat, width: nat)
    requires a < Pow2(width) && b < Pow2(width)
    requires forall j: nat :: j < width ==> (Bit(a, j) <==> Bit(b, j))
    ensures a == b
    decreases width
  {
    if width == 0 {
    } else {
      forall j: nat | j < width - 1 ensures Bit(a / 2, j) <==> Bit(b / 2, j) {
        assert Bit(a, j + 1) <==> Bit(b, j + 1);
      }
      BitsDetermine(a / 2, b / 2, width - 1);
      assert Bit(a, 0) <==> Bit(b, 0);
    }
  }

  lemma SameByte(a: uint8, b: uint8)
    requires forall j: nat :: j < 8 ==> (Bit(a, j) <==> Bit(b, j))
    ensures a == b
  {
    assert Pow2(8) == 256;
    BitsDetermine(a, b, 8);
  }

  lemma {:induction false} ZeroHasNoBits(j: nat)
    ensures !Bit(0, j)
    decreases j
  {
    if j == 0 {
    } else {
      ZeroHasNoBits(j - 1);
    }
  }

  lemma NonzeroHasBit(b: uint8)
    requires b != 0
    ensures exists j: nat :: j < 8 && Bit(b, j)
  {
    if forall j: nat :: j < 8 ==> !Bit(b, j) {
      forall j: nat | j < 8 ensures Bit(b, j) <==> Bit(0, j) { ZeroHasNoBits(j); }
      SameByte(b, 0);
    }
  }

  lemma XorIsZeroIff(a: uint8, b: uint8)
    ensures Xor(a, b) == 0 <==> a == b
  {
    if Xor(a, b) == 0 {
      forall j: nat | j < 8 ensures Bit(a, j) <==> Bit(b, j) { BitOfXor(a, b, j); ZeroHasNoBits(j); }
      SameByte(a, b);
    } else if a == b {
      NonzeroHasBit(Xor(a, b));
      var j: nat :| j < 8 && Bit(Xor(a, b), j);
      BitOfXor(a, b, j);
    }
  }

  lemma XorRearrange(a: uint8, b: uint8, c: uint8, d: uint8)
    ensures Xor(Xor(a, b), Xor(c, d)) == Xor(Xor(a, c), Xor(b, d))
  {
    forall j: nat | j < 8 ensures Bit(Xor(Xor(a, b), Xor(c, d)), j) <==> Bit(Xor(Xor(a, c), Xor(b, d)), j) {
      BitOfXor(Xor(a, b), Xor(c, d), j);
      BitOfXor(a, b, j);
      BitOfXor(c, d, j);
      BitOfXor(Xor(a, c), Xor(b, d), j);
      BitOfXor(a, c, j);
      BitOfXor(b, d, j);
    }
    SameByte(Xor(Xor(a, b), Xor(c, d)), Xor(Xor(a, c), Xor(b, d)));
  }

  lemma XorWithZero(a: uint8)
    ensures Xor(a, 0) == a && Xor(0, a) == a
  {
    forall j: nat | j < 8 ensures (Bit(Xor(a, 0), j) <==> Bit(a, j)) && (Bit(Xor(0, a), j) <==> Bit(a, j)) {
      BitOfXor(a, 0, j);
      BitOfXor(0, a, j);
      ZeroHasNoBits(j);
    }
    SameByte(Xor(a, 0), a);
    SameByte(Xor(0, a), a);
  }

  lemma XorTwice(a: uint8, b: uint8)
    ensures Xor(a, Xor(a, b)) == b
  {
    forall j: nat | j < 8 ensures Bit(Xor(a, Xor(a, b)), j) <==> Bit(b, j) {
      BitOfXor(a, Xor(a, b), j);
      BitOfXor(a, b, j);
    }
    SameByte(Xor(a, Xor(a, b)), b);
  }
}
