/** Which transmission errors the XOR checksum catches: error patterns are XORed onto the eight payload bytes. */
module ChecksumStrength {
  import opened Bytes
  import opened Status
  import opened Codec

  predicate Sealed(data: seq<uint8>)
    requires |data| == 8
  {
    data[7] == Checksum(data)
  }

  function Disturbed(data: seq<uint8>, error: seq<uint8>): (r: seq<uint8>)
    requires |data| == |error|
    ensures |r| == |data| && forall i :: 0 <= i < |r| ==> r[i] == Xor(data[i], error[i])
  {
    seq(|data|, i requires 0 <= i < |data| && |data| == |error| => Xor(data[i], error[i]))
  }

  lemma SealedMeansZero(data: seq<uint8>)
    requires |data| == 8
    ensures Sealed(data) <==> XorFold(data) == 0
  {
    XorIsZeroIff(XorFold(data[..7]), data[7]);
  }

  lemma {:induction false} FoldOfDisturbed(data: seq<uint8>, error: seq<uint8>)
    requires |data| == |error|
    ensures XorFold(Disturbed(data, error)) == Xor(XorFold(data), XorFold(error))
  {
    if data == [] {
    } else {
      var n := |data| - 1;
      FoldOfDisturbed(data[..n], error[..n]);
      assert Disturbed(data, error)[..n] == Disturbed(data[..n], error[..n]);
      XorRearrange(XorFold(data[..n]), XorFold(error[..n]), data[n], error[n]);
    }
  }

  /** A disturbed frame still passes exactly when the XOR of the eight error bytes is zero. */
  lemma ErrorPassesIff(data: seq<uint8>, error: seq<uint8>)
    requires |data| == |error| == 8 && Sealed(data)
    ensures Sealed(Disturbed(data, error)) <==> XorFold(error) == 0
  {
    hide Xor;
    XorWithZero(XorFold(error));
    SealedMeansZero(data);
    SealedMeansZero(Disturbed(data, error));
    FoldOfDisturbed(data, error);
  }

  // --- odd numbers of flipped bits --------------------------------------------

  /** How many of the n lowest bits are set. */
  function BitCount(b: uint8, n: nat): nat {
    if n == 0 then 0 else BitCount(b, n - 1) + (if Bit(b, n - 1) then 1 else 0)
  }

  function CommonBits(a: uint8, b: uint8, n: nat): nat {
    if n == 0 then 0 else CommonBits(a, b, n - 1) + (if Bit(a, n - 1) && Bit(b, n - 1) then 1 else 0)
  }

  function FlippedBits(error: seq<uint8>): nat {
    if error == [] then 0 else FlippedBits(error[..|error| - 1]) + BitCount(error[|error| - 1], 8)
  }

  lemma {:induction false} BitCountOfXor(a: uint8, b: uint8, n: nat)
    requires n <= 8
    ensures BitCount(Xor(a, b), n) + 2 * CommonBits(a, b, n) == BitCount(a, n) + BitCount(b, n)
  {
    if n == 0 {
    } else {
      BitCountOfXor(a, b, n - 1);
      BitOfXor(a, b, n - 1);
    }
  }

  lemma {:induction false} NoBitsInZero(n: nat)
    ensures BitCount(0, n) == 0
  {
    if n == 0 {
    } else {
      NoBitsInZero(n - 1);
      ZeroHasNoBits(n - 1);
    }
  }

  lemma ParityStep(sum: nat, common: nat, a: nat, b: nat, flips: nat)
    requires sum + 2 * common == a + b && a % 2 == flips % 2
    ensures sum % 2 == (flips + b) % 2
  {
  }

  lemma {:induction false} FoldKeepsParity(error: seq<uint8>)
    ensures BitCount(XorFold(error), 8) % 2 == FlippedBits(error) % 2
  {
    if error == [] {
      NoBitsInZero(8);
    } else {
      var before, last := XorFold(error[..|error| - 1]), error[|error| - 1];
      FoldKeepsParity(error[..|error| - 1]);
      BitCountOfXor(before, last, 8);
      ParityStep(BitCount(Xor(before, last), 8), CommonBits(before, last, 8), BitCount(before, 8), BitCount(last, 8),
                 FlippedBits(error[..|error| - 1]));
    }
  }

  /** Any odd number of flipped bits is caught. */
  lemma OddFlipsRejected(data: seq<uint8>, error: seq<uint8>)
    requires |data| == |error| == 8 && Sealed(data)
    requires FlippedBits(error) % 2 == 1
    ensures !Sealed(Disturbed(data, error))
  {
    FoldKeepsParity(error);
    NoBitsInZero(8);
    ErrorPassesIff(data, error);
  }

  // --- bursts ----------------------------------------------------------------

  /** Bit p of the pattern in transmission order: byte by byte, most significant bit first. */
  predicate ErrorBit(error: seq<uint8>, p: nat)
    requires p < 8 * |error|
  {
    Bit(error[p / 8], 7 - p % 8)
  }

  ghost predicate BurstWithin(error: seq<uint8>, start: nat) {
    forall p: nat :: p < 8 * |error| && ErrorBit(error, p) ==> start <= p < start + 8
  }

  lemma {:induction false} QuietColumn(error: seq<uint8>, j: nat)
    requires j < 8
    requires forall i :: 0 <= i < |error| ==> !Bit(error[i], j)
    ensures !Bit(XorFold(error), j)
  {
    if error == [] {
      ZeroHasNoBits(j);
    } else {
      QuietColumn(error[..|error| - 1], j);
      BitOfXor(XorFold(error[..|error| - 1]), error[|error| - 1], j);
    }
  }

  lemma {:induction false} LoneBitSurvives(error: seq<uint8>, j: nat, k: nat)
    requires j < 8 && k < |error| && Bit(error[k], j)
    requires forall i :: 0 <= i < |error| && i != k ==> !Bit(error[i], j)
    ensures Bit(XorFold(error), j)
  {
    var n := |error| - 1;
    if k == n {
      QuietColumn(error[..n], j);
    } else {
      LoneBitSurvives(error[..n], j, k);
    }
    BitOfXor(XorFold(error[..n]), error[n], j);
  }

  lemma PositionOf(i: nat, j: nat)
    requires j < 8
    ensures (8 * i + 7 - j) / 8 == i && 7 - (8 * i + 7 - j) % 8 == j
  {
  }

  /** Any error confined to eight consecutive transmitted bits is caught. */
  lemma BurstRejected(data: seq<uint8>, error: seq<uint8>, start: nat)
    requires |data| == |error| == 8 && Sealed(data)
    requires BurstWithin(error, start)
    requires exists i :: 0 <= i < 8 && error[i] != 0
    ensures !Sealed(Disturbed(data, error))
  {
    var k :| 0 <= k < 8 && error[k] != 0;
    NonzeroHasBit(error[k]);
    var j: nat :| j < 8 && Bit(error[k], j);
    PositionOf(k, j);
    assert ErrorBit(error, 8 * k + 7 - j);
    forall i | 0 <= i < 8 && i != k ensures !Bit(error[i], j) {
      PositionOf(i, j);
      if Bit(error[i], j) {
        assert ErrorBit(error, 8 * i + 7 - j);
        assert false;
      }
    }
    LoneBitSurvives(error, j, k);
    ZeroHasNoBits(j);
    ErrorPassesIff(data, error);
  }

  function OneByte(k: nat, change: uint8): (error: seq<uint8>)
    ensures |error| == 8 && forall i :: 0 <= i < 8 ==> error[i] == if i == k then change else 0
  {
    seq(8, i requires 0 <= i < 8 => if i == k then change else 0)
  }

  lemma OneByteIsBurst(k: nat, change: uint8)
    requires k < 8
    ensures BurstWithin(OneByte(k, change), 8 * k)
  {
    var error := OneByte(k, change);
    forall p: nat | p < 64 && ErrorBit(error, p) ensures 8 * k <= p < 8 * k + 8 {
      ZeroHasNoBits(7 - p % 8);
      assert error[p / 8] != 0;
    }
  }

  lemma ChangeAsDisturbance(data: seq<uint8>, k: nat, changed: uint8)
    requires |data| == 8 && k < 8
    ensures Disturbed(data, OneByte(k, Xor(data[k], changed))) == data[k := changed]
  {
    var r := Disturbed(data, OneByte(k, Xor(data[k], changed)));
    forall i | 0 <= i < 8 ensures r[i] == data[k := changed][i] {
      XorTwice(data[i], changed);
      XorWithZero(data[i]);
    }
  }

  /** A change confined to one byte is a burst, so it is caught whichever byte it hits. */
  lemma ByteChangeRejected(data: seq<uint8>, k: nat, changed: uint8)
    requires |data| == 8 && Sealed(data)
    requires k < 8 && changed != data[k]
    ensures !Sealed(data[k := changed])
  {
    ChangeAsDisturbance(data, k, changed);
    OneByteIsBurst(k, Xor(data[k], changed));
    XorIsZeroIff(data[k], changed);
    assert OneByte(k, Xor(data[k], changed))[k] != 0;
    BurstRejected(data, OneByte(k, Xor(data[k], changed)), 8 * k);
  }

  /** The same facts as the receiver sees them: a disturbed copy of an accepted frame is a parse error. */
  lemma DisturbedFrameIsParseError(f: Frame, error: seq<uint8>)
    requires Accepted(f) && |error| == 8
    ensures Decode(f.(data := Disturbed(f.data, error))) == Failure(ParseError) <==> XorFold(error) != 0
  {
    ErrorPassesIff(f.data, error);
  }
}
