/** The eight-byte sensor frame: big-endian fixed point, one run byte and an XOR checksum. */
module Codec {
  import opened Bytes
  import opened Status

  const SENSOR_ID: uint32 := 0x100
  const SENSOR_ERROR_ID: uint32 := 0x10E
  const SENSOR_TEMP_B_ID: uint32 := 0x110

  datatype RawFrame = Frame(id: uint32, dlc: uint8, data: seq<uint8>)

  type Frame = f: RawFrame | |f.data| == 8 witness Frame(0, 0, [0, 0, 0, 0, 0, 0, 0, 0])

  datatype SensorFrame = SensorFrame(rpm: real, temperature: real, oilPressure: real, isRunning: int)
  {
    /** The ranges the HAL enforces on both sides of the wire. */
    predicate Valid() {
      && 0.0 <= rpm <= 10000.0
      && -50.0 <= temperature <= 200.0
      && 0.0 <= oilPressure <= 10.0
      && (isRunning == 0 || isRunning == 1)
    }

    /** A valid reading that the wire format represents exactly: 1 rpm, 0.1 degrees, 0.01 bar. */
    ghost predicate OnGrid() {
      Valid() && IsInteger(rpm) && IsInteger(temperature * 10.0) && IsInteger(oilPressure * 100.0)
    }
  }

  ghost predicate IsInteger(x: real) { x.Floor as real == x }

  function XorFold(bytes: seq<uint8>): uint8 {
    if bytes == [] then 0 else Xor(XorFold(bytes[..|bytes| - 1]), bytes[|bytes| - 1])
  }

  function Checksum(data: seq<uint8>): uint8
    requires |data| == 8
  {
    XorFold(data[..7])
  }

  function High(n: uint16): uint8 { n / 256 }
  function Low(n: uint16): uint8 { n % 256 }
  function Word(high: uint8, low: uint8): uint16 { high * 256 + low }

  lemma WordsAndBytes(n: uint16, high: uint8, low: uint8)
    ensures Word(High(n), Low(n)) == n
    ensures High(Word(high, low)) == high && Low(Word(high, low)) == low
  {
  }

  function EncodeRpm(rpm: real): int { (rpm + 0.5).Floor }
  function EncodeTemperature(temperature: real): int { ((temperature + 50.0) * 10.0 + 0.5).Floor }
  function EncodeOil(oilPressure: real): int { (oilPressure * 100.0 + 0.5).Floor }

  /** The payload bytes for three encoded words and a run byte, checksum included. */
  function Payload(rpm: uint16, temperature: uint16, oil: uint16, run: uint8): (data: seq<uint8>)
    ensures |data| == 8
  {
    var body := [High(rpm), Low(rpm), High(temperature), Low(temperature), High(oil), Low(oil), run];
    body + [XorFold(body)]
  }

  function Encode(s: SensorFrame): Result<Frame> {
    if !s.Valid() then Failure(InvalidArgument)
    else Success(Frame(SENSOR_ID, 8,
                       Payload(EncodeRpm(s.rpm), EncodeTemperature(s.temperature), EncodeOil(s.oilPressure),
                               s.isRunning)))
  }

  /** The reading a payload stands for, in range or not. */
  function Unpacked(data: seq<uint8>): SensorFrame
    requires |data| == 8
  {
    SensorFrame(Word(data[0], data[1]) as real,
                (Word(data[2], data[3]) as real - 500.0) / 10.0,
                Word(data[4], data[5]) as real / 100.0,
                data[6])
  }

  function Decode(f: Frame): Result<SensorFrame> {
    if f.id != SENSOR_ID || f.dlc != 8 then Failure(ParseError)
    else if f.data[7] != Checksum(f.data) then Failure(ParseError)
    else
      var s := Unpacked(f.data);
      if s.Valid() then Success(s) else Failure(InvalidArgument)
  }

  /** A frame the receiving side accepts. */
  predicate Accepted(f: Frame) { Decode(f).Success? }

  // --- the code as it runs -------------------------------------------------

  method FrameChecksum(data: seq<uint8>) returns (checksum: uint8)
    requires |data| == 8
    ensures checksum == Checksum(data)
  {
    checksum := 0;
    var idx := 0;
    while idx < 7
      invariant 0 <= idx <= 7
      invariant checksum == XorFold(data[..idx])
    {
      checksum := Xor(checksum, data[idx]);
      assert data[..idx + 1][..idx] == data[..idx];
      idx := idx + 1;
    }
  }

  /** Fill the payload byte by byte; the checksum goes in last, over the seven bytes before it. */
  method Pack(rpm: uint16, temperature: uint16, oil: uint16, run: uint8) returns (data: array<uint8>)
    ensures fresh(data) && data.Length == 8 && data[..] == Payload(rpm, temperature, oil, run)
  {
    data := new uint8[8];
    data[0] := rpm / 256;
    data[1] := rpm % 256;
    data[2] := temperature / 256;
    data[3] := temperature % 256;
    data[4] := oil / 256;
    data[5] := oil % 256;
    data[6] := run;
    ghost var body := data[..7];
    assert body == [High(rpm), Low(rpm), High(temperature), Low(temperature), High(oil), Low(oil), run];
    var checksum := FrameChecksum(data[..]);
    assert data[..][..7] == body;
    data[7] := checksum;
    assert data[..] == body + [XorFold(body)];
  }

  method EncodeSensorFrame(s: SensorFrame) returns (r: Result<Frame>)
    ensures r == Encode(s)
  {
    if !s.Valid() {
      return Failure(InvalidArgument);
    }
    RpmRounding(s.rpm);
    TemperatureRounding(s.temperature);
    OilRounding(s.oilPressure);
    var data := Pack(EncodeRpm(s.rpm), EncodeTemperature(s.temperature), EncodeOil(s.oilPressure), s.isRunning);
    return Success(Frame(SENSOR_ID, 8, data[..]));
  }

  method DecodeSensorFrame(f: Frame) returns (r: Result<SensorFrame>)
    ensures r == Decode(f)
  {
    if f.id != SENSOR_ID || f.dlc != 8 {
      return Failure(ParseError);
    }
    var checksum := FrameChecksum(f.data);
    if f.data[7] != checksum {
      return Failure(ParseError);
    }
    var s := Unpacked(f.data);
    if !s.Valid() {
      return Failure(InvalidArgument);
    }
    return Success(s);
  }

  // --- the two directions of the bijection ---------------------------------

  lemma PayloadIsSealed(rpm: uint16, temperature: uint16, oil: uint16, run: uint8)
    ensures var d := Payload(rpm, temperature, oil, run);
            && d[7] == Checksum(d)
            && Word(d[0], d[1]) == rpm && Word(d[2], d[3]) == temperature && Word(d[4], d[5]) == oil
            && d[6] == run
  {
    var d := Payload(rpm, temperature, oil, run);
    assert d[..7] == [High(rpm), Low(rpm), High(temperature), Low(temperature), High(oil), Low(oil), run];
  }

  /** What a valid reading turns into on the far side of the wire. */
  function Quantised(s: SensorFrame): SensorFrame {
    SensorFrame(EncodeRpm(s.rpm) as real,
                (EncodeTemperature(s.temperature) as real - 500.0) / 10.0,
                EncodeOil(s.oilPressure) as real / 100.0,
                s.isRunning)
  }

  lemma FloorIs(x: real, n: int)
    requires n as real <= x < n as real + 1.0
    ensures x.Floor == n
  {
  }

  lemma RoundingError(x: real)
    ensures -0.5 < (x + 0.5).Floor as real - x <= 0.5
  {
  }

  lemma RpmRounding(rpm: real)
    requires 0.0 <= rpm <= 10000.0
    ensures 0 <= EncodeRpm(rpm) <= 10000 && -0.5 < EncodeRpm(rpm) as real - rpm <= 0.5
  {
    RoundingError(rpm);
  }

  lemma TemperatureRounding(temperature: real)
    requires -50.0 <= temperature <= 200.0
    ensures 0 <= EncodeTemperature(temperature) <= 2500
    ensures -0.05 < (EncodeTemperature(temperature) as real - 500.0) / 10.0 - temperature <= 0.05
  {
    RoundingError((temperature + 50.0) * 10.0);
  }

  lemma OilRounding(oilPressure: real)
    requires 0.0 <= oilPressure <= 10.0
    ensures 0 <= EncodeOil(oilPressure) <= 1000
    ensures -0.005 < EncodeOil(oilPressure) as real / 100.0 - oilPressure <= 0.005
  {
    RoundingError(oilPressure * 100.0);
  }

  /** Scaled integers are exactly what the decoder produces, so they lie on the grid. */
  lemma ScaledIsInteger(n: int)
    ensures IsInteger(n as real)
    ensures IsInteger((n as real - 500.0) / 10.0 * 10.0)
    ensures IsInteger(n as real / 100.0 * 100.0)
  {
    FloorIs(n as real, n);
    assert (n as real - 500.0) / 10.0 * 10.0 == (n - 500) as real;
    FloorIs((n - 500) as real, n - 500);
  }

  /** Every valid reading is encoded, the decoder takes the frame, and the error per field is half a grid step. */
  lemma DecodeOfEncode(s: SensorFrame)
    requires s.Valid()
    ensures Encode(s).Success? && Decode(Encode(s).value) == Success(Quantised(s))
    ensures Quantised(s).OnGrid()
    ensures var q := Quantised(s);
            && -0.5 < q.rpm - s.rpm <= 0.5
            && -0.05 < q.temperature - s.temperature <= 0.05
            && -0.005 < q.oilPressure - s.oilPressure <= 0.005
            && q.isRunning == s.isRunning
  {
    hide Payload, Checksum, Word;
    RpmRounding(s.rpm);
    TemperatureRounding(s.temperature);
    OilRounding(s.oilPressure);
    var r, t, o := EncodeRpm(s.rpm), EncodeTemperature(s.temperature), EncodeOil(s.oilPressure);
    PayloadIsSealed(r, t, o, s.isRunning);
    ScaledIsInteger(r);
    ScaledIsInteger(t);
    ScaledIsInteger(o);
    QuantisedIsValid(r, t, o);
  }

  lemma QuantisedIsValid(r: int, t: int, o: int)
    requires 0 <= r <= 10000 && 0 <= t <= 2500 && 0 <= o <= 1000
    ensures 0.0 <= r as real <= 10000.0
    ensures -50.0 <= (t as real - 500.0) / 10.0 <= 200.0
    ensures 0.0 <= o as real / 100.0 <= 10.0
  {
  }

  lemma GridReadingIsItsOwnQuantisation(s: SensorFrame)
    requires s.OnGrid()
    ensures Quantised(s) == s
  {
    var r, t, o := s.rpm.Floor, (s.temperature * 10.0).Floor, (s.oilPressure * 100.0).Floor;
    FloorIs(s.rpm + 0.5, r);
    FloorIs((s.temperature + 50.0) * 10.0 + 0.5, t + 500);
    FloorIs(s.oilPressure * 100.0 + 0.5, o);
  }

  lemma PayloadOfItsWords(d: seq<uint8>)
    requires |d| == 8 && d[7] == Checksum(d)
    ensures Payload(Word(d[0], d[1]), Word(d[2], d[3]), Word(d[4], d[5]), d[6]) == d
  {
    hide Xor, High, Low, Word;
    WordsAndBytes(0, d[0], d[1]);
    WordsAndBytes(0, d[2], d[3]);
    WordsAndBytes(0, d[4], d[5]);
    assert d[..7] == [d[0], d[1], d[2], d[3], d[4], d[5], d[6]];
    assert d == d[..7] + [d[7]];
  }

  lemma DecodedWords(r: uint16, t: uint16, o: uint16)
    ensures EncodeRpm(r as real) == r && IsInteger(r as real)
    ensures EncodeTemperature((t as real - 500.0) / 10.0) == t && IsInteger((t as real - 500.0) / 10.0 * 10.0)
    ensures EncodeOil(o as real / 100.0) == o && IsInteger(o as real / 100.0 * 100.0)
  {
    ScaledIsInteger(r);
    ScaledIsInteger(t);
    ScaledIsInteger(o);
    FloorIs(r as real + 0.5, r);
    FloorIs(((t as real - 500.0) / 10.0 + 50.0) * 10.0 + 0.5, t);
    FloorIs(o as real / 100.0 * 100.0 + 0.5, o);
  }

  /** The encoder undoes the decoder on every frame the decoder accepts, and only grid readings come out. */
  lemma EncodeOfDecode(f: Frame)
    requires Accepted(f)
    ensures Decode(f).value.OnGrid()
    ensures Encode(Decode(f).value) == Success(f)
  {
    hide EncodeRpm, EncodeTemperature, EncodeOil, IsInteger, Payload, Checksum, Word;
    var d := f.data;
    DecodedWords(Word(d[0], d[1]), Word(d[2], d[3]), Word(d[4], d[5]));
    PayloadOfItsWords(d);
  }

  /** Accepted frames and grid readings correspond one to one. */
  lemma WireBijection(s: SensorFrame, f: Frame)
    ensures s.OnGrid() && Encode(s) == Success(f) <==> Decode(f) == Success(s)
  {
    if s.OnGrid() && Encode(s) == Success(f) {
      DecodeOfEncode(s);
      GridReadingIsItsOwnQuantisation(s);
    }
    if Decode(f) == Success(s) {
      EncodeOfDecode(f);
    }
  }

  function BigEndian(first: int, second: int): int { 256 * first + second }

  /** What can be sent: the ranges of the four fields, ends included. */
  lemma SendableIff(s: SensorFrame)
    ensures Encode(s).Success? <==>
              && 0.0 <= s.rpm && s.rpm <= 10000.0 && -50.0 <= s.temperature && s.temperature <= 200.0
              && 0.0 <= s.oilPressure && s.oilPressure <= 10.0 && (s.isRunning == 0 || s.isRunning == 1)
    ensures Encode(s).Failure? ==> Encode(s).status == InvalidArgument
  {
  }

  /**
   * Where the fields go: big-endian words for rpm, tenths of degrees above -50, and hundredths of bar, each within half
   * a unit, then the run flag, and a checksum that makes the exclusive or of all eight bytes zero.
   */
  lemma WireLayout(s: SensorFrame)
    requires Encode(s).Success?
    ensures var f := Encode(s).value;
            && f.id == 0x100 && f.dlc == 8
            && -0.5 < BigEndian(f.data[0], f.data[1]) as real - s.rpm <= 0.5
            && -0.5 < BigEndian(f.data[2], f.data[3]) as real - (s.temperature + 50.0) * 10.0 <= 0.5
            && -0.5 < BigEndian(f.data[4], f.data[5]) as real - s.oilPressure * 100.0 <= 0.5
            && f.data[6] == s.isRunning && XorFold(f.data) == 0
  {
    hide Payload, XorFold;
    RpmRounding(s.rpm);
    TemperatureRounding(s.temperature);
    OilRounding(s.oilPressure);
    var r, t, o := EncodeRpm(s.rpm), EncodeTemperature(s.temperature), EncodeOil(s.oilPressure);
    PayloadIsSealed(r, t, o, s.isRunning);
    SealedFoldsToZero(Payload(r, t, o, s.isRunning));
    RoundingError(s.rpm);
    RoundingError((s.temperature + 50.0) * 10.0);
    RoundingError(s.oilPressure * 100.0);
  }

  lemma SealedFoldsToZero(d: seq<uint8>)
    requires |d| == 8
    ensures XorFold(d) == 0 <==> d[7] == Checksum(d)
  {
    hide Xor;
    assert d[..|d| - 1] == d[..7];
    XorIsZeroIff(XorFold(d[..7]), d[7]);
  }

  /** Which frames are accepted, told from their bytes. */
  lemma AcceptedIff(f: Frame)
    ensures Accepted(f) <==>
              && f.id == 0x100 && f.dlc == 8 && XorFold(f.data) == 0
              && BigEndian(f.data[0], f.data[1]) <= 10000 && BigEndian(f.data[2], f.data[3]) <= 2500
              && BigEndian(f.data[4], f.data[5]) <= 1000 && f.data[6] <= 1
    ensures Decode(f).Failure? ==>
              (Decode(f).status == InvalidArgument <==> f.id == 0x100 && f.dlc == 8 && XorFold(f.data) == 0)
    ensures Decode(f).Failure? ==> Decode(f).status == InvalidArgument || Decode(f).status == ParseError
  {
    hide XorFold, Checksum;
    SealedFoldsToZero(f.data);
  }

  /** A second trip over the wire changes nothing. */
  lemma QuantisationIsIdempotent(s: SensorFrame)
    requires s.Valid()
    ensures Encode(Quantised(s)).Success? && Encode(Quantised(s)) == Encode(s)
    ensures Quantised(Quantised(s)) == Quantised(s)
  {
    DecodeOfEncode(s);
    EncodeOfDecode(Encode(s).value);
    GridReadingIsItsOwnQuantisation(Quantised(s));
  }
}
