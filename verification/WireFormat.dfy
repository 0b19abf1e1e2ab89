/** The frames as bytes on the line, in numbers, with the checksum as the polynomial remainder that
    defines it. */
module WireFormat {
  import opened Crc16
  import opened CrcDivision
  import opened FrameCodec

  // ----- a register is its bits -----

  function Joined(half: bv16, lowest: bool): bv16 {
    if lowest then (half << 1) | 1 else half << 1
  }

  lemma HalfAndLowest(v: bv16)
    ensures v == Joined(v >> 1, Odd(v))
  {}

  lemma OneBitLower(v: bv16, n: nat)
    ensures Halved(v, n) == Joined(Halved(v, n + 1), Bit(v, n))
  {
    HalvedNext(v, n);
    HalfAndLowest(Halved(v, n));
  }

  lemma {:induction false} BitsDetermine(a: bv16, b: bv16, n: nat)
    requires n <= DEGREE && forall k: nat | n <= k < DEGREE :: Bit(a, k) == Bit(b, k)
    ensures Halved(a, n) == Halved(b, n)
    decreases DEGREE - n
  {
    if n == DEGREE {
      HalvedVanishes(a, 0);
      HalvedVanishes(b, 0);
    } else {
      BitsDetermine(a, b, n + 1);
      assert Bit(a, n) == Bit(b, n);
      OneBitLower(a, n);
      OneBitLower(b, n);
    }
  }

  lemma RegisterIsItsBits(a: bv16, b: bv16)
    requires RegisterBits(a) == RegisterBits(b)
    ensures a == b
  {
    forall k: nat | k < DEGREE ensures Bit(a, k) == Bit(b, k) {
      assert RegisterBits(a)[k] == RegisterBits(b)[k];
    }
    BitsDetermine(a, b, 0);
  }

  /** The two bytes, low one first, are the remainder of what they follow. */
  ghost predicate Checks(data: seq<Byte>, low: Byte, high: Byte) {
    RegisterBits(Word(low, high)) == Remainder(Dividend(data))
  }

  lemma ChecksIffRegister(data: seq<Byte>, low: Byte, high: Byte)
    ensures Checks(data, low, high) <==> Word(low, high) == Register(INITIAL, data)
  {
    RegisterIsRemainder(data);
    if Checks(data, low, high) {
      RegisterIsItsBits(Word(low, high), Register(INITIAL, data));
    }
  }

  // ----- the three frames -----

  lemma FrameChecks(kind: Byte, length: bv16, payload: seq<Byte>)
    ensures var f := FrameOf(kind, length, payload); var n := |payload|;
      && f[5..5 + n] == payload && Checks(f[2..5 + n], f[5 + n], f[6 + n])
  {
    var f := FrameOf(kind, length, payload);
    var crc := Register(INITIAL, Covered(kind, length, payload));
    assert f[2..5 + |payload|] == Covered(kind, length, payload);
    WordOfBytes(crc);
    ChecksIffRegister(f[2..5 + |payload|], LowByte(crc), HighByte(crc));
  }

  /** A command frame: 256 bytes, type 1, length 249. */
  lemma CommandFrameBytes(payload: seq<Byte>)
    requires |payload| == 249
    ensures var f := FrameOf(COMMAND_TYPE, COMMAND_LENGTH, payload);
      && |f| == 256 && f[..5] == [0x55, 0xAA, 0x01, 0xF9, 0x00] && f[5..254] == payload
      && Checks(f[2..254], f[254], f[255])
  {
    FrameChecks(COMMAND_TYPE, COMMAND_LENGTH, payload);
    assert LowByte(COMMAND_LENGTH) == 0xF9 && HighByte(COMMAND_LENGTH) == 0x00;
  }

  /** A chassis frame: 44 bytes, type 33, length 37. */
  lemma ChassisFrameBytes(payload: seq<Byte>)
    requires |payload| == 37
    ensures var f := FrameOf(CHASSIS_COMMAND_TYPE, CHASSIS_COMMAND_LENGTH, payload);
      && |f| == 44 && f[..5] == [0x55, 0xAA, 0x21, 0x25, 0x00] && f[5..42] == payload && Checks(f[2..42], f[42], f[43])
  {
    FrameChecks(CHASSIS_COMMAND_TYPE, CHASSIS_COMMAND_LENGTH, payload);
    assert LowByte(CHASSIS_COMMAND_LENGTH) == 0x25 && HighByte(CHASSIS_COMMAND_LENGTH) == 0x00;
  }

  lemma LengthBytes(low: Byte, high: Byte)
    ensures Word(low, high) == FEEDBACK_LENGTH <==> low == 0xF8 && high == 0x00
  {
    BytesOfWord(low, high);
    assert LowByte(FEEDBACK_LENGTH) == 0xF8 && HighByte(FEEDBACK_LENGTH) == 0x00;
    WordOfBytes(FEEDBACK_LENGTH);
  }

  /** A feedback frame is accepted exactly when it has 255 bytes, type 2, length 248, and a remainder
      that checks; its payload is what is in between. */
  lemma FeedbackFrameBytes(frame: seq<Byte>)
    ensures ValidFeedbackFrame(frame) <==>
      |frame| == 255 && frame[..5] == [0x55, 0xAA, 0x02, 0xF8, 0x00] && Checks(frame[2..253], frame[253], frame[254])
    ensures |frame| == 255 ==> PayloadOf(frame) == frame[5..253]
  {
    if |frame| == 255 {
      LengthBytes(frame[3], frame[4]);
      ChecksIffRegister(frame[2..253], frame[253], frame[254]);
      assert frame[..5] == [frame[0], frame[1], frame[2], frame[3], frame[4]];
    }
  }
}
