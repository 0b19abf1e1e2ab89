/** Frame layout of `frame_codec.cpp`: two header bytes, a type, a 16-bit payload length, the
    payload, and the CRC over everything between header and CRC. Payloads are byte strings;
    the packed structures of `protocol.hpp` only name offsets inside them. */
module FrameCodec {
  import opened Folds
  import opened Crc16

  const HEADER0: Byte := 0x55
  const HEADER1: Byte := 0xAA
  const COMMAND_TYPE: Byte := 0x01
  const FEEDBACK_TYPE: Byte := 0x02
  const CHASSIS_COMMAND_TYPE: Byte := 0x21
  const PREFIX_SIZE: nat := 5
  const CRC_SIZE: nat := 2
  const COMMAND_PAYLOAD_SIZE: nat := 249
  const FEEDBACK_PAYLOAD_SIZE: nat := 248
  const CHASSIS_COMMAND_PAYLOAD_SIZE: nat := 37
  const COMMAND_FRAME_SIZE: nat := PREFIX_SIZE + COMMAND_PAYLOAD_SIZE + CRC_SIZE
  const FEEDBACK_FRAME_SIZE: nat := PREFIX_SIZE + FEEDBACK_PAYLOAD_SIZE + CRC_SIZE
  const CHASSIS_COMMAND_FRAME_SIZE: nat := PREFIX_SIZE + CHASSIS_COMMAND_PAYLOAD_SIZE + CRC_SIZE
  // The payload sizes as they stand in the length field.
  const COMMAND_LENGTH: bv16 := 249
  const FEEDBACK_LENGTH: bv16 := 248
  const CHASSIS_COMMAND_LENGTH: bv16 := 37

  /** The bytes the CRC covers. */
  function Covered(kind: Byte, length: bv16, payload: seq<Byte>): seq<Byte> {
    [kind, LowByte(length), HighByte(length)] + payload
  }

  function FrameOf(kind: Byte, length: bv16, payload: seq<Byte>): (frame: seq<Byte>)
    ensures |frame| == PREFIX_SIZE + |payload| + CRC_SIZE
  {
    var crc := Register(INITIAL, Covered(kind, length, payload));
    [HEADER0, HEADER1] + Covered(kind, length, payload) + [LowByte(crc), HighByte(crc)]
  }

  function FeedbackFrameOf(payload: seq<Byte>): seq<Byte> {
    FrameOf(FEEDBACK_TYPE, FEEDBACK_LENGTH, payload)
  }

  /** What `decode_feedback_frame` accepts. */
  ghost predicate ValidFeedbackFrame(frame: seq<Byte>) {
    && |frame| == FEEDBACK_FRAME_SIZE
    && frame[0] == HEADER0 && frame[1] == HEADER1 && frame[2] == FEEDBACK_TYPE
    && Word(frame[3], frame[4]) == FEEDBACK_LENGTH
    && Word(frame[253], frame[254]) == Register(INITIAL, frame[2..253])
  }

  function PayloadOf(frame: seq<Byte>): seq<Byte>
    requires |frame| == FEEDBACK_FRAME_SIZE
  {
    frame[PREFIX_SIZE..PREFIX_SIZE + FEEDBACK_PAYLOAD_SIZE]
  }

  method WriteWord(frame: array<Byte>, at: nat, value: bv16)
    requires at + 2 <= frame.Length
    modifies frame
    ensures frame[at] == LowByte(value) && frame[at + 1] == HighByte(value)
    ensures frame[..at] == old(frame[..at]) && frame[at + 2..] == old(frame[at + 2..])
  {
    frame[at] := (value & 0x00FF) as Byte;
    frame[at + 1] := ((value >> 8) & 0x00FF) as Byte;
  }

  method CopyPayload(frame: array<Byte>, payload: seq<Byte>)
    requires PREFIX_SIZE + |payload| <= frame.Length
    modifies frame
    ensures frame[..PREFIX_SIZE] == old(frame[..PREFIX_SIZE])
    ensures frame[PREFIX_SIZE..PREFIX_SIZE + |payload|] == payload
  {
    for i := 0 to |payload|
      invariant frame[..PREFIX_SIZE] == old(frame[..PREFIX_SIZE])
      invariant frame[PREFIX_SIZE..PREFIX_SIZE + i] == payload[..i]
    {
      frame[PREFIX_SIZE + i] := payload[i];
    }
  }

  method WritePrefix(frame: array<Byte>, kind: Byte, length: bv16)
    requires PREFIX_SIZE <= frame.Length
    modifies frame
    ensures frame[..PREFIX_SIZE] == [HEADER0, HEADER1] + Covered(kind, length, [])
  {
    frame[0] := HEADER0;
    frame[1] := HEADER1;
    frame[2] := kind;
    WriteWord(frame, 3, length);
    assert frame[..PREFIX_SIZE] == frame[..3] + [frame[3], frame[4]];
  }

  method WriteBody(frame: array<Byte>, kind: Byte, length: bv16, payload: seq<Byte>)
    requires frame.Length == PREFIX_SIZE + |payload| + CRC_SIZE
    modifies frame
    ensures frame[..PREFIX_SIZE + |payload|] == [HEADER0, HEADER1] + Covered(kind, length, payload)
  {
    WritePrefix(frame, kind, length);
    CopyPayload(frame, payload);
    ghost var body := PREFIX_SIZE + |payload|;
    assert frame[..body] == frame[..PREFIX_SIZE] + frame[PREFIX_SIZE..body];
  }

  method Encode(kind: Byte, length: bv16, payload: seq<Byte>) returns (frame: array<Byte>)
    ensures fresh(frame) && frame[..] == FrameOf(kind, length, payload)
  {
    var body := PREFIX_SIZE + |payload|;
    frame := new Byte[body + CRC_SIZE](_ => 0);
    WriteBody(frame, kind, length, payload);
    assert frame[2..2 + (3 + |payload|)] == frame[..body][2..] == Covered(kind, length, payload);
    var crc := Compute(frame, 2, 3 + |payload|);
    WriteWord(frame, body, crc);
    assert frame[..] == frame[..body] + [frame[body], frame[body + 1]];
  }

  method EncodeCommandFrame(payload: seq<Byte>) returns (frame: array<Byte>)
    requires |payload| == COMMAND_PAYLOAD_SIZE
    ensures fresh(frame) && frame[..] == FrameOf(COMMAND_TYPE, COMMAND_LENGTH, payload)
  {
    frame := Encode(COMMAND_TYPE, COMMAND_LENGTH, payload);
  }

  method EncodeChassisCommandFrame(payload: seq<Byte>) returns (frame: array<Byte>)
    requires |payload| == CHASSIS_COMMAND_PAYLOAD_SIZE
    ensures fresh(frame)
    ensures frame[..] == FrameOf(CHASSIS_COMMAND_TYPE, CHASSIS_COMMAND_LENGTH, payload)
  {
    frame := Encode(CHASSIS_COMMAND_TYPE, CHASSIS_COMMAND_LENGTH, payload);
  }

  method DecodeFeedbackFrame(frame: array<Byte>, size: nat) returns (ok: bool, payload: seq<Byte>)
    requires size <= frame.Length
    ensures ok <==> ValidFeedbackFrame(frame[..size])
    ensures ok ==> payload == PayloadOf(frame[..size])
  {
    ok, payload := false, [];
    if size != FEEDBACK_FRAME_SIZE {
      return;
    }
    ghost var f := frame[..size];
    assert f[0] == frame[0] && f[1] == frame[1] && f[2] == frame[2] && f[3] == frame[3] && f[4] == frame[4];
    assert f[253] == frame[253] && f[254] == frame[254];
    if frame[0] != HEADER0 || frame[1] != HEADER1 || frame[2] != FEEDBACK_TYPE ||
      Word(frame[3], frame[4]) != FEEDBACK_LENGTH
    {
      assert !ValidFeedbackFrame(f);
      return;
    }
    var received := Word(frame[253], frame[254]);
    var expected := Compute(frame, 2, 3 + FEEDBACK_PAYLOAD_SIZE);
    assert f[2..253] == frame[2..2 + (3 + FEEDBACK_PAYLOAD_SIZE)];
    if received != expected {
      assert !ValidFeedbackFrame(f);
      return;
    }
    ok, payload := true, frame[PREFIX_SIZE..PREFIX_SIZE + FEEDBACK_PAYLOAD_SIZE];
    assert payload == PayloadOf(f);
  }

  // ----- decoding undoes encoding, and accepts nothing else -----

  lemma EncodedIsAccepted(payload: seq<Byte>)
    requires |payload| == FEEDBACK_PAYLOAD_SIZE
    ensures ValidFeedbackFrame(FeedbackFrameOf(payload))
    ensures PayloadOf(FeedbackFrameOf(payload)) == payload
  {
    var covered := Covered(FEEDBACK_TYPE, FEEDBACK_LENGTH, payload);
    var crc := Register(INITIAL, covered);
    var frame := FeedbackFrameOf(payload);
    assert frame[2..253] == covered;
    WordOfBytes(FEEDBACK_LENGTH);
    WordOfBytes(crc);
    assert frame[253] == LowByte(crc) && frame[254] == HighByte(crc);
    assert frame[3] == LowByte(FEEDBACK_LENGTH) && frame[4] == HighByte(FEEDBACK_LENGTH);
  }

  /** An accepted frame is the encoding of its payload: no second frame carries that payload. */
  lemma AcceptedIsEncoded(frame: seq<Byte>)
    requires ValidFeedbackFrame(frame)
    ensures frame == FeedbackFrameOf(PayloadOf(frame))
  {
    BytesOfWord(frame[3], frame[4]);
    BytesOfWord(frame[253], frame[254]);
    assert frame[2..253] == Covered(FEEDBACK_TYPE, FEEDBACK_LENGTH, PayloadOf(frame));
  }

  /** The covered bytes of an accepted frame followed by its CRC bytes bring the register to zero. */
  lemma AcceptedHasZeroResidue(frame: seq<Byte>)
    requires ValidFeedbackFrame(frame)
    ensures Register(INITIAL, frame[2..]) == 0
  {
    assert frame[2..] == frame[2..253] + [frame[253], frame[254]];
    var crc := Register(INITIAL, frame[2..253]);
    FoldConcat(Absorb, INITIAL, frame[2..253], [frame[253], frame[254]]);
    FoldPair(Absorb, crc, frame[253], frame[254]);
    ZeroIffOwnChecksum(crc, frame[253], frame[254]);
  }

  /** Corruption confined to two adjacent bytes, anywhere in the frame, never yields another
      accepted frame. */
  lemma AdjacentCorruptionIsDetected(x: seq<Byte>, y: seq<Byte>, k: nat)
    requires |x| == |y| == FEEDBACK_FRAME_SIZE && k + 2 <= FEEDBACK_FRAME_SIZE
    requires x[..k] == y[..k] && x[k + 2..] == y[k + 2..]
    requires x != y
    ensures !(ValidFeedbackFrame(x) && ValidFeedbackFrame(y))
  {
    if ValidFeedbackFrame(x) && ValidFeedbackFrame(y) {
      assert forall i | 0 <= i < k :: x[i] == x[..k][i] == y[..k][i] == y[i];
      assert forall i | k + 2 <= i < |x| :: x[i] == x[k + 2..][i - k - 2] == y[k + 2..][i - k - 2] == y[i];
      assert x == x[..2] + x[2..] && y == y[..2] + y[2..];
      var at := if k < 2 then 0 else k - 2;
      AcceptedHasZeroResidue(x);
      AcceptedHasZeroResidue(y);
      AbsorbInjective();
      AbsorbPairInjective();
      WindowChangesFold(Absorb, INITIAL, x[2..], y[2..], at);
    }
  }
}
