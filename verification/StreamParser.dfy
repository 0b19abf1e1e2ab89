/** The bounded resynchronising parser of `frame_codec.cpp` and its driver
    `handle_serial_data`, proved against the unbounded scan of `FrameScan`. */
module StreamParser {
  import opened Crc16
  import opened FrameCodec
  import opened FrameScan

  const CAPACITY: nat := FEEDBACK_FRAME_SIZE * 8
  // What a drained buffer may still hold.
  const MAX_RESIDUE: nat := FEEDBACK_FRAME_SIZE - 1

  ghost predicate FrameStartsAt(s: seq<Byte>, i: nat) {
    StartsAt(ValidFeedbackFrame, FEEDBACK_FRAME_SIZE, s, i)
  }

  ghost predicate NoFrameBefore(s: seq<Byte>, k: nat) {
    NoneBefore(ValidFeedbackFrame, FEEDBACK_FRAME_SIZE, s, k)
  }

  ghost predicate DeadOffset(s: seq<Byte>, i: nat) {
    Dead(ValidFeedbackFrame, FEEDBACK_FRAME_SIZE, s, i)
  }

  ghost predicate DeadOffsetsBefore(s: seq<Byte>, k: nat) {
    DeadBefore(ValidFeedbackFrame, FEEDBACK_FRAME_SIZE, s, k)
  }

  ghost function FeedbackFrames(s: seq<Byte>): seq<seq<Byte>> {
    Frames(ValidFeedbackFrame, FEEDBACK_FRAME_SIZE, s)
  }

  ghost function Payloads(frames: seq<seq<Byte>>): (payloads: seq<seq<Byte>>)
    requires forall i | 0 <= i < |frames| :: |frames[i]| == FEEDBACK_FRAME_SIZE
  {
    seq(|frames|, i requires 0 <= i < |frames| => PayloadOf(frames[i]))
  }

  function LastBytes(s: seq<Byte>, n: nat): seq<Byte> {
    if |s| <= n then s else s[|s| - n..]
  }

  lemma LastBytesOfJoin(a: seq<Byte>, b: seq<Byte>, n: nat)
    ensures b == [] && |a| <= n ==> LastBytes(a + b, n) == a
    ensures |b| >= n ==> LastBytes(a + b, n) == b[|b| - n..]
    ensures |b| < n < |a| + |b| ==> LastBytes(a + b, n) == a[|a| + |b| - n..] + b
  {
    assert b == [] ==> a + b == a;
  }

  /** Bytes already at hand rule the offset out: a wrong header, type or length. */
  lemma PrefixKillsOffset(s: seq<Byte>, i: nat)
    requires i < |s|
    requires s[i] != HEADER0
          || (i + 1 < |s| && s[i + 1] != HEADER1)
          || (i + 4 < |s| && (s[i + 2] != FEEDBACK_TYPE || Word(s[i + 3], s[i + 4]) != FEEDBACK_LENGTH))
    ensures DeadOffset(s, i)
  {
    forall t: seq<Byte> ensures !FrameStartsAt(s + t, i) {
      var u := s + t;
      if i + FEEDBACK_FRAME_SIZE <= |u| {
        var w := u[i..i + FEEDBACK_FRAME_SIZE];
        assert forall j: nat | i + j < |s| && j < FEEDBACK_FRAME_SIZE :: w[j] == u[i + j] == s[i + j];
        assert i + 4 < |s| ==> w[2] == s[i + 2] && w[3] == s[i + 3] && w[4] == s[i + 4];
      }
    }
  }

  lemma CompleteWindowKillsOffset(s: seq<Byte>, i: nat)
    requires i + FEEDBACK_FRAME_SIZE <= |s| && !ValidFeedbackFrame(s[i..i + FEEDBACK_FRAME_SIZE])
    ensures DeadOffset(s, i)
  {
    forall t: seq<Byte> ensures !FrameStartsAt(s + t, i) {
      assert (s + t)[i..i + FEEDBACK_FRAME_SIZE] == s[i..i + FEEDBACK_FRAME_SIZE];
    }
  }

  ghost predicate HasFrame(s: seq<Byte>) {
    exists i: nat :: FrameStartsAt(s, i)
  }

  ghost predicate PoppedFirst(s: seq<Byte>, feedback: seq<Byte>, rest: seq<Byte>) {
    exists i: nat ::
      && FrameStartsAt(s, i) && NoFrameBefore(s, i)
      && feedback == PayloadOf(s[i..i + FEEDBACK_FRAME_SIZE])
      && rest == s[i + FEEDBACK_FRAME_SIZE..]
  }

  ghost predicate DroppedDead(s: seq<Byte>, rest: seq<Byte>) {
    && |rest| <= MAX_RESIDUE
    && exists k: nat :: k <= |s| && DeadOffsetsBefore(s, k) && rest == s[k..]
  }

  lemma GiveUp(s: seq<Byte>, k: nat)
    requires k <= |s| < k + FEEDBACK_FRAME_SIZE && DeadOffsetsBefore(s, k)
    ensures !HasFrame(s) && DroppedDead(s, s[k..])
  {
    DeadStartsNothing(ValidFeedbackFrame, FEEDBACK_FRAME_SIZE, s, k);
  }

  lemma TakeFront(s: seq<Byte>, k: nat, m: nat)
    requires k <= |s| && DeadOffsetsBefore(s, k)
    requires m <= |s[k..]| && DeadOffsetsBefore(s[k..], m) && FrameStartsAt(s[k..][m..], 0)
    ensures HasFrame(s)
    ensures PoppedFirst(s, PayloadOf(s[k..][m..][..FEEDBACK_FRAME_SIZE]), s[k..][m..][FEEDBACK_FRAME_SIZE..])
  {
    var at, rest := k + m, s[k..][m..];
    DeadThenDead(ValidFeedbackFrame, FEEDBACK_FRAME_SIZE, s, k, m);
    DeadStartsNothing(ValidFeedbackFrame, FEEDBACK_FRAME_SIZE, s, at);
    assert rest[0..0 + FEEDBACK_FRAME_SIZE] == rest[..FEEDBACK_FRAME_SIZE] == s[at..at + FEEDBACK_FRAME_SIZE];
    assert rest[FEEDBACK_FRAME_SIZE..] == s[at + FEEDBACK_FRAME_SIZE..];
    assert FrameStartsAt(s, at);
  }

  datatype Verdict = Incomplete | Rejected | Accepted

  class StreamParser {
    const buffer: array<Byte>
    var size: nat

    ghost predicate Valid()
      reads this
    {
      buffer.Length == CAPACITY && size <= CAPACITY
    }

    ghost function Contents(): (s: seq<Byte>)
      requires Valid()
      reads this, buffer
    {
      buffer[..size]
    }

    constructor ()
      ensures Valid() && Contents() == [] && fresh(buffer)
    {
      buffer := new Byte[CAPACITY](_ => 0);
      size := 0;
    }

    method Clear()
      requires Valid()
      modifies this`size
      ensures Valid() && Contents() == []
    {
      size := 0;
    }

    method DiscardPrefix(count: nat)
      requires Valid()
      modifies this`size, buffer
      ensures Valid()
      ensures Contents() == if count >= |old(Contents())| then [] else old(Contents())[count..]
    {
      if count >= size {
        size := 0;
        return;
      }
      var kept := size - count;
      for i := 0 to kept
        invariant buffer[..i] == old(buffer[count..count + i])
        invariant buffer[i..] == old(buffer[i..])
      {
        buffer[i] := buffer[count + i];
      }
      size := kept;
    }

    method CopyIn(at: nat, data: seq<Byte>)
      requires Valid() && at + |data| <= CAPACITY
      modifies buffer
      ensures buffer[..at + |data|] == old(buffer[..at]) + data
    {
      for i := 0 to |data|
        invariant buffer[..at] == old(buffer[..at])
        invariant buffer[at..at + i] == data[..i]
      {
        buffer[at + i] := data[i];
      }
      assert buffer[..at + |data|] == buffer[..at] + buffer[at..at + |data|];
    }

    method MakeRoom(required: nat)
      requires Valid() && size <= required <= size + CAPACITY
      modifies this`size, buffer
      ensures Valid()
      ensures Contents() == if required > CAPACITY then old(Contents())[required - CAPACITY..] else old(Contents())
    {
      if required > CAPACITY {
        DiscardPrefix(required - CAPACITY);
      }
    }

    method Append(data: seq<Byte>)
      requires Valid()
      modifies this`size, buffer
      ensures Valid()
      ensures Contents() == LastBytes(old(Contents()) + data, CAPACITY)
    {
      LastBytesOfJoin(Contents(), data, CAPACITY);
      if |data| == 0 {
        return;
      }
      if |data| >= CAPACITY {
        CopyIn(0, data[|data| - CAPACITY..]);
        size := CAPACITY;
        return;
      }
      MakeRoom(size + |data|);
      CopyIn(size, data);
      size := size + |data|;
    }

    /** Emits the frame at the least offset that starts one and keeps what follows it, or
        drops only offsets that no continuation could turn into a frame. */
    method PopFeedback() returns (found: bool, feedback: seq<Byte>)
      requires Valid()
      modifies this`size, buffer
      ensures Valid()
      ensures found <==> HasFrame(old(Contents()))
      ensures found ==> PoppedFirst(old(Contents()), feedback, Contents())
      ensures !found ==> DroppedDead(old(Contents()), Contents())
    {
      ghost var s := Contents();
      ghost var k: nat := 0;
      found, feedback := false, [];
      while size >= 2
        invariant Valid() && k <= |s| && Contents() == s[k..]
        invariant DeadOffsetsBefore(s, k)
        decreases size
      {
        ghost var skipped;
        var verdict, payload;
        verdict, payload, skipped := PopStep();
        if verdict == Accepted {
          TakeFront(s, k, skipped);
          found, feedback := true, payload;
          return;
        }
        DeadThenDead(ValidFeedbackFrame, FEEDBACK_FRAME_SIZE, s, k, skipped);
        k := k + skipped;
        if verdict == Incomplete {
          break;
        }
      }
      GiveUp(s, k);
    }

    /** One turn of the outer loop: `skipped` offsets are dropped, and a frame taken if one is there. */
    method PopStep() returns (verdict: Verdict, payload: seq<Byte>, ghost skipped: nat)
      requires Valid() && size >= 2
      modifies this`size, buffer
      ensures Valid()
      ensures skipped <= |old(Contents())| && DeadOffsetsBefore(old(Contents()), skipped)
      ensures verdict != Accepted ==> Contents() == old(Contents())[skipped..]
      ensures verdict == Incomplete ==> size < FEEDBACK_FRAME_SIZE
      ensures verdict == Rejected ==> skipped > 0
      ensures verdict == Accepted ==>
        && FrameStartsAt(old(Contents())[skipped..], 0)
        && payload == PayloadOf(old(Contents())[skipped..][..FEEDBACK_FRAME_SIZE])
        && Contents() == old(Contents())[skipped..][FEEDBACK_FRAME_SIZE..]
    {
      payload := [];
      ghost var s := Contents();
      skipped := SkipToHeader();
      if size < PREFIX_SIZE {
        verdict := Incomplete;
        return;
      }
      verdict, payload := CheckFront();
      if verdict == Rejected {
        DeadThenDead(ValidFeedbackFrame, FEEDBACK_FRAME_SIZE, s, skipped, 1);
        skipped := skipped + 1;
      }
    }

    /** Drops everything before the next header, keeping a last byte that may begin one. */
    method SkipToHeader() returns (ghost skipped: nat)
      requires Valid() && size >= 2
      modifies this`size, buffer
      ensures Valid() && skipped <= |old(Contents())| && Contents() == old(Contents())[skipped..]
      ensures DeadOffsetsBefore(old(Contents()), skipped)
      ensures size >= 2 ==> buffer[0] == HEADER0 && buffer[1] == HEADER1
    {
      var header := FindHeader();
      skipped := header;
      if header + 1 >= size {
        var preserve := buffer[size - 1] == HEADER0;
        if preserve {
          buffer[0] := HEADER0;
        } else {
          PrefixKillsOffset(Contents(), header);
          skipped := header + 1;
        }
        size := if preserve then 1 else 0;
        return;
      }
      if header > 0 {
        DiscardPrefix(header);
      }
    }

    /** Judges the bytes at the front, which begin with a header. */
    method CheckFront() returns (verdict: Verdict, payload: seq<Byte>)
      requires Valid() && size >= PREFIX_SIZE
      requires buffer[0] == HEADER0 && buffer[1] == HEADER1
      modifies this`size, buffer
      ensures Valid()
      ensures verdict == Incomplete ==> Contents() == old(Contents()) && size < FEEDBACK_FRAME_SIZE
      ensures verdict == Rejected ==> DeadOffset(old(Contents()), 0) && Contents() == old(Contents())[1..]
      ensures verdict == Accepted ==>
        && FrameStartsAt(old(Contents()), 0)
        && payload == PayloadOf(old(Contents())[..FEEDBACK_FRAME_SIZE])
        && Contents() == old(Contents())[FEEDBACK_FRAME_SIZE..]
    {
      payload := [];
      ghost var u := Contents();
      if buffer[2] != FEEDBACK_TYPE || Word(buffer[3], buffer[4]) != FEEDBACK_LENGTH {
        PrefixKillsOffset(u, 0);
        DiscardPrefix(1);
        return Rejected, [];
      }
      if size < FEEDBACK_FRAME_SIZE {
        return Incomplete, [];
      }
      var ok;
      ok, payload := DecodeFeedbackFrame(buffer, FEEDBACK_FRAME_SIZE);
      assert buffer[..FEEDBACK_FRAME_SIZE] == u[..FEEDBACK_FRAME_SIZE] == u[0..0 + FEEDBACK_FRAME_SIZE];
      if !ok {
        CompleteWindowKillsOffset(u, 0);
        DiscardPrefix(1);
        return Rejected, [];
      }
      DiscardPrefix(FEEDBACK_FRAME_SIZE);
      verdict := Accepted;
    }

    /** The inner scan: the first offset whose two bytes are a header, or the last byte. */
    method FindHeader() returns (header: nat)
      requires Valid() && size >= 2
      ensures header < size
      ensures header + 1 < size ==> buffer[header] == HEADER0 && buffer[header + 1] == HEADER1
      ensures DeadOffsetsBefore(Contents(), header)
    {
      header := 0;
      while header + 1 < size && (buffer[header] != HEADER0 || buffer[header + 1] != HEADER1)
        invariant header < size
        invariant DeadOffsetsBefore(Contents(), header)
      {
        PrefixKillsOffset(Contents(), header);
        header := header + 1;
      }
    }
  }
}
