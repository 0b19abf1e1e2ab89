/** `handle_serial_data` of `standard_system_hardware.cpp`: append a chunk, drain the parser,
    publish every payload. The main theorem is that how the byte stream was cut into chunks
    does not matter as long as no append overflows. */
module FeedbackPath {
  import opened Crc16
  import opened FrameCodec
  import opened FrameScan
  import opened StreamParser

  // Any chunk up to this size fits behind any residue a drained parser can hold.
  const SAFE_CHUNK: nat := CAPACITY - MAX_RESIDUE
  // The receive buffer of `SerialSession`, hence the largest chunk a read can deliver.
  const RECEIVE_BUFFER_SIZE: nat := 2048

  ghost predicate ResumesFeedback(s: seq<Byte>, frames: seq<seq<Byte>>, rest: seq<Byte>) {
    Resumes(ValidFeedbackFrame, FEEDBACK_FRAME_SIZE, s, frames, rest)
  }

  ghost predicate AllFrames(frames: seq<seq<Byte>>) {
    forall i | 0 <= i < |frames| :: |frames[i]| == FEEDBACK_FRAME_SIZE
  }

  /** What one drain publishes from the bytes `s` and what it may leave behind. */
  ghost predicate Drained(s: seq<Byte>, published: seq<seq<Byte>>, rest: seq<Byte>) {
    && |rest| <= MAX_RESIDUE
    && published == Payloads(FeedbackFrames(s))
    && ResumesFeedback(s, FeedbackFrames(s), rest)
  }

  /** One call: the buffer holds the last bytes that fit, and those are drained. */
  ghost predicate Handled(
    before: seq<Byte>, chunk: seq<Byte>, published: seq<seq<Byte>>, after: seq<Byte>)
  {
    Drained(LastBytes(before + chunk, CAPACITY), published, after)
  }

  lemma PopThenResume(s: seq<Byte>, feedback: seq<Byte>, rest: seq<Byte>)
    requires PoppedFirst(s, feedback, rest)
    ensures |rest| < |s|
    ensures exists frame: seq<Byte> ::
      |frame| == FEEDBACK_FRAME_SIZE && PayloadOf(frame) == feedback && ResumesFeedback(s, [frame], rest)
  {
    var i: nat :|
      && FrameStartsAt(s, i) && NoFrameBefore(s, i)
      && feedback == PayloadOf(s[i..i + FEEDBACK_FRAME_SIZE])
      && rest == s[i + FEEDBACK_FRAME_SIZE..];
    PopResumes(ValidFeedbackFrame, FEEDBACK_FRAME_SIZE, s, i);
    assert |s[i..i + FEEDBACK_FRAME_SIZE]| == FEEDBACK_FRAME_SIZE;
  }

  lemma OneMorePop(
    s: seq<Byte>, frames: seq<seq<Byte>>, mid: seq<Byte>, feedback: seq<Byte>, rest: seq<Byte>)
    returns (more: seq<seq<Byte>>)
    requires AllFrames(frames) && ResumesFeedback(s, frames, mid) && PoppedFirst(mid, feedback, rest)
    ensures |rest| < |mid|
    ensures AllFrames(more) && Payloads(more) == Payloads(frames) + [feedback]
    ensures ResumesFeedback(s, more, rest)
  {
    PopThenResume(mid, feedback, rest);
    var frame: seq<Byte> :|
      |frame| == FEEDBACK_FRAME_SIZE && PayloadOf(frame) == feedback && ResumesFeedback(mid, [frame], rest);
    ResumesThen(ValidFeedbackFrame, FEEDBACK_FRAME_SIZE, s, frames, mid, [frame], rest);
    more := frames + [frame];
  }

  lemma DropThenResume(s: seq<Byte>, rest: seq<Byte>)
    requires DroppedDead(s, rest)
    ensures ResumesFeedback(s, [], rest)
  {
    var k: nat :| k <= |s| && DeadOffsetsBefore(s, k) && rest == s[k..];
    DropResumes(ValidFeedbackFrame, FEEDBACK_FRAME_SIZE, s, k);
  }

  lemma ShortHasNoFrames(s: seq<Byte>)
    requires |s| < FEEDBACK_FRAME_SIZE
    ensures FeedbackFrames(s) == []
  {}

  /** A drain that resumes from a short rest has emitted every frame there was. */
  lemma ResumesFromShort(s: seq<Byte>, frames: seq<seq<Byte>>, rest: seq<Byte>)
    requires ResumesFeedback(s, frames, rest) && |rest| <= MAX_RESIDUE
    ensures FeedbackFrames(s) == frames
  {
    var none: seq<Byte> := [];
    assert FeedbackFrames(s + none) == frames + FeedbackFrames(rest + none);
    assert s + none == s && rest + none == rest;
    ShortHasNoFrames(rest);
    assert frames + [] == frames;
  }

  class FeedbackReceiver {
    const parser: StreamParser
    // Payloads in publication order; their number is the hand-off's sequence counter.
    var published: seq<seq<Byte>>

    ghost predicate Valid()
      reads this, parser
    {
      parser.Valid()
    }

    constructor ()
      ensures Valid() && fresh(parser) && fresh(parser.buffer)
      ensures published == [] && parser.Contents() == []
    {
      parser := new StreamParser();
      published := [];
    }

    method HandleSerialData(data: seq<Byte>)
      requires Valid()
      modifies this, parser, parser.buffer
      ensures Valid() && old(published) <= published
      ensures Handled(old(parser.Contents()), data, published[|old(published)|..], parser.Contents())
    {
      parser.Append(data);
      ghost var s := parser.Contents();
      ghost var frames: seq<seq<Byte>> := [];
      ghost var start := published;
      var found, feedback := parser.PopFeedback();
      ghost var rest := parser.Contents();
      ghost var mid := s;
      while found
        invariant Valid() && AllFrames(frames)
        invariant published == start + Payloads(frames)
        invariant ResumesFeedback(s, frames, mid)
        invariant found ==> PoppedFirst(mid, feedback, parser.Contents())
        invariant !found ==> DroppedDead(mid, parser.Contents())
        decreases |mid|
      {
        frames := OneMorePop(s, frames, mid, feedback, parser.Contents());
        mid := parser.Contents();
        published := published + [feedback];
        found, feedback := parser.PopFeedback();
      }
      DropThenResume(mid, parser.Contents());
      ResumesThen(ValidFeedbackFrame, FEEDBACK_FRAME_SIZE, s, frames, mid, [], parser.Contents());
      assert frames + [] == frames;
      ResumesFromShort(s, frames, parser.Contents());
    }
  }

  lemma PayloadsConcat(a: seq<seq<Byte>>, b: seq<seq<Byte>>)
    requires AllFrames(a) && AllFrames(b)
    ensures AllFrames(a + b) && Payloads(a + b) == Payloads(a) + Payloads(b)
  {}

  // ----- runs of calls -----

  /** `residues[i]` is what the parser holds before chunk `i`, `outs[i]` what that call publishes. */
  ghost predicate Run(
    chunks: seq<seq<Byte>>, residues: seq<seq<Byte>>, outs: seq<seq<seq<Byte>>>)
  {
    && |residues| == |chunks| + 1 && |outs| == |chunks|
    && residues[0] == []
    && forall i | 0 <= i < |chunks| :: Handled(residues[i], chunks[i], outs[i], residues[i + 1])
  }

  ghost predicate NoOverflow(chunks: seq<seq<Byte>>, residues: seq<seq<Byte>>) {
    && |residues| == |chunks| + 1
    && forall i | 0 <= i < |chunks| :: |residues[i]| + |chunks[i]| <= CAPACITY
  }

  /** From every buffer there is a drain. */
  lemma {:induction false} DrainExists(s: seq<Byte>) returns (rest: seq<Byte>)
    ensures Drained(s, Payloads(FeedbackFrames(s)), rest)
    decreases |s|
  {
    if |s| < FEEDBACK_FRAME_SIZE {
      rest := s;
    } else if ValidFeedbackFrame(s[..FEEDBACK_FRAME_SIZE]) {
      var frame, mid := s[..FEEDBACK_FRAME_SIZE], s[FEEDBACK_FRAME_SIZE..];
      assert s[0..0 + FEEDBACK_FRAME_SIZE] == frame;
      PopResumes(ValidFeedbackFrame, FEEDBACK_FRAME_SIZE, s, 0);
      rest := DrainExists(mid);
      ResumesThen(ValidFeedbackFrame, FEEDBACK_FRAME_SIZE, s, [frame], mid, FeedbackFrames(mid), rest);
    } else {
      CompleteWindowKillsOffset(s, 0);
      DropResumes(ValidFeedbackFrame, FEEDBACK_FRAME_SIZE, s, 1);
      rest := DrainExists(s[1..]);
      ResumesThen(ValidFeedbackFrame, FEEDBACK_FRAME_SIZE, s, [], s[1..], FeedbackFrames(s[1..]), rest);
    }
  }

  /** Every list of chunks has a run. */
  lemma {:induction false} RunExists(chunks: seq<seq<Byte>>)
    returns (residues: seq<seq<Byte>>, outs: seq<seq<seq<Byte>>>)
    ensures Run(chunks, residues, outs)
    decreases |chunks|
  {
    if chunks == [] {
      residues, outs := [[]], [];
    } else {
      var n := |chunks| - 1;
      var before, published := RunExists(chunks[..n]);
      var s := LastBytes(before[n] + chunks[n], CAPACITY);
      var rest := DrainExists(s);
      residues, outs := before + [rest], published + [Payloads(FeedbackFrames(s))];
      forall i | 0 <= i < |chunks| ensures Handled(residues[i], chunks[i], outs[i], residues[i + 1]) {
        if i < n {
          assert Handled(before[i], chunks[..n][i], published[i], before[i + 1]);
        }
      }
    }
  }

  /** The receiver, fed one chunk after the other, goes through a run. */
  method ReceiveAll(chunks: seq<seq<Byte>>)
    returns (receiver: FeedbackReceiver, ghost residues: seq<seq<Byte>>, ghost outs: seq<seq<seq<Byte>>>)
    ensures fresh(receiver) && receiver.Valid()
    ensures Run(chunks, residues, outs)
    ensures receiver.published == Flatten(outs)
  {
    receiver := new FeedbackReceiver();
    residues, outs := [[]], [];
    for k := 0 to |chunks|
      invariant fresh(receiver) && fresh(receiver.parser) && fresh(receiver.parser.buffer) && receiver.Valid()
      invariant |residues| == k + 1 && |outs| == k && residues[k] == receiver.parser.Contents()
      invariant residues[0] == [] && receiver.published == Flatten(outs)
      invariant forall i | 0 <= i < k :: Handled(residues[i], chunks[i], outs[i], residues[i + 1])
    {
      ghost var before := receiver.published;
      receiver.HandleSerialData(chunks[k]);
      ghost var out := receiver.published[|before|..];
      assert (outs + [out])[..k] == outs;
      residues, outs := residues + [receiver.parser.Contents()], outs + [out];
    }
  }

  lemma OneMoreChunk(
    stream: seq<Byte>, frames: seq<seq<Byte>>, before: seq<Byte>,
    chunk: seq<Byte>, out: seq<seq<Byte>>, after: seq<Byte>)
    requires ResumesFeedback(stream, frames, before)
    requires Handled(before, chunk, out, after) && |before| + |chunk| <= CAPACITY
    ensures ResumesFeedback(stream + chunk, frames + FeedbackFrames(before + chunk), after)
  {
    ResumesAfter(ValidFeedbackFrame, FEEDBACK_FRAME_SIZE, stream, frames, before, chunk);
    ResumesThen(
      ValidFeedbackFrame, FEEDBACK_FRAME_SIZE, stream + chunk, frames, before + chunk,
      FeedbackFrames(before + chunk), after);
  }

  /** After any number of chunks the calls have published the frames of the bytes so far, and
      the residue is enough to continue. */
  lemma {:induction false} PublishedSoFar(
    chunks: seq<seq<Byte>>, residues: seq<seq<Byte>>, outs: seq<seq<seq<Byte>>>)
    returns (frames: seq<seq<Byte>>)
    requires Run(chunks, residues, outs) && NoOverflow(chunks, residues)
    ensures AllFrames(frames) && Flatten(outs) == Payloads(frames)
    ensures ResumesFeedback(Flatten(chunks), frames, residues[|chunks|])
    ensures |residues[|chunks|]| <= MAX_RESIDUE
  {
    var n := |chunks|;
    if n == 0 {
      frames := [];
    } else {
      frames := PublishedSoFar(chunks[..n - 1], residues[..n], outs[..n - 1]);
      var before, chunk := residues[n - 1], chunks[n - 1];
      assert Handled(before, chunk, outs[n - 1], residues[n]);
      OneMoreChunk(Flatten(chunks[..n - 1]), frames, before, chunk, outs[n - 1], residues[n]);
      PayloadsConcat(frames, FeedbackFrames(before + chunk));
      frames := frames + FeedbackFrames(before + chunk);
    }
  }

  /** However the stream was cut, the published payloads are those of one left-to-right scan
      of the whole stream. */
  lemma ChunkingIndependence(
    chunks: seq<seq<Byte>>, residues: seq<seq<Byte>>, outs: seq<seq<seq<Byte>>>)
    requires Run(chunks, residues, outs) && NoOverflow(chunks, residues)
    ensures Flatten(outs) == Payloads(FeedbackFrames(Flatten(chunks)))
  {
    var frames := PublishedSoFar(chunks, residues, outs);
    ResumesFromShort(Flatten(chunks), frames, residues[|chunks|]);
  }

  /** Chunks of at most `SAFE_CHUNK` bytes never overflow, whatever they contain. */
  lemma SafeChunksNeverOverflow(
    chunks: seq<seq<Byte>>, residues: seq<seq<Byte>>, outs: seq<seq<seq<Byte>>>)
    requires Run(chunks, residues, outs)
    requires forall i | 0 <= i < |chunks| :: |chunks[i]| <= SAFE_CHUNK
    ensures NoOverflow(chunks, residues)
  {
    forall i | 0 <= i < |chunks| ensures |residues[i]| + |chunks[i]| <= CAPACITY {
      if i > 0 {
        assert Handled(residues[i - 1], chunks[i - 1], outs[i - 1], residues[i - 1 + 1]);
      }
    }
  }

  /** A stream of well-formed frames sent back to back, however cut, publishes its payloads. */
  lemma WellFormedStreamIsPublished(
    payloads: seq<seq<Byte>>,
    chunks: seq<seq<Byte>>, residues: seq<seq<Byte>>, outs: seq<seq<seq<Byte>>>)
    requires forall i | 0 <= i < |payloads| :: |payloads[i]| == FEEDBACK_PAYLOAD_SIZE
    requires Run(chunks, residues, outs) && NoOverflow(chunks, residues)
    requires Flatten(chunks) == Flatten(seq(|payloads|, i requires 0 <= i < |payloads| => FeedbackFrameOf(payloads[i])))
    ensures Flatten(outs) == payloads
  {
    var frames := seq(|payloads|, i requires 0 <= i < |payloads| => FeedbackFrameOf(payloads[i]));
    forall i | 0 <= i < |payloads|
      ensures |frames[i]| == FEEDBACK_FRAME_SIZE && ValidFeedbackFrame(frames[i]) && PayloadOf(frames[i]) == payloads[i]
    {
      EncodedIsAccepted(payloads[i]);
    }
    var none: seq<Byte> := [];
    BackToBack(ValidFeedbackFrame, FEEDBACK_FRAME_SIZE, frames, none);
    assert Flatten(frames) + none == Flatten(chunks);
    assert frames + FeedbackFrames(none) == frames;
    ChunkingIndependence(chunks, residues, outs);
    assert Payloads(frames) == payloads;
  }

  // ----- the bound is needed: a read as large as the receive buffer can lose a frame -----

  function Zeros(n: nat): seq<Byte> { seq(n, _ => 0) }

  function QuietFrame(): seq<Byte> { FeedbackFrameOf(Zeros(FEEDBACK_PAYLOAD_SIZE)) }

  /** Without its first byte the all-zero frame followed by zeros contains no frame at all. */
  lemma BeheadedFrameStartsNothing(zeros: nat)
    ensures FeedbackFrames(QuietFrame()[1..] + Zeros(zeros)) == []
  {
    var s := QuietFrame()[1..] + Zeros(zeros);
    WordOfBytes(FEEDBACK_LENGTH);
    forall i: nat | i < |s| ensures !FrameStartsAt(s, i) {
      if i + FEEDBACK_FRAME_SIZE <= |s| {
        var w := s[i..i + FEEDBACK_FRAME_SIZE];
        assert w[0] == s[i] && w[1] == s[i + 1] && w[2] == s[i + 2];
        QuietBytes(zeros, i);
        QuietBytes(zeros, i + 1);
        QuietBytes(zeros, i + 2);
      }
    }
    NoFrames(ValidFeedbackFrame, FEEDBACK_FRAME_SIZE, s);
  }

  lemma QuietBytes(zeros: nat, i: nat)
    requires i < 254 + zeros
    ensures var s := QuietFrame()[1..] + Zeros(zeros);
      && |s| == 254 + zeros
      && (i != 252 && i != 253 ==> s[i] != HEADER0)
      && (i >= 254 ==> s[i] == 0)
  {
    var payload := Zeros(FEEDBACK_PAYLOAD_SIZE);
    var covered := Covered(FEEDBACK_TYPE, FEEDBACK_LENGTH, payload);
    var frame := QuietFrame();
    assert LowByte(FEEDBACK_LENGTH) == 0xF8 && HighByte(FEEDBACK_LENGTH) == 0;
    assert 1 <= i < 252 ==> frame[i + 1] == covered[i - 1];
  }

  /** Two reads: all of a frame but its last byte, then that byte and as many zeros as were safe alone. */
  function OverlongChunks(): seq<seq<Byte>> {
    [QuietFrame()[..MAX_RESIDUE], QuietFrame()[MAX_RESIDUE..] + Zeros(SAFE_CHUNK)]
  }

  /** They carry one complete frame and publish nothing: appending the second read pushes the first
      byte of the frame out of the buffer. */
  lemma OverlongRunLosesFrame(residues: seq<seq<Byte>>, outs: seq<seq<seq<Byte>>>)
    requires Run(OverlongChunks(), residues, outs)
    ensures Flatten(outs) == [] && FeedbackFrames(QuietFrame() + Zeros(SAFE_CHUNK)) == [QuietFrame()]
  {
    var f, zeros := QuietFrame(), Zeros(SAFE_CHUNK);
    var head, tail := f[..MAX_RESIDUE], f[MAX_RESIDUE..] + zeros;
    var chunks := [head, tail];
    assert Handled(residues[0], chunks[0], outs[0], residues[0 + 1]);
    assert Handled(residues[1], chunks[1], outs[1], residues[1 + 1]);
    assert residues[0] + head == head;
    ShortHasNoFrames(head);
    assert outs[0] == [];
    FirstResidueIsWholeHead(residues[1]);
    assert head + tail == f + zeros;
    assert LastBytes(f + zeros, CAPACITY) == f[1..] + zeros;
    BeheadedFrameStartsNothing(SAFE_CHUNK);
    assert outs[1] == [];
    assert outs == [outs[0], outs[1]];
    assert Flatten(outs[..1]) == Flatten(outs[..1][..0]) + outs[0];
    OneQuietFrame();
  }

  /** There is such a run, with reads that fit the receive buffer, and it publishes nothing although
      the stream holds a frame. */
  lemma OverlongReadLosesFrame() returns (residues: seq<seq<Byte>>, outs: seq<seq<seq<Byte>>>)
    ensures Run(OverlongChunks(), residues, outs)
    ensures |OverlongChunks()[0]| == MAX_RESIDUE
    ensures |OverlongChunks()[1]| == SAFE_CHUNK + 1 <= RECEIVE_BUFFER_SIZE
    ensures Flatten(outs) == [] && FeedbackFrames(Flatten(OverlongChunks())) == [QuietFrame()]
  {
    residues, outs := RunExists(OverlongChunks());
    OverlongRunLosesFrame(residues, outs);
    var c := OverlongChunks();
    assert c == [c[0]] + [c[1]];
    assert Flatten(c) == c[0] + c[1] == QuietFrame() + Zeros(SAFE_CHUNK);
  }

  ghost predicate ChunksUpTo(chunks: seq<seq<Byte>>, b: nat) {
    forall i | 0 <= i < |chunks| :: |chunks[i]| <= b
  }

  /** Every run with chunks of at most `b` bytes publishes the scan of the whole stream. */
  ghost predicate SafeUpTo(b: nat) {
    forall chunks, residues, outs | Run(chunks, residues, outs) && ChunksUpTo(chunks, b) ::
      Flatten(outs) == Payloads(FeedbackFrames(Flatten(chunks)))
  }

  /** The bound is exact. */
  lemma SafeExactlyUpToBound(b: nat)
    ensures SafeUpTo(b) <==> b <= 1786
  {
    if b <= SAFE_CHUNK {
      forall chunks, residues, outs | Run(chunks, residues, outs) && ChunksUpTo(chunks, b)
        ensures Flatten(outs) == Payloads(FeedbackFrames(Flatten(chunks)))
      {
        SafeChunksNeverOverflow(chunks, residues, outs);
        ChunkingIndependence(chunks, residues, outs);
      }
    } else {
      var residues, outs := OverlongReadLosesFrame();
      assert ChunksUpTo(OverlongChunks(), b);
      assert |Payloads([QuietFrame()])| == 1;
    }
  }

  lemma OneQuietFrame()
    ensures FeedbackFrames(QuietFrame() + Zeros(SAFE_CHUNK)) == [QuietFrame()]
  {
    EncodedIsAccepted(Zeros(FEEDBACK_PAYLOAD_SIZE));
    OneMoreFrame(ValidFeedbackFrame, FEEDBACK_FRAME_SIZE, QuietFrame(), Zeros(SAFE_CHUNK));
    var zeros := Zeros(SAFE_CHUNK);
    forall i: nat | i < |zeros| ensures !FrameStartsAt(zeros, i) {
      if i + FEEDBACK_FRAME_SIZE <= |zeros| {
        assert zeros[i..i + FEEDBACK_FRAME_SIZE][0] == 0;
      }
    }
    NoFrames(ValidFeedbackFrame, FEEDBACK_FRAME_SIZE, zeros);
  }

  /** A drain of the incomplete frame has to keep all of it. */
  lemma FirstResidueIsWholeHead(rest: seq<Byte>)
    requires ResumesFeedback(QuietFrame()[..MAX_RESIDUE], [], rest) && |rest| <= MAX_RESIDUE
    ensures rest == QuietFrame()[..MAX_RESIDUE]
  {
    var f := QuietFrame();
    var last := f[MAX_RESIDUE..];
    var none: seq<Byte> := [];
    EncodedIsAccepted(Zeros(FEEDBACK_PAYLOAD_SIZE));
    OneMoreFrame(ValidFeedbackFrame, FEEDBACK_FRAME_SIZE, f, none);
    ShortHasNoFrames(none);
    assert f + none == f && f[..MAX_RESIDUE] + last == f;
    assert FeedbackFrames(f) == [f] + [] == [f];
    assert FeedbackFrames(f[..MAX_RESIDUE] + last) == [] + FeedbackFrames(rest + last);
    if |rest + last| < FEEDBACK_FRAME_SIZE {
      ShortHasNoFrames(rest + last);
    }
    assert FeedbackFrames(rest + last) == [f];
    OnlyFrameIsWhole(rest + last);
    assert rest == (rest + last)[..MAX_RESIDUE] == f[..MAX_RESIDUE];
  }

  lemma OnlyFrameIsWhole(s: seq<Byte>)
    requires |s| == FEEDBACK_FRAME_SIZE && |FeedbackFrames(s)| == 1
    ensures FeedbackFrames(s)[0] == s
  {
    assert s[..FEEDBACK_FRAME_SIZE] == s;
    if !ValidFeedbackFrame(s) {
      ShortHasNoFrames(s[1..]);
    }
  }
}
