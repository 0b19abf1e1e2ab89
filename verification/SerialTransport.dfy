/** `AsyncSerialTransport::Impl` and `SerialSession` as a state machine over the atomic steps
    of three parties: the caller of `async_write` and `async_write_power_off` (split into
    reading the generation, pushing, and reading it again), `open` and `close`, and the I/O
    thread of the one session, which has at most one frame in flight. */
module SerialTransport {
  import opened Crc16
  import opened FrameCodec
  import opened CommandQueue
  import opened CommandMailbox

  const MAX_GENERATION: nat := 0xFFFF_FFFF_FFFF_FFFF

  datatype Phase = Running | Draining(last: Option<QueuedCommand>) | Stopped

  datatype Session = Session(generation: nat, tx: Option<Taken>, phase: Phase)

  /** `epoch` is how many times `close` had begun when the call read the generation. */
  datatype Call =
    | NoCall
    | Began(frame: seq<Byte>, powerOff: bool, generation: nat, epoch: nat)
    | Pushed(frame: seq<Byte>, powerOff: bool, generation: nat, epoch: nat, sequence: nat)

  datatype Lifecycle = Settled | OpenCleared(generation: nat) | OpenStarted(generation: nat) | Closing

  datatype PushRecord = PushRecord(frame: seq<Byte>, generation: nat, powerOff: bool)

  datatype SentRecord = SentRecord(item: QueuedCommand, session: nat)

  /** The last four fields are a record of the past; the code keeps none of it. */
  datatype Transport = Transport(
    mailbox: Mailbox, active: nat, nextGeneration: nat, session: Option<Session>,
    call: Call, lifecycle: Lifecycle,
    epoch: nat, pushed: map<nat, PushRecord>, sent: seq<SentRecord>, completed: seq<nat>)

  datatype Step =
    | BeginWrite(frame: seq<Byte>, powerOff: bool) | PushWrite | EndWrite
    | OpenBegin | OpenFails | OpenSession | OpenPublish
    | CloseBegin | CloseDrain | DrainOne | DrainDone | CloseJoin | CloseClear
    | StartWrite | WriteDone | WriteFails

  ghost predicate Init(t: Transport) {
    && t.mailbox == Mailbox([], [], 1, seq(HISTORY_SIZE, _ => 0), 0)
    && t.active == 0 && t.nextGeneration == 1 && t.session == None
    && t.call == NoCall && t.lifecycle == Settled
    && t.epoch == 0 && t.pushed == map[] && t.sent == [] && t.completed == []
  }

  function Offer(t: Transport): (Mailbox, Option<Taken>)
    requires t.session.Some?
  {
    PopNext(t.mailbox, t.session.value.generation)
  }

  ghost predicate Enabled(t: Transport, step: Step) {
    match step
    case BeginWrite(_, _) => t.call.NoCall?
    case PushWrite => t.call.Began?
    case EndWrite => t.call.Pushed?
    case OpenBegin =>
      t.lifecycle.Settled? && t.active == 0 && t.session.None? && t.nextGeneration < MAX_GENERATION
    case OpenFails => t.lifecycle.OpenCleared?
    case OpenSession => t.lifecycle.OpenCleared?
    case OpenPublish => t.lifecycle.OpenStarted?
    case CloseBegin => t.lifecycle.Settled?
    case CloseDrain => t.lifecycle.Closing? && t.session.Some? && t.session.value.phase.Running?
    case DrainOne => t.session.Some? && t.session.value.phase.Draining? && Offer(t).1.Some?
    case DrainDone => t.session.Some? && t.session.value.phase.Draining? && Offer(t).1.None?
    case CloseJoin => t.lifecycle.Closing? && t.session.Some? && t.session.value.phase.Stopped?
    case CloseClear => t.lifecycle.Closing? && t.session.None?
    case StartWrite => t.session.Some? && t.session.value.phase.Running? && t.session.value.tx.None?
    case WriteDone => t.session.Some? && t.session.value.tx.Some?
    case WriteFails => t.session.Some? && t.session.value.tx.Some?
  }

  function Push(t: Transport): (Mailbox, nat)
    requires t.call.Began?
  {
    if t.call.powerOff then PushPowerOff(t.mailbox, t.call.frame, t.call.generation)
    else PushNormal(t.mailbox, t.call.frame, t.call.generation)
  }

  /** What `async_write` returns once it has read the generation a second time. */
  function Returned(t: Transport): nat
    requires t.call.Pushed?
  {
    if t.active == t.call.generation then t.call.sequence else 0
  }

  /** The frame `close` still writes: the last power-off drained, else one already in flight. */
  function FinalPowerOff(session: Session): Option<QueuedCommand>
    requires session.phase.Draining?
  {
    if session.phase.last.Some? then session.phase.last
    else if session.tx.Some? && |session.tx.value.item.frame| > PREFIX_SIZE &&
      session.tx.value.item.frame[PREFIX_SIZE] == 0
    then Some(session.tx.value.item)
    else None
  }

  /** The sequences a successful write completes, in the order they are recorded. */
  function CompletedBy(t: Transport): seq<nat>
    requires t.session.Some? && t.session.value.tx.Some?
  {
    var tx := t.session.value.tx.value;
    [tx.item.sequence] +
      if tx.isPowerOff then SequencesOf(t.mailbox.powerOff, t.session.value.generation) else []
  }

  function SequencesOf(queue: seq<QueuedCommand>, generation: nat): seq<nat> {
    if queue == [] then []
    else
      var earlier, last := SequencesOf(queue[..|queue| - 1], generation), queue[|queue| - 1];
      if last.generation == generation then earlier + [last.sequence] else earlier
  }

  ghost function Apply(t: Transport, step: Step): Transport
    requires |t.mailbox.history| == HISTORY_SIZE && Enabled(t, step)
  {
    match step
    case BeginWrite(frame, powerOff) =>
      if t.active == 0 then t else t.(call := Began(frame, powerOff, t.active, t.epoch))
    case PushWrite =>
      var (m, sequence) := Push(t);
      var c := t.call;
      t.(mailbox := m,
         call := Pushed(c.frame, c.powerOff, c.generation, c.epoch, sequence),
         pushed := if sequence == 0 then t.pushed
                   else t.pushed[sequence := PushRecord(c.frame, c.generation, c.powerOff)])
    case EndWrite => t.(call := NoCall)
    case OpenBegin =>
      t.(nextGeneration := t.nextGeneration + 1, mailbox := Clear(t.mailbox),
         lifecycle := OpenCleared(t.nextGeneration))
    case OpenFails => t.(lifecycle := Settled)
    case OpenSession =>
      t.(session := Some(Session(t.lifecycle.generation, None, Running)),
         lifecycle := OpenStarted(t.lifecycle.generation))
    case OpenPublish => t.(active := t.lifecycle.generation, lifecycle := Settled)
    case CloseBegin => t.(active := 0, lifecycle := Closing, epoch := t.epoch + 1)
    case CloseDrain => t.(session := Some(t.session.value.(phase := Draining(None))))
    case DrainOne =>
      var (m, taken) := Offer(t);
      var s := t.session.value;
      t.(mailbox := m,
         session := if taken.value.isPowerOff then Some(s.(phase := Draining(Some(taken.value.item))))
                    else t.session)
    case DrainDone =>
      var s := t.session.value;
      var last := FinalPowerOff(s);
      t.(mailbox := Offer(t).0, session := Some(s.(phase := Stopped)),
         sent := if last.Some? then t.sent + [SentRecord(last.value, s.generation)] else t.sent)
    case CloseJoin => t.(session := None)
    case CloseClear => t.(mailbox := Clear(t.mailbox), lifecycle := Settled)
    case StartWrite =>
      var (m, taken) := Offer(t);
      var s := t.session.value;
      t.(mailbox := m, session := Some(s.(tx := taken)),
         sent := if taken.Some? then t.sent + [SentRecord(taken.value.item, s.generation)] else t.sent)
    case WriteDone =>
      var s := t.session.value;
      var tx := s.tx.value;
      t.(mailbox := if tx.isPowerOff then CompletePowerOff(t.mailbox, tx.item.sequence, s.generation)
                    else Complete(t.mailbox, tx.item.sequence),
         session := Some(s.(tx := None)), completed := t.completed + CompletedBy(t))
    case WriteFails => t.(session := Some(t.session.value.(tx := None)))
  }

  ghost predicate Run(states: seq<Transport>, steps: seq<Step>) {
    && |states| == |steps| + 1
    && Init(states[0])
    && (forall i | 0 <= i < |states| :: |states[i].mailbox.history| == HISTORY_SIZE)
    && (forall i | 0 <= i < |steps| :: Enabled(states[i], steps[i]) && states[i + 1] == Apply(states[i], steps[i]))
  }

  // ----- generations: which session a call can reach -----

  ghost predicate LifecycleInv(t: Transport) {
    && t.nextGeneration >= 1 && t.active < t.nextGeneration
    && (t.session.Some? ==> 1 <= t.session.value.generation < t.nextGeneration)
    && match t.lifecycle
       case Settled =>
         && (t.active == 0 <==> t.session.None?)
         && (t.session.Some? ==> t.session.value.generation == t.active && t.session.value.phase.Running?)
       case OpenCleared(g) => t.active == 0 && t.session.None? && 1 <= g < t.nextGeneration
       case OpenStarted(g) =>
         && t.active == 0 && t.session.Some? && t.session.value.generation == g
         && t.session.value.phase.Running?
       case Closing => t.active == 0
  }

  ghost predicate Opening(t: Transport, g: nat) {
    (t.lifecycle.OpenCleared? || t.lifecycle.OpenStarted?) && t.lifecycle.generation == g
  }

  /** A call sees its own generation active exactly while no `close` has begun since it read it. */
  ghost predicate CallInv(t: Transport) {
    !t.call.NoCall? ==>
      && 1 <= t.call.generation < t.nextGeneration && t.call.epoch <= t.epoch
      && (t.call.epoch == t.epoch <==> t.active == t.call.generation)
      && !Opening(t, t.call.generation)
  }

  ghost predicate Latched(t: Transport) {
    t.mailbox.latch != 0 && t.session.Some? && t.session.value.generation == t.mailbox.latch
  }

  /** While the latch holds the live session, no call on behalf of another can be under way. */
  ghost predicate LatchInv(t: Transport) {
    && t.mailbox.latch < t.nextGeneration
    && (t.mailbox.latch != 0 ==> !Opening(t, t.mailbox.latch))
    && (Latched(t) && !t.call.NoCall? ==> t.call.generation == t.mailbox.latch)
  }

  ghost predicate GenerationInv(t: Transport) {
    LifecycleInv(t) && CallInv(t) && LatchInv(t)
  }

  lemma GenerationStep(t: Transport, step: Step)
    requires |t.mailbox.history| == HISTORY_SIZE && Enabled(t, step) && GenerationInv(t)
    ensures GenerationInv(Apply(t, step))
  {}

  // ----- what the queues hold -----

  ghost predicate Increasing(s: seq<nat>) {
    forall i, j | 0 <= i < j < |s| :: s[i] < s[j]
  }

  ghost predicate Ordered(queue: seq<QueuedCommand>) {
    forall i, j | 0 <= i < j < |queue| :: queue[i].sequence < queue[j].sequence
  }

  ghost predicate Above(queue: seq<QueuedCommand>, low: nat) {
    forall i | 0 <= i < |queue| :: low < queue[i].sequence
  }

  ghost predicate Below(queue: seq<QueuedCommand>, high: nat) {
    forall i | 0 <= i < |queue| :: queue[i].sequence < high
  }

  /** Every entry was pushed, by a call of the kind the queue is for. */
  ghost predicate Logged(queue: seq<QueuedCommand>, powerOff: bool, pushed: map<nat, PushRecord>) {
    forall i | 0 <= i < |queue| :: LoggedItem(queue[i], powerOff, pushed)
  }

  ghost predicate LoggedItem(item: QueuedCommand, powerOff: bool, pushed: map<nat, PushRecord>) {
    && item.sequence in pushed
    && pushed[item.sequence] == PushRecord(item.frame, item.generation, powerOff)
  }

  ghost predicate QueueOk(
    queue: seq<QueuedCommand>, powerOff: bool, next: nat, pushed: map<nat, PushRecord>)
  {
    Ordered(queue) && Below(queue, next) && Logged(queue, powerOff, pushed)
  }

  ghost predicate QueuesInv(t: Transport) {
    && t.mailbox.WellFormed()
    && QueueOk(t.mailbox.normal, false, t.mailbox.next, t.pushed)
    && QueueOk(t.mailbox.powerOff, true, t.mailbox.next, t.pushed)
    && forall k | k in t.pushed :: 1 <= k < t.mailbox.next
  }

  lemma {:induction false} FromSessionIsSuffix(queue: seq<QueuedCommand>, generation: nat) returns (k: nat)
    ensures k <= |queue| && FromSession(queue, generation) == queue[k..]
    ensures k < |queue| ==> queue[k].generation == generation
    ensures forall i | 0 <= i < k :: queue[i].generation != generation
  {
    if queue == [] || queue[0].generation == generation {
      k := 0;
    } else {
      k := FromSessionIsSuffix(queue[1..], generation);
      k := k + 1;
    }
  }

  /** A pop hands out the oldest entry of the session, from the power-off queue if it has one
      there, and leaves suffixes of both queues. */
  lemma PopNextShape(m: Mailbox, generation: nat) returns (p: nat, n: nat)
    ensures p <= |m.powerOff| && n <= |m.normal|
    ensures var (after, taken) := PopNext(m, generation);
      && after == m.(powerOff := m.powerOff[p..], normal := m.normal[n..])
      && (taken.Some? && taken.value.isPowerOff ==>
            n == 0 && p > 0 && taken.value.item == m.powerOff[p - 1])
      && (taken.Some? && !taken.value.isPowerOff ==>
            p == |m.powerOff| && n > 0 && taken.value.item == m.normal[n - 1] && m.latch != generation)
      && (taken.Some? ==> taken.value.item.generation == generation)
  {
    p := FromSessionIsSuffix(m.powerOff, generation);
    n := 0;
    if p < |m.powerOff| {
      p := p + 1;
    } else if m.latch != generation {
      n := FromSessionIsSuffix(m.normal, generation);
      if n < |m.normal| {
        n := n + 1;
      }
    }
    assert m.powerOff[|m.powerOff|..] == [] && m.normal[|m.normal|..] == [];
  }

  lemma QueueOkAfterPush(
    queue: seq<QueuedCommand>, powerOff: bool, next: nat, pushed: map<nat, PushRecord>, record: PushRecord)
    requires QueueOk(queue, powerOff, next, pushed) && next !in pushed
    ensures QueueOk(queue, powerOff, next + 1, pushed[next := record])
    ensures record.powerOff == powerOff ==>
      QueueOk(
        queue + [QueuedCommand(record.frame, next, record.generation)],
        powerOff, next + 1, pushed[next := record])
  {}

  lemma PushKeepsQueues(t: Transport)
    requires QueuesInv(t) && t.call.Began?
    ensures QueuesInv(Apply(t, PushWrite))
  {
    var m, record := t.mailbox, PushRecord(t.call.frame, t.call.generation, t.call.powerOff);
    assert m.next !in t.pushed;
    QueueOkAfterPush(m.normal, false, m.next, t.pushed, record);
    QueueOkAfterPush(m.powerOff, true, m.next, t.pushed, record);
  }

  lemma QueueOkAfterPop(
    queue: seq<QueuedCommand>, powerOff: bool, next: nat, pushed: map<nat, PushRecord>, k: nat)
    requires QueueOk(queue, powerOff, next, pushed) && k <= |queue|
    ensures QueueOk(queue[k..], powerOff, next, pushed)
  {}

  lemma PopKeepsQueues(t: Transport, step: Step)
    requires QueuesInv(t) && Enabled(t, step)
    requires step.DrainOne? || step.DrainDone? || step.StartWrite?
    ensures QueuesInv(Apply(t, step))
  {
    var p, n := PopNextShape(t.mailbox, t.session.value.generation);
    QueueOkAfterPop(t.mailbox.normal, false, t.mailbox.next, t.pushed, n);
    QueueOkAfterPop(t.mailbox.powerOff, true, t.mailbox.next, t.pushed, p);
  }

  // ----- completions -----

  ghost function Newest(completed: seq<nat>): nat {
    if completed == [] then 0 else completed[|completed| - 1]
  }

  /** Each history slot holds the newest completed sequence that falls on it. */
  ghost predicate HistoryOk(history: seq<nat>, completed: seq<nat>) {
    && |history| == HISTORY_SIZE
    && Increasing(completed)
    && (forall i | 0 <= i < |completed| ::
          0 < completed[i] <= Newest(completed) && completed[i] <= history[completed[i] % HISTORY_SIZE])
    && (forall r | 0 <= r < HISTORY_SIZE ::
          history[r] == 0 || (history[r] in completed && history[r] % HISTORY_SIZE == r))
  }

  /** The frame in flight is older than everything still queued that could complete after it. */
  ghost predicate FlightInv(t: Transport) {
    t.session.Some? && t.session.value.tx.Some? ==>
      var tx := t.session.value.tx.value;
      && LoggedItem(tx.item, tx.isPowerOff, t.pushed)
      && tx.item.generation == t.session.value.generation
      && tx.item.sequence < t.mailbox.next
      && Newest(t.completed) < tx.item.sequence
      && Above(t.mailbox.powerOff, tx.item.sequence)
      && (!tx.isPowerOff ==> Above(t.mailbox.normal, tx.item.sequence))
  }

  ghost predicate CompletionInv(t: Transport) {
    && QueuesInv(t) && FlightInv(t)
    && HistoryOk(t.mailbox.history, t.completed)
    && Newest(t.completed) < t.mailbox.next
    && Above(t.mailbox.normal, Newest(t.completed)) && Above(t.mailbox.powerOff, Newest(t.completed))
  }

  lemma RecordKeepsHistory(history: seq<nat>, completed: seq<nat>, sequence: nat)
    requires HistoryOk(history, completed) && Newest(completed) < sequence
    ensures HistoryOk(Record(history, sequence), completed + [sequence])
    ensures Newest(completed + [sequence]) == sequence
  {
    var after, done := Record(history, sequence), completed + [sequence];
    forall r | 0 <= r < HISTORY_SIZE
      ensures after[r] == 0 || (after[r] in done && after[r] % HISTORY_SIZE == r)
    {
      assert done[|completed|] == sequence;
      assert history[r] in completed ==> history[r] in done;
    }
  }

  lemma {:induction false} SequencesBelow(queue: seq<QueuedCommand>, generation: nat, high: nat)
    requires Below(queue, high)
    ensures forall i | 0 <= i < |SequencesOf(queue, generation)| :: SequencesOf(queue, generation)[i] < high
  {
    if queue != [] {
      SequencesBelow(queue[..|queue| - 1], generation, high);
    }
  }

  lemma {:induction false} RecordSessionKeepsHistory(
    history: seq<nat>, completed: seq<nat>, queue: seq<QueuedCommand>, generation: nat)
    requires HistoryOk(history, completed) && Ordered(queue) && Above(queue, Newest(completed))
    ensures HistoryOk(RecordSession(history, queue, generation), completed + SequencesOf(queue, generation))
  {
    if queue == [] {
      assert completed + [] == completed;
      return;
    }
    var init, last := queue[..|queue| - 1], queue[|queue| - 1];
    var earlier := SequencesOf(init, generation);
    RecordSessionKeepsHistory(history, completed, init, generation);
    if last.generation == generation {
      SequencesBelow(init, generation, last.sequence);
      NewestOfConcat(completed, earlier);
      RecordKeepsHistory(RecordSession(history, init, generation), completed + earlier, last.sequence);
      assert (completed + earlier) + [last.sequence] == completed + (earlier + [last.sequence]);
    }
  }

  lemma NormalDoneKeepsCompletion(t: Transport)
    requires CompletionInv(t) && Enabled(t, WriteDone) && !t.session.value.tx.value.isPowerOff
    ensures CompletionInv(Apply(t, WriteDone))
  {
    var sequence := t.session.value.tx.value.item.sequence;
    RecordKeepsHistory(t.mailbox.history, t.completed, sequence);
    assert CompletedBy(t) == [sequence];
  }

  lemma PowerOffDoneHistory(history: seq<nat>, completed: seq<nat>, sequence: nat, queue: seq<QueuedCommand>, g: nat)
    requires HistoryOk(history, completed) && Newest(completed) < sequence && Ordered(queue) && Above(queue, sequence)
    ensures HistoryOk(RecordSession(Record(history, sequence), queue, g), (completed + [sequence]) + SequencesOf(queue, g))
  {
    RecordKeepsHistory(history, completed, sequence);
    RecordSessionKeepsHistory(Record(history, sequence), completed + [sequence], queue, g);
  }

  lemma PowerOffDoneNewest(completed: seq<nat>, sequence: nat, queue: seq<QueuedCommand>, g: nat, next: nat)
    requires sequence < next && Below(queue, next)
    ensures Newest((completed + [sequence]) + SequencesOf(queue, g)) < next
  {
    SequencesBelow(queue, g, next);
    NewestOfConcat(completed + [sequence], SequencesOf(queue, g));
  }

  lemma Associate(a: seq<nat>, x: nat, b: seq<nat>)
    ensures (a + [x]) + b == a + ([x] + b)
  {}

  lemma PowerOffDone(
    history: seq<nat>, completed: seq<nat>, sequence: nat, queue: seq<QueuedCommand>, g: nat, next: nat, done: seq<nat>)
    requires HistoryOk(history, completed) && Newest(completed) < sequence < next
    requires Ordered(queue) && Above(queue, sequence) && Below(queue, next)
    requires done == completed + ([sequence] + SequencesOf(queue, g))
    ensures HistoryOk(RecordSession(Record(history, sequence), queue, g), done) && Newest(done) < next
  {
    Associate(completed, sequence, SequencesOf(queue, g));
    PowerOffDoneHistory(history, completed, sequence, queue, g);
    PowerOffDoneNewest(completed, sequence, queue, g, next);
  }

  lemma PowerOffDoneKeepsCompletion(t: Transport)
    requires CompletionInv(t) && Enabled(t, WriteDone) && t.session.value.tx.value.isPowerOff
    ensures CompletionInv(Apply(t, WriteDone))
  {
    PowerOffDone(t.mailbox.history, t.completed, t.session.value.tx.value.item.sequence, t.mailbox.powerOff,
                 t.session.value.generation, t.mailbox.next, t.completed + CompletedBy(t));
  }

  lemma NewestOfConcat(a: seq<nat>, b: seq<nat>)
    ensures Newest(a + b) == if b == [] then Newest(a) else b[|b| - 1]
  {
    assert b == [] ==> a + b == a;
  }

  /** A push leaves both queues alone or appends the next sequence to one of them. */
  lemma PushShape(t: Transport)
    requires t.call.Began?
    ensures var (m, sequence) := Push(t);
      && t.mailbox.next <= m.next && m.history == t.mailbox.history
      && (sequence != 0 ==> sequence == t.mailbox.next)
      && (m.normal == t.mailbox.normal
          || m.normal == t.mailbox.normal + [QueuedCommand(t.call.frame, t.mailbox.next, t.call.generation)])
      && (m.powerOff == t.mailbox.powerOff
          || m.powerOff == t.mailbox.powerOff + [QueuedCommand(t.call.frame, t.mailbox.next, t.call.generation)])
  {}

  lemma AboveAfterPush(queue: seq<QueuedCommand>, low: nat, item: QueuedCommand)
    requires Above(queue, low) && low < item.sequence
    ensures Above(queue + [item], low)
  {}

  lemma PushKeepsCompletion(t: Transport)
    requires CompletionInv(t) && Enabled(t, PushWrite)
    ensures CompletionInv(Apply(t, PushWrite))
  {
    PushKeepsQueues(t);
    PushShape(t);
    var m, item := t.mailbox, QueuedCommand(t.call.frame, t.mailbox.next, t.call.generation);
    AboveAfterPush(m.normal, Newest(t.completed), item);
    AboveAfterPush(m.powerOff, Newest(t.completed), item);
    if t.session.Some? && t.session.value.tx.Some? {
      var flying := t.session.value.tx.value;
      AboveAfterPush(m.powerOff, flying.item.sequence, item);
      if !flying.isPowerOff {
        AboveAfterPush(m.normal, flying.item.sequence, item);
      }
    }
  }

  lemma StartWriteKeepsCompletion(t: Transport)
    requires CompletionInv(t) && Enabled(t, StartWrite)
    ensures CompletionInv(Apply(t, StartWrite))
  {
    PopKeepsQueues(t, StartWrite);
    var p, n := PopNextShape(t.mailbox, t.session.value.generation);
  }

  lemma DrainKeepsCompletion(t: Transport, step: Step)
    requires CompletionInv(t) && Enabled(t, step) && (step.DrainOne? || step.DrainDone?)
    ensures CompletionInv(Apply(t, step))
  {
    PopKeepsQueues(t, step);
    var p, n := PopNextShape(t.mailbox, t.session.value.generation);
  }

  lemma CompletionStep(t: Transport, step: Step)
    requires CompletionInv(t) && Enabled(t, step)
    ensures CompletionInv(Apply(t, step))
  {
    match step
    case PushWrite => PushKeepsCompletion(t);
    case WriteDone =>
      if t.session.value.tx.value.isPowerOff {
        PowerOffDoneKeepsCompletion(t);
      } else {
        NormalDoneKeepsCompletion(t);
      }
    case StartWrite => StartWriteKeepsCompletion(t);
    case DrainOne => DrainKeepsCompletion(t, step);
    case DrainDone => DrainKeepsCompletion(t, step);
    case _ =>
  }

  // ----- theorems over every run -----

  lemma {:induction false} RunKeepsInv(states: seq<Transport>, steps: seq<Step>, i: nat)
    requires Run(states, steps) && i < |states|
    ensures GenerationInv(states[i]) && CompletionInv(states[i])
  {
    if i > 0 {
      RunKeepsInv(states, steps, i - 1);
      assert states[i - 1 + 1] == Apply(states[i - 1], steps[i - 1]);
      GenerationStep(states[i - 1], steps[i - 1]);
      CompletionStep(states[i - 1], steps[i - 1]);
    }
  }

  /** Completions are recorded in strictly increasing sequence order, the coalesced power-offs
      included, and only for sequences that were handed out. */
  lemma CompletionsIncrease(states: seq<Transport>, steps: seq<Step>, i: nat)
    requires Run(states, steps) && i < |states|
    ensures Increasing(states[i].completed)
    ensures forall k | 0 <= k < |states[i].completed| :: 1 <= states[i].completed[k] < states[i].mailbox.next
  {
    RunKeepsInv(states, steps, i);
  }

  /** The 64-slot history answers as the set of all completions would, for every sequence with
      fewer than 64 handed out after it; and it never reports one that did not complete. */
  lemma HistoryAnswersAsASet(states: seq<Transport>, steps: seq<Step>, i: nat, sequence: nat)
    requires Run(states, steps) && i < |states|
    ensures SequenceCompleted(states[i].mailbox, sequence) ==> sequence in states[i].completed
    ensures states[i].mailbox.next - 1 - sequence < 64 ==>
      (SequenceCompleted(states[i].mailbox, sequence) <==> sequence in states[i].completed)
  {
    RunKeepsInv(states, steps, i);
    var t := states[i];
    if sequence in t.completed && t.mailbox.next - 1 - sequence < HISTORY_SIZE {
      var newest := t.mailbox.history[sequence % HISTORY_SIZE];
      assert sequence <= newest && newest in t.completed && newest < t.mailbox.next;
      SameSlot(sequence, newest);
    }
  }

  lemma SameSlot(a: nat, b: nat)
    requires a <= b < a + HISTORY_SIZE && a % HISTORY_SIZE == b % HISTORY_SIZE
    ensures a == b
  {}

  /** A sequence is handed out once: the counter only grows, never wraps, and a later push
      never reuses what an earlier one was given. */
  lemma {:induction false} SequencesAreUnique(states: seq<Transport>, steps: seq<Step>, i: nat, j: nat)
    requires Run(states, steps) && i < j < |states|
    requires steps[i] == PushWrite && states[i + 1].call.sequence != 0
    ensures states[i + 1].call.sequence < states[j].mailbox.next <= MAX_SEQUENCE
    ensures j < |steps| && steps[j] == PushWrite ==>
      states[j + 1].call.sequence == 0 || states[j + 1].call.sequence > states[i + 1].call.sequence
  {
    RunKeepsInv(states, steps, i);
    RunKeepsInv(states, steps, j);
    NextGrows(states, steps, i + 1, j);
    assert states[i + 1] == Apply(states[i], steps[i]);
    assert j < |steps| ==> states[j + 1] == Apply(states[j], steps[j]);
  }

  lemma {:induction false} NextGrows(states: seq<Transport>, steps: seq<Step>, i: nat, j: nat)
    requires Run(states, steps) && i <= j < |states|
    ensures states[i].mailbox.next <= states[j].mailbox.next
  {
    if i < j {
      NextGrows(states, steps, i, j - 1);
      NextGrowsOnce(states, steps, j - 1);
    }
  }

  lemma NextGrowsOnce(states: seq<Transport>, steps: seq<Step>, i: nat)
    requires Run(states, steps) && i < |steps|
    ensures states[i].mailbox.next <= states[i + 1].mailbox.next
  {
    NextStep(states[i], steps[i]);
  }

  lemma NextStep(t: Transport, step: Step)
    requires |t.mailbox.history| == HISTORY_SIZE && Enabled(t, step)
    ensures t.mailbox.next <= Apply(t, step).mailbox.next
  {}

  // ----- the power-off latch -----

  /** What the I/O thread takes out of the mailbox in this step. */
  function TakenBy(t: Transport, step: Step): Option<Taken>
    requires Enabled(t, step)
  {
    if step.StartWrite? || step.DrainOne? then Offer(t).1 else None
  }

  /** The steps that may release a latch held for session `g`. */
  ghost predicate Releases(t: Transport, step: Step, g: nat)
    requires Enabled(t, step)
  {
    || step.OpenBegin? || step.CloseClear?
    || (step.WriteDone? && t.session.value.tx.value.isPowerOff && t.session.value.generation == g)
  }

  /** The latch is set for `g`, and no other session nor a call on its behalf is around. */
  ghost predicate Holding(t: Transport, g: nat) {
    && t.mailbox.latch == g != 0
    && (t.session.Some? ==> t.session.value.generation == g)
    && (t.session.None? ==> t.lifecycle.Closing?)
    && (!t.call.NoCall? ==> t.call.generation == g)
  }

  lemma HoldingStep(t: Transport, step: Step, g: nat)
    requires GenerationInv(t) && |t.mailbox.history| == HISTORY_SIZE && Enabled(t, step)
    requires Holding(t, g) && !Releases(t, step, g)
    ensures Holding(Apply(t, step), g)
  {}

  lemma {:induction false} HoldingRun(states: seq<Transport>, steps: seq<Step>, i: nat, j: nat, g: nat)
    requires Run(states, steps) && i <= j < |states| && Holding(states[i], g)
    requires forall k | i <= k < j :: !Releases(states[k], steps[k], g)
    ensures Holding(states[j], g)
  {
    if i < j {
      HoldingRun(states, steps, i, j - 1, g);
      RunKeepsInv(states, steps, j - 1);
      HoldingStep(states[j - 1], steps[j - 1], g);
      assert states[j - 1 + 1] == Apply(states[j - 1], steps[j - 1]);
    }
  }

  lemma PowerOffPushHolds(t: Transport)
    requires GenerationInv(t) && |t.mailbox.history| == HISTORY_SIZE && Enabled(t, PushWrite) && t.call.powerOff
    requires t.session.Some? && t.session.value.generation == t.call.generation
    ensures Holding(Apply(t, PushWrite), t.call.generation)
  {}

  lemma HeldBack(t: Transport, step: Step, g: nat)
    requires Enabled(t, step) && Holding(t, g)
    ensures TakenBy(t, step).Some? ==> TakenBy(t, step).value.isPowerOff
  {
    if TakenBy(t, step).Some? {
      var p, n := PopNextShape(t.mailbox, g);
    }
  }

  /** Once a power-off has been pushed for the live session, even one that found no room and
      returned 0, nothing but power-offs is taken until one of that session's power-offs
      completes or the mailbox is cleared. */
  lemma PowerOffHoldsNormalFrames(states: seq<Transport>, steps: seq<Step>, i: nat, j: nat)
    requires Run(states, steps) && i < j < |steps|
    requires steps[i] == PushWrite && states[i].call.powerOff
    requires states[i].session.Some? && states[i].session.value.generation == states[i].call.generation
    requires forall k | i < k < j :: !Releases(states[k], steps[k], states[i].call.generation)
    ensures var taken := TakenBy(states[j], steps[j]); taken.Some? ==> taken.value.isPowerOff
  {
    var g := states[i].call.generation;
    RunKeepsInv(states, steps, i);
    assert states[i + 1] == Apply(states[i], steps[i]);
    PowerOffPushHolds(states[i]);
    HoldingRun(states, steps, i + 1, j, g);
    HeldBack(states[j], steps[j], g);
  }

  ghost predicate NormalSince(t: Transport, first: nat) {
    && first <= t.mailbox.next
    && forall k | 0 <= k < |t.mailbox.normal| :: first <= t.mailbox.normal[k].sequence
  }

  lemma NormalSinceStep(t: Transport, step: Step, first: nat)
    requires CompletionInv(t) && Enabled(t, step) && NormalSince(t, first)
    ensures NormalSince(Apply(t, step), first)
    ensures TakenBy(t, step).Some? && !TakenBy(t, step).value.isPowerOff ==>
      first <= TakenBy(t, step).value.item.sequence
  {
    NextStep(t, step);
    if step.StartWrite? || step.DrainOne? || step.DrainDone? {
      var p, n := PopNextShape(t.mailbox, t.session.value.generation);
    } else if step.PushWrite? {
      PushShape(t);
    }
  }

  lemma {:induction false} NormalSinceRun(states: seq<Transport>, steps: seq<Step>, i: nat, j: nat, first: nat)
    requires Run(states, steps) && i <= j < |states| && NormalSince(states[i], first)
    ensures NormalSince(states[j], first)
  {
    if i < j {
      NormalSinceRun(states, steps, i, j - 1, first);
      RunKeepsInv(states, steps, j - 1);
      NormalSinceStep(states[j - 1], steps[j - 1], first);
      assert states[j - 1 + 1] == Apply(states[j - 1], steps[j - 1]);
    }
  }

  /** Every normal frame taken after a power-off completed was pushed after it completed. */
  lemma NoStaleReplay(states: seq<Transport>, steps: seq<Step>, i: nat, j: nat)
    requires Run(states, steps) && i < j < |steps|
    requires steps[i] == WriteDone && states[i].session.value.tx.value.isPowerOff
    ensures var taken := TakenBy(states[j], steps[j]);
      taken.Some? && !taken.value.isPowerOff ==> taken.value.item.sequence !in states[i + 1].pushed
  {
    RunKeepsInv(states, steps, i + 1);
    RunKeepsInv(states, steps, j);
    assert states[i + 1] == Apply(states[i], steps[i]);
    var first := states[i + 1].mailbox.next;
    NormalSinceRun(states, steps, i + 1, j, first);
    NormalSinceStep(states[j], steps[j], first);
  }

  ghost predicate PushesPowerOff(t: Transport, step: Step)
    requires Enabled(t, step)
  {
    step.PushWrite? && t.call.powerOff
  }

  lemma LatchStep(t: Transport, step: Step, g: nat)
    requires |t.mailbox.history| == HISTORY_SIZE && Enabled(t, step) && t.mailbox.latch == g != 0
    ensures !Releases(t, step, g) && !PushesPowerOff(t, step) ==> Apply(t, step).mailbox.latch == g
    ensures Releases(t, step, g) ==> Apply(t, step).mailbox.latch == 0
  {
    if step.StartWrite? || step.DrainOne? || step.DrainDone? {
      var p, n := PopNextShape(t.mailbox, t.session.value.generation);
    }
  }

  /** A latch stays until a power-off of its own session completes, the mailbox is cleared, or another
      power-off is pushed: in every run, however many completions of other sessions or of normal
      frames there are, and any of the first two opens it. */
  lemma {:induction false} LatchIsKept(states: seq<Transport>, steps: seq<Step>, i: nat, j: nat, g: nat)
    requires Run(states, steps) && i <= j < |states| && states[i].mailbox.latch == g != 0
    requires forall k | i <= k < j :: !Releases(states[k], steps[k], g) && !PushesPowerOff(states[k], steps[k])
    ensures states[j].mailbox.latch == g
    ensures j < |steps| && Releases(states[j], steps[j], g) ==> states[j + 1].mailbox.latch == 0
    decreases j
  {
    if i < j {
      LatchIsKept(states, steps, i, j - 1, g);
      LatchStep(states[j - 1], steps[j - 1], g);
      assert states[j - 1 + 1] == Apply(states[j - 1], steps[j - 1]);
    }
    if j < |steps| {
      LatchStep(states[j], steps[j], g);
    }
  }

  // ----- session isolation -----

  ghost predicate SentOk(t: Transport) {
    forall k | 0 <= k < |t.sent| :: SentRecordOk(t.sent[k], t.pushed)
  }

  ghost predicate SentRecordOk(r: SentRecord, pushed: map<nat, PushRecord>) {
    && r.item.sequence in pushed
    && pushed[r.item.sequence].frame == r.item.frame
    && pushed[r.item.sequence].generation == r.session
  }

  /** The power-off a draining session remembers is its own. */
  ghost predicate DrainOk(t: Transport) {
    t.session.Some? && t.session.value.phase.Draining? && t.session.value.phase.last.Some? ==>
      SentRecordOk(SentRecord(t.session.value.phase.last.value, t.session.value.generation), t.pushed)
  }

  ghost predicate CallOk(t: Transport) {
    t.call.Pushed? && t.call.sequence != 0 ==>
      && t.call.sequence in t.pushed
      && t.pushed[t.call.sequence] == PushRecord(t.call.frame, t.call.generation, t.call.powerOff)
  }

  ghost predicate IsolationInv(t: Transport) {
    SentOk(t) && DrainOk(t) && CallOk(t)
  }

  lemma IsolationStep(t: Transport, step: Step)
    requires CompletionInv(t) && Enabled(t, step) && IsolationInv(t)
    ensures IsolationInv(Apply(t, step))
  {
    if step.StartWrite? || step.DrainOne? {
      var p, n := PopNextShape(t.mailbox, t.session.value.generation);
    } else if step.PushWrite? {
      PushShape(t);
      assert t.mailbox.next !in t.pushed;
    }
  }

  lemma {:induction false} IsolationRun(states: seq<Transport>, steps: seq<Step>, i: nat)
    requires Run(states, steps) && i < |states|
    ensures IsolationInv(states[i])
  {
    if i > 0 {
      IsolationRun(states, steps, i - 1);
      RunKeepsInv(states, steps, i - 1);
      IsolationStep(states[i - 1], steps[i - 1]);
      assert states[i - 1 + 1] == Apply(states[i - 1], steps[i - 1]);
    }
  }

  /** Every frame a session writes, the final one of `close` included, is one that a call pushed
      after reading that very session's generation. */
  lemma SessionsSendOnlyTheirOwn(states: seq<Transport>, steps: seq<Step>, i: nat, k: nat)
    requires Run(states, steps) && i < |states| && k < |states[i].sent|
    ensures var r := states[i].sent[k];
      && r.item.sequence in states[i].pushed
      && states[i].pushed[r.item.sequence].frame == r.item.frame
      && states[i].pushed[r.item.sequence].generation == r.session
  {
    IsolationRun(states, steps, i);
    assert SentRecordOk(states[i].sent[k], states[i].pushed);
  }

  /** A non-zero return means that the frame was pushed under the returned sequence and that no
      `close` began between the two reads of the generation: one session was active throughout. */
  lemma NonZeroReturnMeansOneSession(states: seq<Transport>, steps: seq<Step>, i: nat)
    requires Run(states, steps) && i < |steps| && steps[i] == EndWrite
    requires Returned(states[i]) != 0
    ensures states[i].epoch == states[i].call.epoch
    ensures states[i].active == states[i].call.generation
    ensures states[i].session.Some? && states[i].session.value.generation == states[i].call.generation
    ensures Returned(states[i]) in states[i].pushed
    ensures states[i].pushed[Returned(states[i])]
         == PushRecord(states[i].call.frame, states[i].call.generation, states[i].call.powerOff)
  {
    RunKeepsInv(states, steps, i);
    IsolationRun(states, steps, i);
  }
}
