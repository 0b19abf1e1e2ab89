/** `CommandQueue::try_push` and `try_pop` split into their single loads and stores, with one
    producer and one consumer interleaved in any order under sequential consistency. A slot is
    written and read field by field, so a torn command would be visible here. */
module SpscRing {
  import opened CommandQueue
  import opened Crc16

  datatype Producer =
    | ProducerIdle
    | HeadLoaded(item: QueuedCommand, head: nat)
    | RoomSeen(item: QueuedCommand, head: nat)
    | FrameStored(item: QueuedCommand, head: nat)
    | SequenceStored(item: QueuedCommand, head: nat)
    | SlotStored(item: QueuedCommand, head: nat)

  datatype Consumer =
    | ConsumerIdle
    | TailLoaded(tail: nat)
    | ItemSeen(tail: nat)
    | FrameLoaded(tail: nat, frame: seq<Byte>)
    | SequenceLoaded(tail: nat, frame: seq<Byte>, sequence: nat)
    | SlotLoaded(tail: nat, item: QueuedCommand)

  /** `pushed` and `popped` record the commands of the completed calls; the code has no such log. */
  datatype Ring = Ring(
    slots: seq<QueuedCommand>, head: nat, tail: nat,
    producer: Producer, consumer: Consumer,
    pushed: seq<QueuedCommand>, popped: seq<QueuedCommand>)

  datatype Step =
    | LoadHead(item: QueuedCommand) | CheckRoom | StoreFrame | StoreSequence | StoreGeneration | PublishHead
    | LoadTail | CheckItem | ReadFrame | ReadSequence | ReadGeneration | PublishTail

  ghost predicate Init(s: Ring) {
    && |s.slots| == STORAGE_SIZE && s.head == 0 && s.tail == 0
    && s.producer == ProducerIdle && s.consumer == ConsumerIdle
    && s.pushed == [] && s.popped == []
  }

  ghost predicate WellFormed(s: Ring) {
    && |s.slots| == STORAGE_SIZE && s.head < STORAGE_SIZE && s.tail < STORAGE_SIZE
    && (!s.producer.ProducerIdle? ==> s.producer.head < STORAGE_SIZE)
    && (!s.consumer.ConsumerIdle? ==> s.consumer.tail < STORAGE_SIZE)
  }

  ghost predicate Enabled(s: Ring, step: Step) {
    match step
    case LoadHead(_) => s.producer.ProducerIdle?
    case CheckRoom => s.producer.HeadLoaded?
    case StoreFrame => s.producer.RoomSeen?
    case StoreSequence => s.producer.FrameStored?
    case StoreGeneration => s.producer.SequenceStored?
    case PublishHead => s.producer.SlotStored?
    case LoadTail => s.consumer.ConsumerIdle?
    case CheckItem => s.consumer.TailLoaded?
    case ReadFrame => s.consumer.ItemSeen?
    case ReadSequence => s.consumer.FrameLoaded?
    case ReadGeneration => s.consumer.SequenceLoaded?
    case PublishTail => s.consumer.SlotLoaded?
  }

  ghost function Apply(s: Ring, step: Step): Ring
    requires WellFormed(s) && Enabled(s, step)
  {
    var p, c := s.producer, s.consumer;
    match step
    case LoadHead(item) => s.(producer := HeadLoaded(item, s.head))
    case CheckRoom =>
      if Following(p.head) == s.tail then s.(producer := ProducerIdle)
      else s.(producer := RoomSeen(p.item, p.head))
    case StoreFrame =>
      s.(slots := s.slots[p.head := s.slots[p.head].(frame := p.item.frame)],
         producer := FrameStored(p.item, p.head))
    case StoreSequence =>
      s.(slots := s.slots[p.head := s.slots[p.head].(sequence := p.item.sequence)],
         producer := SequenceStored(p.item, p.head))
    case StoreGeneration =>
      s.(slots := s.slots[p.head := s.slots[p.head].(generation := p.item.generation)],
         producer := SlotStored(p.item, p.head))
    case PublishHead =>
      s.(head := Following(p.head), producer := ProducerIdle, pushed := s.pushed + [p.item])
    case LoadTail => s.(consumer := TailLoaded(s.tail))
    case CheckItem =>
      if c.tail == s.head then s.(consumer := ConsumerIdle) else s.(consumer := ItemSeen(c.tail))
    case ReadFrame => s.(consumer := FrameLoaded(c.tail, s.slots[c.tail].frame))
    case ReadSequence => s.(consumer := SequenceLoaded(c.tail, c.frame, s.slots[c.tail].sequence))
    case ReadGeneration =>
      s.(consumer := SlotLoaded(c.tail, QueuedCommand(c.frame, c.sequence, s.slots[c.tail].generation)))
    case PublishTail =>
      s.(tail := Following(c.tail), consumer := ConsumerIdle, popped := s.popped + [c.item])
  }

  ghost function Pending(s: Ring): int { |s.pushed| - |s.popped| }

  ghost predicate Writing(s: Ring) {
    s.producer.RoomSeen? || s.producer.FrameStored? || s.producer.SequenceStored? || s.producer.SlotStored?
  }

  ghost predicate Reading(s: Ring) {
    s.consumer.ItemSeen? || s.consumer.FrameLoaded? || s.consumer.SequenceLoaded? || s.consumer.SlotLoaded?
  }

  ghost predicate QueueInv(s: Ring) {
    && WellFormed(s)
    && s.head == |s.pushed| % STORAGE_SIZE && s.tail == |s.popped| % STORAGE_SIZE
    && 0 <= Pending(s) <= QUEUE_CAPACITY
    && s.popped <= s.pushed
    && forall k: nat | |s.popped| <= k < |s.pushed| :: s.slots[k % STORAGE_SIZE] == s.pushed[k]
  }

  ghost predicate ProducerInv(s: Ring)
    requires WellFormed(s)
  {
    var p := s.producer;
    && (!p.ProducerIdle? ==> p.head == s.head)
    && (Writing(s) ==> Pending(s) < QUEUE_CAPACITY)
    && (p.FrameStored? || p.SequenceStored? || p.SlotStored? ==> s.slots[p.head].frame == p.item.frame)
    && (p.SequenceStored? || p.SlotStored? ==> s.slots[p.head].sequence == p.item.sequence)
    && (p.SlotStored? ==> s.slots[p.head].generation == p.item.generation)
  }

  ghost predicate ConsumerInv(s: Ring)
    requires WellFormed(s)
  {
    var c := s.consumer;
    && (!c.ConsumerIdle? ==> c.tail == s.tail)
    && (Reading(s) ==> Pending(s) > 0)
    && (c.FrameLoaded? || c.SequenceLoaded? ==> c.frame == s.slots[c.tail].frame)
    && (c.SequenceLoaded? ==> c.sequence == s.slots[c.tail].sequence)
    && (c.SlotLoaded? ==> c.item == s.slots[c.tail])
  }

  ghost predicate Inv(s: Ring) {
    QueueInv(s) && ProducerInv(s) && ConsumerInv(s)
  }

  lemma DistinctSlots(a: nat, b: nat)
    requires a < b < a + STORAGE_SIZE
    ensures a % STORAGE_SIZE != b % STORAGE_SIZE
  {}

  /** The slot being written holds no pending command. */
  lemma WrittenSlotIsFree(s: Ring, k: nat)
    requires Inv(s) && Writing(s) && |s.popped| <= k < |s.pushed|
    ensures s.producer.head != k % STORAGE_SIZE
  {
    DistinctSlots(k, |s.pushed|);
  }

  lemma StoreKeepsInv(s: Ring, step: Step)
    requires Inv(s) && Enabled(s, step)
    requires step.StoreFrame? || step.StoreSequence? || step.StoreGeneration?
    ensures Inv(Apply(s, step))
  {
    var t := Apply(s, step);
    forall k: nat | |t.popped| <= k < |t.pushed| ensures t.slots[k % STORAGE_SIZE] == t.pushed[k] {
      WrittenSlotIsFree(s, k);
    }
    if Reading(s) {
      WrittenSlotIsFree(s, |s.popped|);
    }
  }

  lemma NextIndex(n: nat)
    ensures Following(n % STORAGE_SIZE) == (n + 1) % STORAGE_SIZE
  {}

  lemma PublishHeadKeepsInv(s: Ring)
    requires Inv(s) && Enabled(s, PublishHead)
    ensures Inv(Apply(s, PublishHead))
  {
    NextIndex(|s.pushed|);
  }

  lemma PublishTailKeepsInv(s: Ring)
    requires Inv(s) && Enabled(s, PublishTail)
    ensures Inv(Apply(s, PublishTail))
  {
    OldestIsAtTail(s);
    NextIndex(|s.popped|);
    var t := Apply(s, PublishTail);
    assert forall k: nat | |t.popped| <= k < |t.pushed| :: t.slots[k % STORAGE_SIZE] == t.pushed[k];
    assert t.popped == s.popped + [s.pushed[|s.popped|]];
  }

  lemma OldestIsAtTail(s: Ring)
    requires Inv(s) && s.consumer.SlotLoaded?
    ensures s.consumer.item == s.pushed[|s.popped|]
  {
    assert s.slots[|s.popped| % STORAGE_SIZE] == s.pushed[|s.popped|];
  }

  lemma StepKeepsInv(s: Ring, step: Step)
    requires Inv(s) && Enabled(s, step)
    ensures Inv(Apply(s, step))
  {
    match step
    case StoreFrame => StoreKeepsInv(s, step);
    case StoreSequence => StoreKeepsInv(s, step);
    case StoreGeneration => StoreKeepsInv(s, step);
    case PublishHead => PublishHeadKeepsInv(s);
    case PublishTail => PublishTailKeepsInv(s);
    case CheckRoom => RoomIffNotFull(s);
    case CheckItem => ItemIffNotEmpty(s);
    case _ =>
  }

  lemma RoomIffNotFull(s: Ring)
    requires Inv(s) && s.producer.HeadLoaded?
    ensures Following(s.producer.head) == s.tail <==> Pending(s) == QUEUE_CAPACITY
  {
    NextIndex(|s.pushed|);
    if Pending(s) == QUEUE_CAPACITY {
      assert |s.pushed| + 1 == |s.popped| + STORAGE_SIZE;
    } else {
      DistinctSlots(|s.popped|, |s.pushed| + 1);
    }
  }

  lemma ItemIffNotEmpty(s: Ring)
    requires Inv(s) && s.consumer.TailLoaded?
    ensures s.consumer.tail == s.head <==> Pending(s) == 0
  {
    if Pending(s) != 0 {
      DistinctSlots(|s.popped|, |s.pushed|);
    }
  }

  // ----- runs -----

  ghost predicate Run(states: seq<Ring>, steps: seq<Step>) {
    && |states| == |steps| + 1
    && Init(states[0])
    && forall i | 0 <= i < |steps| ::
        && WellFormed(states[i]) && Enabled(states[i], steps[i])
        && states[i + 1] == Apply(states[i], steps[i])
  }

  lemma {:induction false} RunKeepsInv(states: seq<Ring>, steps: seq<Step>, i: nat)
    requires Run(states, steps) && i < |states|
    ensures Inv(states[i])
  {
    if i > 0 {
      RunKeepsInv(states, steps, i - 1);
      var s, step := states[i - 1], steps[i - 1];
      assert states[i - 1 + 1] == Apply(s, step);
      StepKeepsInv(s, step);
    }
  }

  /** In every interleaving: what was popped is a prefix of what was pushed, untorn and in
      order; at most four commands are pending; and the two threads are never inside the same slot. */
  lemma RingIsABoundedFifo(states: seq<Ring>, steps: seq<Step>, i: nat)
    requires Run(states, steps) && i < |states|
    ensures states[i].popped <= states[i].pushed
    ensures |states[i].pushed| - |states[i].popped| <= QUEUE_CAPACITY
    ensures Writing(states[i]) && Reading(states[i]) ==> states[i].producer.head != states[i].consumer.tail
  {
    RunKeepsInv(states, steps, i);
    if Writing(states[i]) && Reading(states[i]) {
      WrittenSlotIsFree(states[i], |states[i].popped|);
    }
  }

  /** A push fails exactly when four commands were pending at its load of the tail, a pop
      exactly when none was at its load of the head. */
  lemma FailuresAreExact(states: seq<Ring>, steps: seq<Step>, i: nat)
    requires Run(states, steps) && i < |steps|
    ensures steps[i].CheckRoom? ==>
      (states[i + 1].producer.ProducerIdle? <==> |states[i].pushed| - |states[i].popped| == QUEUE_CAPACITY)
    ensures steps[i].CheckItem? ==>
      (states[i + 1].consumer.ConsumerIdle? <==> states[i].pushed == states[i].popped)
  {
    RunKeepsInv(states, steps, i);
    assert states[i + 1] == Apply(states[i], steps[i]);
    if steps[i].CheckRoom? {
      RoomIffNotFull(states[i]);
    } else if steps[i].CheckItem? {
      ItemIffNotEmpty(states[i]);
    }
  }

  ghost function Queue(s: Ring): seq<QueuedCommand>
    requires |s.popped| <= |s.pushed|
  {
    s.pushed[|s.popped|..]
  }

  /** Each single step is one step of an atomic queue: publishing the head enqueues, publishing
      the tail dequeues the very command the call returns, and every other step changes nothing. */
  lemma EveryStepIsAQueueStep(states: seq<Ring>, steps: seq<Step>, i: nat)
    requires Run(states, steps) && i < |steps|
    ensures |states[i].popped| <= |states[i].pushed| && |states[i + 1].popped| <= |states[i + 1].pushed|
    ensures var before, after := Queue(states[i]), Queue(states[i + 1]);
      match steps[i]
      case PublishHead => |before| < QUEUE_CAPACITY && after == before + [states[i].producer.item]
      case PublishTail => before == [states[i].consumer.item] + after
      case _ => after == before
  {
    RunKeepsInv(states, steps, i);
    RunKeepsInv(states, steps, i + 1);
    assert states[i + 1] == Apply(states[i], steps[i]);
    if steps[i].PublishTail? {
      OldestIsAtTail(states[i]);
    }
  }
}
