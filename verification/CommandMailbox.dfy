/** `CommandMailbox` of `command_queue.cpp`: a normal queue, a power-off queue with priority, a
    per-session latch, sequence numbers, and a 64-slot history of completed sequences. The
    functions on `Mailbox` say what each call does to the whole mailbox; the class does it. */
module CommandMailbox {
  import opened Crc16
  import opened CommandQueue

  const HISTORY_SIZE: nat := 64
  // No sequence is ever handed out once the 64-bit counter has reached its maximum.
  const MAX_SEQUENCE: nat := 0xFFFF_FFFF_FFFF_FFFF

  datatype Option<+T> = None | Some(value: T)

  datatype Mailbox = Mailbox(
    normal: seq<QueuedCommand>, powerOff: seq<QueuedCommand>,
    next: nat, history: seq<nat>, latch: nat)
  {
    ghost predicate WellFormed() {
      && |normal| <= QUEUE_CAPACITY && |powerOff| <= QUEUE_CAPACITY
      && 1 <= next <= MAX_SEQUENCE && |history| == HISTORY_SIZE
    }
  }

  datatype Taken = Taken(item: QueuedCommand, isPowerOff: bool)

  function Allocate(m: Mailbox): (Mailbox, nat) {
    if m.next >= MAX_SEQUENCE then (m, 0) else (m.(next := m.next + 1), m.next)
  }

  function PushNormal(m: Mailbox, frame: seq<Byte>, generation: nat): (Mailbox, nat) {
    if generation == 0 || m.latch == generation then (m, 0)
    else
      var (a, sequence) := Allocate(m);
      if sequence == 0 || |a.normal| >= QUEUE_CAPACITY then (a, 0)
      else (a.(normal := a.normal + [QueuedCommand(frame, sequence, generation)]), sequence)
  }

  function PushPowerOff(m: Mailbox, frame: seq<Byte>, generation: nat): (Mailbox, nat) {
    if generation == 0 then (m, 0)
    else
      var (a, sequence) := Allocate(m.(latch := generation));
      if sequence == 0 || |a.powerOff| >= QUEUE_CAPACITY then (a, 0)
      else (a.(powerOff := a.powerOff + [QueuedCommand(frame, sequence, generation)]), sequence)
  }

  /** Drops entries of other sessions; the rest starts with this session's oldest entry. */
  function FromSession(queue: seq<QueuedCommand>, generation: nat): seq<QueuedCommand> {
    if queue == [] || queue[0].generation == generation then queue
    else FromSession(queue[1..], generation)
  }

  function PopNext(m: Mailbox, generation: nat): (Mailbox, Option<Taken>) {
    var urgent := FromSession(m.powerOff, generation);
    if urgent != [] then (m.(powerOff := urgent[1..]), Some(Taken(urgent[0], true)))
    else if m.latch == generation then (m.(powerOff := []), None)
    else
      var waiting := FromSession(m.normal, generation);
      if waiting != [] then (m.(powerOff := [], normal := waiting[1..]), Some(Taken(waiting[0], false)))
      else (m.(powerOff := [], normal := []), None)
  }

  function Record(history: seq<nat>, sequence: nat): seq<nat>
    requires |history| == HISTORY_SIZE
  {
    if sequence == 0 then history else history[sequence % HISTORY_SIZE := sequence]
  }

  function SequenceCompleted(m: Mailbox, sequence: nat): bool
    requires |m.history| == HISTORY_SIZE
  {
    sequence != 0 && m.history[sequence % HISTORY_SIZE] == sequence
  }

  function Complete(m: Mailbox, sequence: nat): Mailbox
    requires |m.history| == HISTORY_SIZE
  {
    m.(history := Record(m.history, sequence))
  }

  /** The power-offs still queued for the session are equivalent to the completed one. */
  function RecordSession(history: seq<nat>, queue: seq<QueuedCommand>, generation: nat): (h: seq<nat>)
    requires |history| == HISTORY_SIZE
    ensures |h| == HISTORY_SIZE
    decreases queue
  {
    if queue == [] then history
    else
      var h := RecordSession(history, queue[..|queue| - 1], generation);
      var last := queue[|queue| - 1];
      if last.generation == generation then Record(h, last.sequence) else h
  }

  lemma RecordSessionNext(history: seq<nat>, queue: seq<QueuedCommand>, k: nat, generation: nat)
    requires |history| == HISTORY_SIZE && k < |queue|
    ensures RecordSession(history, queue[..k + 1], generation)
         == var h := RecordSession(history, queue[..k], generation);
            if queue[k].generation == generation then Record(h, queue[k].sequence) else h
  {
    assert queue[..k + 1][..k] == queue[..k];
  }

  function CompletePowerOff(m: Mailbox, sequence: nat, generation: nat): Mailbox
    requires |m.history| == HISTORY_SIZE
  {
    m.(normal := [], powerOff := [],
       history := RecordSession(Record(m.history, sequence), m.powerOff, generation),
       latch := if m.latch == generation then 0 else m.latch)
  }

  function Clear(m: Mailbox): Mailbox {
    m.(normal := [], powerOff := [], latch := 0)
  }

  method RecordIn(history: array<nat>, sequence: nat)
    requires history.Length == HISTORY_SIZE
    modifies history
    ensures history[..] == Record(old(history[..]), sequence)
  {
    if sequence != 0 {
      history[sequence % HISTORY_SIZE] := sequence;
    }
  }

  /** Empties the queue, recording this session's entries as completed. */
  method DrainSession(queue: CommandQueue, history: array<nat>, generation: nat)
    requires queue.Valid() && history.Length == HISTORY_SIZE
    modifies queue`tail, history
    ensures queue.Valid() && queue.Contents() == []
    ensures history[..] == RecordSession(old(history[..]), old(queue.Contents()), generation)
  {
    ghost var entries, before := queue.Contents(), history[..];
    ghost var k := 0;
    var found, item := queue.TryPop();
    while found
      invariant queue.Valid() && k <= |entries|
      invariant history[..] == RecordSession(before, entries[..k], generation)
      invariant if found then k < |entries| && item == entries[k] && queue.Contents() == entries[k + 1..]
                else k == |entries| && queue.Contents() == []
      decreases |entries| - k
    {
      RecordSessionNext(before, entries, k, generation);
      if item.generation == generation {
        RecordIn(history, item.sequence);
      }
      k := k + 1;
      found, item := queue.TryPop();
    }
    assert entries[..k] == entries;
  }

  class CommandMailbox {
    const normal: CommandQueue
    const powerOff: CommandQueue
    const completed: array<nat>
    var nextSequence: nat
    var emergencyGeneration: nat

    ghost predicate Valid()
      reads this, normal, powerOff
    {
      && normal != powerOff && normal.storage != powerOff.storage
      && normal.Valid() && powerOff.Valid()
      && completed.Length == HISTORY_SIZE
      && 1 <= nextSequence <= MAX_SEQUENCE
    }

    ghost function Model(): (m: Mailbox)
      requires Valid()
      reads this, normal, powerOff, normal.storage, powerOff.storage, completed
      ensures m.WellFormed()
    {
      Mailbox(normal.Contents(), powerOff.Contents(), nextSequence, completed[..], emergencyGeneration)
    }

    constructor ()
      ensures Valid() && fresh(normal) && fresh(powerOff)
      ensures fresh(normal.storage) && fresh(powerOff.storage) && fresh(completed)
      ensures Model() == Mailbox([], [], 1, seq(HISTORY_SIZE, _ => 0), 0)
    {
      normal := new CommandQueue();
      powerOff := new CommandQueue();
      completed := new nat[HISTORY_SIZE](_ => 0);
      nextSequence, emergencyGeneration := 1, 0;
    }

    method AllocateSequence() returns (sequence: nat)
      requires Valid()
      modifies this`nextSequence
      ensures Valid()
      ensures (Model(), sequence) == Allocate(old(Model()))
    {
      sequence := nextSequence;
      if sequence == MAX_SEQUENCE {
        return 0;
      }
      nextSequence := sequence + 1;
    }

    method TryPushNormal(frame: seq<Byte>, generation: nat) returns (sequence: nat)
      requires Valid()
      modifies this`nextSequence, normal, normal.storage
      ensures Valid()
      ensures (Model(), sequence) == PushNormal(old(Model()), frame, generation)
    {
      if generation == 0 || emergencyGeneration == generation {
        return 0;
      }
      sequence := AllocateSequence();
      if sequence == 0 {
        return 0;
      }
      var pushed := normal.TryPush(frame, sequence, generation);
      if !pushed {
        return 0;
      }
    }

    method TryPushPowerOff(frame: seq<Byte>, generation: nat) returns (sequence: nat)
      requires Valid()
      modifies this`nextSequence, this`emergencyGeneration, powerOff, powerOff.storage
      ensures Valid()
      ensures (Model(), sequence) == PushPowerOff(old(Model()), frame, generation)
    {
      if generation == 0 {
        return 0;
      }
      emergencyGeneration := generation;
      sequence := AllocateSequence();
      if sequence != 0 {
        var pushed := powerOff.TryPush(frame, sequence, generation);
        if pushed {
          return sequence;
        }
      }
      return 0;
    }

    method TryPopNext(generation: nat) returns (found: bool, taken: Taken)
      requires Valid()
      modifies normal, powerOff
      ensures Valid()
      ensures (Model(), if found then Some(taken) else None) == PopNext(old(Model()), generation)
    {
      var item;
      found, item := PopFromSession(powerOff, generation);
      taken := Taken(item, true);
      if found || emergencyGeneration == generation {
        return;
      }
      found, item := PopFromSession(normal, generation);
      taken := Taken(item, false);
    }

    method PopFromSession(queue: CommandQueue, generation: nat) returns (found: bool, item: QueuedCommand)
      requires queue.Valid()
      modifies queue`tail
      ensures queue.Valid()
      ensures var rest := FromSession(old(queue.Contents()), generation);
        && (found <==> rest != [])
        && (found ==> item == rest[0] && queue.Contents() == rest[1..])
        && (!found ==> queue.Contents() == [])
    {
      found, item := queue.TryPop();
      ghost var before := old(queue.Contents());
      while found && item.generation != generation
        invariant queue.Valid()
        invariant FromSession(before, generation) == FromSession(old(queue.Contents()), generation)
        invariant found <==> before != []
        invariant found ==> item == before[0] && queue.Contents() == before[1..]
        invariant !found ==> queue.Contents() == []
        decreases |before|
      {
        before := before[1..];
        found, item := queue.TryPop();
      }
    }

    method CompleteSequence(sequence: nat)
      requires Valid()
      modifies completed
      ensures Valid()
      ensures Model() == Complete(old(Model()), sequence)
    {
      RecordIn(completed, sequence);
    }

    method IsSequenceCompleted(sequence: nat) returns (done: bool)
      requires Valid()
      ensures done <==> SequenceCompleted(Model(), sequence)
    {
      done := sequence != 0 && completed[sequence % HISTORY_SIZE] == sequence;
    }

    method CompletePowerOffFromConsumer(sequence: nat, generation: nat)
      requires Valid()
      modifies this`emergencyGeneration, normal`tail, powerOff`tail, completed
      ensures Valid()
      ensures Model() == CompletePowerOff(old(Model()), sequence, generation)
    {
      CompleteSequence(sequence);
      normal.ClearFromConsumer();
      DrainSession(powerOff, completed, generation);
      if emergencyGeneration == generation {
        emergencyGeneration := 0;
      }
    }

    method ClearFromConsumer()
      requires Valid()
      modifies this`emergencyGeneration, normal, powerOff
      ensures Valid()
      ensures Model() == Clear(old(Model()))
    {
      powerOff.ClearFromConsumer();
      normal.ClearFromConsumer();
      emergencyGeneration := 0;
    }
  }
}
