/** The fixed-size ring of `command_queue.cpp`, called from one thread at a time. The
    interleavings of its two threads are in `SpscRing`. */
module CommandQueue {
  import opened Crc16

  const QUEUE_CAPACITY: nat := 4
  const STORAGE_SIZE: nat := QUEUE_CAPACITY + 1

  datatype QueuedCommand = QueuedCommand(frame: seq<Byte>, sequence: nat, generation: nat)

  const EMPTY_SLOT := QueuedCommand([], 0, 0)

  /** The queued commands: the slots from `tail` up to `head`, around the end of the storage. */
  ghost function Window(slots: seq<QueuedCommand>, tail: nat, head: nat): (s: seq<QueuedCommand>)
    requires |slots| == STORAGE_SIZE && head < STORAGE_SIZE && tail < STORAGE_SIZE
    ensures |s| <= QUEUE_CAPACITY
  {
    if tail <= head then slots[tail..head] else slots[tail..] + slots[..head]
  }

  function Following(index: nat): nat { if index + 1 < STORAGE_SIZE then index + 1 else 0 }

  lemma FollowingIsModular(index: nat)
    requires index < STORAGE_SIZE
    ensures (index + 1) % STORAGE_SIZE == Following(index) < STORAGE_SIZE
  {}

  lemma WindowPush(slots: seq<QueuedCommand>, tail: nat, head: nat, item: QueuedCommand)
    requires |slots| == STORAGE_SIZE && head < STORAGE_SIZE && tail < STORAGE_SIZE
    ensures Following(head) == tail <==> |Window(slots, tail, head)| == QUEUE_CAPACITY
    ensures Following(head) != tail ==>
      Window(slots[head := item], tail, Following(head)) == Window(slots, tail, head) + [item]
  {}

  lemma WindowPop(slots: seq<QueuedCommand>, tail: nat, head: nat)
    requires |slots| == STORAGE_SIZE && head < STORAGE_SIZE && tail < STORAGE_SIZE
    ensures tail == head <==> Window(slots, tail, head) == []
    ensures tail != head ==>
      && Window(slots, tail, head)[0] == slots[tail]
      && Window(slots, Following(tail), head) == Window(slots, tail, head)[1..]
  {}

  class CommandQueue {
    const storage: array<QueuedCommand>
    var head: nat
    var tail: nat

    ghost predicate Valid()
      reads this
    {
      storage.Length == STORAGE_SIZE && head < STORAGE_SIZE && tail < STORAGE_SIZE
    }

    ghost function Contents(): (s: seq<QueuedCommand>)
      requires Valid()
      reads this, storage
      ensures |s| <= QUEUE_CAPACITY
    {
      Window(storage[..], tail, head)
    }

    constructor ()
      ensures Valid() && Contents() == [] && fresh(storage)
    {
      storage := new QueuedCommand[STORAGE_SIZE](_ => EMPTY_SLOT);
      head, tail := 0, 0;
    }

    method TryPush(frame: seq<Byte>, sequence: nat, generation: nat) returns (ok: bool)
      requires Valid()
      modifies this`head, storage
      ensures Valid()
      ensures ok <==> |old(Contents())| < QUEUE_CAPACITY
      ensures Contents() ==
        if ok then old(Contents()) + [QueuedCommand(frame, sequence, generation)] else old(Contents())
    {
      FollowingIsModular(head);
      WindowPush(storage[..], tail, head, QueuedCommand(frame, sequence, generation));
      ghost var slots := storage[..];
      var next := (head + 1) % STORAGE_SIZE;
      if next == tail {
        return false;
      }
      storage[head] := QueuedCommand(frame, sequence, generation);
      assert storage[..] == slots[head := QueuedCommand(frame, sequence, generation)];
      head := next;
      return true;
    }

    method TryPop() returns (found: bool, item: QueuedCommand)
      requires Valid()
      modifies this`tail
      ensures Valid()
      ensures found <==> old(Contents()) != []
      ensures found ==> item == old(Contents())[0] && Contents() == old(Contents())[1..]
      ensures !found ==> Contents() == []
    {
      FollowingIsModular(tail);
      WindowPop(storage[..], tail, head);
      if tail == head {
        return false, EMPTY_SLOT;
      }
      item := storage[tail];
      tail := (tail + 1) % STORAGE_SIZE;
      return true, item;
    }

    method ClearFromConsumer()
      requires Valid()
      modifies this`tail
      ensures Valid() && Contents() == []
    {
      var found, discarded := TryPop();
      while found
        invariant Valid()
        invariant !found ==> Contents() == []
        decreases |Contents()|, found
      {
        found, discarded := TryPop();
      }
    }
  }
}
