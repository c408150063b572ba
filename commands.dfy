// The command table and the playing queue: fixed-capacity arrays allocated
// once, with a queue of command indices kept free of duplicates by a linear
// scan on insertion and compacted in place on removal.

module Commands {
  import opened Envelope
  import opened Queues

  /** A zero-filled table entry. */
  const ZERO_COMMAND := Command(0, 0.0, Finite(0.0))

  class CommandState {
    const maxCommands: int
    var allCommandsSize: int
    const allCommands: array<Command>
    var queueSize: int
    const playingQueue: array<int>

    /** Both arrays have the table's capacity; the queue prefix holds distinct
      * indices into the table. */
    ghost predicate Valid()
      reads this, playingQueue
    {
      allCommands.Length == maxCommands && playingQueue.Length == maxCommands &&
      0 <= allCommandsSize <= maxCommands &&
      0 <= queueSize <= maxCommands &&
      ValidIndices(playingQueue[..queueSize], maxCommands) &&
      Distinct(playingQueue[..queueSize])
    }

    /** The queue's contents, in order. */
    ghost function Queue(): seq<int>
      reads this, playingQueue
      requires 0 <= queueSize <= playingQueue.Length
    {
      playingQueue[..queueSize]
    }

    /** Allocates both arrays at full capacity, zero-filled, with an empty
      * table and an empty queue. */
    constructor (maxCommands: nat)
      ensures Valid() && fresh(allCommands) && fresh(playingQueue)
      ensures this.maxCommands == maxCommands && allCommandsSize == 0 && Queue() == []
      ensures forall i :: 0 <= i < maxCommands ==> allCommands[i] == ZERO_COMMAND
      ensures forall i :: 0 <= i < maxCommands ==> playingQueue[i] == 0
    {
      this.maxCommands := maxCommands;
      allCommandsSize := 0;
      allCommands := new Command[maxCommands](_ => ZERO_COMMAND);
      queueSize := 0;
      playingQueue := new int[maxCommands](_ => 0);
    }

    /** The scan both insertion and removal start with: the first queue
      * position holding commandIndex, or -1. */
    method Find(commandIndex: int) returns (found: int)
      requires Valid()
      ensures found == IndexOf(Queue(), commandIndex)
      ensures found == -1 <==> commandIndex !in Queue()
      ensures 0 <= found ==> found < queueSize && playingQueue[found] == commandIndex
    {
      found := -1;
      for i := 0 to queueSize
        invariant commandIndex !in playingQueue[..i]
      {
        if playingQueue[i] == commandIndex {
          found := i;
          assert playingQueue[..queueSize][..i] == playingQueue[..i];
          break;
        }
        assert playingQueue[..i + 1] == playingQueue[..i] + [playingQueue[i]];
      }
      assert playingQueue[..queueSize] == Queue();
    }

    /** Appends commandIndex unless it is already queued; the queue stays free
      * of duplicates and, by QueueCapacity, never overflows. */
    method PlayingQueueInsert(commandIndex: int)
      requires Valid() && 0 <= commandIndex < maxCommands
      modifies this`queueSize, playingQueue
      ensures Valid()
      ensures Queue() == Inserted(old(Queue()), commandIndex)
      ensures commandIndex in old(Queue()) ==> Queue() == old(Queue())
      ensures commandIndex !in old(Queue()) ==> Queue() == old(Queue()) + [commandIndex]
    {
      var found := Find(commandIndex);
      if found == -1 {
        QueueCapacity(Queue(), maxCommands, commandIndex);
        playingQueue[queueSize] := commandIndex;
        queueSize := queueSize + 1;
        assert Queue() == old(Queue()) + [commandIndex];
        InsertedFacts(old(Queue()), commandIndex);
      }
    }

    /** Removes commandIndex if it is queued, shifting the entries after it down
      * by one position; otherwise changes nothing. */
    method PlayingQueueRemove(commandIndex: int)
      requires Valid()
      modifies this`queueSize, playingQueue
      ensures Valid()
      ensures Queue() == Removed(old(Queue()), commandIndex)
      ensures commandIndex !in old(Queue()) ==> Queue() == old(Queue())
      ensures commandIndex in old(Queue()) ==> |Queue()| == |old(Queue())| - 1 && commandIndex !in Queue()
    {
      ghost var q0 := Queue();
      var found := Find(commandIndex);
      if found != -1 {
        CutAt(found);
        RemovedFacts(q0, commandIndex);
      }
    }

    /** The compaction step of removal: the entries after position found move
      * down by one and the queue shrinks by one. */
    method CutAt(found: int)
      requires Valid() && 0 <= found < queueSize
      modifies this`queueSize, playingQueue
      ensures queueSize == old(queueSize) - 1
      ensures Queue() == old(Queue())[..found] + old(Queue())[found + 1..]
      ensures ValidIndices(Queue(), maxCommands)
    {
      ghost var q0 := Queue();
      forall j | found <= j < queueSize - 1 {
        playingQueue[j] := playingQueue[j + 1];
      }
      queueSize := queueSize - 1;
      ghost var r := q0[..found] + q0[found + 1..];
      forall i | 0 <= i < queueSize
        ensures playingQueue[i] == r[i] && 0 <= r[i] < maxCommands
      {
        assert r[i] == q0[if i < found then i else i + 1];
      }
      assert Queue() == r;
    }
  }
}
