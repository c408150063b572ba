// The synthesizer's engine state: the command table and playing queue, the
// sample clock and the scancode map, with the audio callback that renders and
// prunes, the keyboard map initialisation, and the key-down/key-up handlers.

module Synth {
  import opened Envelope
  import opened Clock
  import opened Queues
  import opened Mixing
  import opened Commands

  /** Entries in the scancode to command-index map. */
  const KEY_MAP_SIZE: int := 1024

  /** A block with every sample set to 0 in both channels. */
  const SILENCE := Frame(0.0, 0.0)

  /** A zero-terminated list of distinct scancodes, each a valid map index. */
  predicate KeySequence(keys: seq<int>)
  {
    |keys| > 0 && keys[|keys| - 1] == 0 &&
    (forall i :: 0 <= i < |keys| - 1 ==> 0 < keys[i] < KEY_MAP_SIZE) &&
    (forall i, j :: 0 <= i < j < |keys| - 1 ==> keys[i] != keys[j])
  }

  /** Sets every frame of the block to silence. */
  method ZeroStream(stream: array<Frame>)
    modifies stream
    ensures forall s :: 0 <= s < stream.Length ==> stream[s] == SILENCE
  {
    for i := 0 to stream.Length
      invariant forall s :: 0 <= s < i ==> stream[s] == SILENCE
    {
      stream[i] := Frame(0.0, stream[i].right);
      stream[i] := Frame(stream[i].left, 0.0);
    }
  }

  class VoiceEngine {
    const state: CommandState
    var sampleCount: int
    const keyMap: array<int>
    /** The oscillator sin(TAU * freq * t) for a note, left uninterpreted. */
    const oscillator: (int, real) -> real

    /** The queue is well formed, the clock is non-negative, every mapped
      * scancode names a table entry, and every entry's timestamps were recorded
      * no later than now, with a finite release no earlier than the press. */
    ghost predicate Valid()
      reads this, state, state.playingQueue, state.allCommands, keyMap
    {
      state.Valid() && 0 <= sampleCount &&
      keyMap.Length == KEY_MAP_SIZE && keyMap != state.playingQueue &&
      (forall sc :: 0 <= sc < KEY_MAP_SIZE ==> -1 <= keyMap[sc] < state.maxCommands) &&
      (forall i :: 0 <= i < state.allCommands.Length ==> ConsistentAt(state.allCommands[i], GetTime(sampleCount)))
    }

    /** Program start: the zero-initialised globals and a command state of the
      * given capacity. */
    constructor (maxCommands: nat, oscillator: (int, real) -> real)
      requires 0 < maxCommands
      ensures Valid()
      ensures fresh(state) && fresh(state.allCommands) && fresh(state.playingQueue) && fresh(keyMap)
      ensures state.maxCommands == maxCommands && state.allCommandsSize == 0 && state.Queue() == []
      ensures sampleCount == 0 && this.oscillator == oscillator
      ensures forall sc :: 0 <= sc < KEY_MAP_SIZE ==> keyMap[sc] == 0
      ensures forall i :: 0 <= i < maxCommands ==> state.allCommands[i] == ZERO_COMMAND
      ensures forall i :: 0 <= i < maxCommands ==> state.playingQueue[i] == 0
    {
      state := new CommandState(maxCommands);
      sampleCount := 0;
      keyMap := new int[KEY_MAP_SIZE](_ => 0);
      this.oscillator := oscillator;
    }

    // -------------------------------------------------------------------------
    // Sample clock

    /** Moves the clock forward by a number of samples. */
    method TimeAdvanceBySamples(samples: int)
      modifies this`sampleCount
      ensures sampleCount == old(sampleCount) + samples
      ensures GetTime(sampleCount) == old(GetTimeSampleOffset(sampleCount, samples))
      ensures old(Valid()) && 0 <= samples ==> Valid()
    {
      ghost var before := GetTime(sampleCount);
      sampleCount := sampleCount + samples;
      if old(Valid()) && 0 <= samples {
        GetTimeMonotone(old(sampleCount), sampleCount);
        forall i | 0 <= i < state.allCommands.Length
          ensures ConsistentAt(state.allCommands[i], GetTime(sampleCount))
        {
          assert ConsistentAt(state.allCommands[i], before);
        }
      }
    }

    // -------------------------------------------------------------------------
    // Audio callback

    /** Adds every queued command's contribution to both channels of every
      * sample of a silent block. */
    method MixQueue(stream: array<Frame>)
      requires state.Valid()
      requires forall s :: 0 <= s < stream.Length ==> stream[s] == SILENCE
      modifies stream
      ensures forall s :: 0 <= s < stream.Length ==>
        var m := Mix(oscillator, DEFAULT_ADSR, state.Queue(), state.allCommands[..], GetTimeSampleOffset(sampleCount, s));
        stream[s] == Frame(m, m)
    {
      ghost var queue, table := state.Queue(), state.allCommands[..];
      for q := 0 to state.queueSize
        invariant forall s :: 0 <= s < stream.Length ==>
          var m := Mix(oscillator, DEFAULT_ADSR, queue[..q], table, GetTimeSampleOffset(sampleCount, s));
          stream[s] == Frame(m, m)
      {
        var commandIndex := state.playingQueue[q];
        var command := state.allCommands[commandIndex];
        assert queue[..q + 1] == queue[..q] + [commandIndex];
        AddVoice(stream, command, queue[..q], table, commandIndex);
      }
      assert queue[..state.queueSize] == queue;
    }

    /** The inner loop of the mix: adds one command's contribution to both
      * channels of every sample, so that a block holding the mix of the
      * entries done comes to hold the mix of done followed by index. */
    method AddVoice(stream: array<Frame>, command: Command, ghost done: seq<int>, ghost table: seq<Command>, ghost index: int)
      requires ValidIndices(done, |table|) && 0 <= index < |table| && table[index] == command
      requires forall s :: 0 <= s < stream.Length ==>
        var m := Mix(oscillator, DEFAULT_ADSR, done, table, GetTimeSampleOffset(sampleCount, s));
        stream[s] == Frame(m, m)
      modifies stream
      ensures ValidIndices(done + [index], |table|)
      ensures forall s :: 0 <= s < stream.Length ==>
        var m := Mix(oscillator, DEFAULT_ADSR, done + [index], table, GetTimeSampleOffset(sampleCount, s));
        stream[s] == Frame(m, m)
    {
      ghost var before := stream[..];
      for s := 0 to stream.Length
        invariant forall s' :: 0 <= s' < s ==>
          var v := Contribution(oscillator, DEFAULT_ADSR, command, GetTimeSampleOffset(sampleCount, s'));
          stream[s'] == Frame(before[s'].left + v, before[s'].right + v)
        invariant forall s' :: s <= s' < stream.Length ==> stream[s'] == before[s']
      {
        var t := GetTimeSampleOffset(sampleCount, s);
        var v := Contribution(oscillator, DEFAULT_ADSR, command, t);
        stream[s] := Frame(stream[s].left + v, stream[s].right + v);
      }
      MixPush(oscillator, DEFAULT_ADSR, done, index, table, 0.0);
      forall s | 0 <= s < stream.Length
        ensures var m := Mix(oscillator, DEFAULT_ADSR, done + [index], table, GetTimeSampleOffset(sampleCount, s));
                stream[s] == Frame(m, m)
      {
        MixPush(oscillator, DEFAULT_ADSR, done, index, table, GetTimeSampleOffset(sampleCount, s));
      }
    }

    /** Removes from the queue, in place and in one pass, every command that is
      * no longer playing at the current time. After a removal the scan index is
      * stepped back so that the entry shifted into the vacated slot is examined
      * too. */
    method PruneQueue()
      requires Valid()
      modifies state`queueSize, state.playingQueue
      ensures Valid()
      ensures state.Queue() == Playing(DEFAULT_ADSR, old(state.Queue()), state.allCommands[..], GetTime(sampleCount))
    {
      var time := GetTime(sampleCount);
      ghost var orig, table := state.Queue(), state.allCommands[..];
      ghost var k := 0;
      var q := 0;
      while q < state.queueSize
        invariant Scanning(q, time, orig, table, k)
        decreases |orig| - k
      {
        q := PruneEntry(q, time, orig, table, k);
        k := k + 1;
      }
      PruneScanComplete(DEFAULT_ADSR, orig, table, time);
    }

    /** The state of the pruning loop: of the queue orig that the pass started
      * from, the first k entries are decided, the queue is what the first k
      * steps of the scan leave, and the scan position q is where orig[k] now
      * sits. */
    ghost predicate Scanning(q: int, time: real, orig: seq<int>, table: seq<Command>, k: int)
      reads this, state, state.playingQueue, state.allCommands, keyMap
    {
      Valid() && table == state.allCommands[..] &&
      ValidIndices(orig, |table|) && Distinct(orig) && 0 <= k <= |orig| &&
      state.Queue() == PruneScan(DEFAULT_ADSR, orig, table, time, k) &&
      q == state.queueSize - (|orig| - k)
    }

    /** One pass of the pruning loop at scan position q, which holds orig[k]:
      * the entry is kept and the scan moves on, or it is removed and the scan
      * stays at q, where the next entry now sits. */
    method PruneEntry(q: int, time: real, ghost orig: seq<int>, ghost table: seq<Command>, ghost k: int) returns (next: int)
      requires Scanning(q, time, orig, table, k) && k < |orig|
      modifies state`queueSize, state.playingQueue
      ensures Scanning(next, time, orig, table, k + 1)
    {
      PruneScanState(DEFAULT_ADSR, orig, table, time, k);
      ghost var before := state.Queue();
      var commandIndex := state.playingQueue[q];
      assert before[q] == orig[k];
      var command := state.allCommands[commandIndex];
      if IsPlaying(DEFAULT_ADSR, command, time) {
        next := q + 1;
      } else {
        state.PlayingQueueRemove(commandIndex);
        next := q; // the next entry now sits at q
      }
    }

    /** Renders one block: silence, the mix of the queued commands at the
      * block's sample times, a clock advance by the block length, and the
      * pruning of commands that stopped playing by the new time. */
    method AudioCallback(stream: array<Frame>)
      requires Valid()
      modifies stream, this`sampleCount, state`queueSize, state.playingQueue
      ensures Valid()
      ensures sampleCount == old(sampleCount) + stream.Length
      ensures forall s :: 0 <= s < stream.Length ==>
        var m := Mix(oscillator, DEFAULT_ADSR, old(state.Queue()), state.allCommands[..], GetTimeSampleOffset(old(sampleCount), s));
        stream[s] == Frame(m, m)
      ensures state.Queue() == Playing(DEFAULT_ADSR, old(state.Queue()), state.allCommands[..], GetTime(sampleCount))
      ensures forall x :: x in state.Queue() ==>
                (0 <= x < state.allCommands.Length && IsPlaying(DEFAULT_ADSR, state.allCommands[x], GetTime(sampleCount)))
      ensures forall x :: x in old(state.Queue()) && x !in state.Queue() ==>
                (0 <= x < state.allCommands.Length && SilentFrom(DEFAULT_ADSR, state.allCommands[x], GetTime(sampleCount)))
    {
      ghost var queue, table := state.Queue(), state.allCommands[..];
      ZeroStream(stream);
      MixQueue(stream);
      TimeAdvanceBySamples(stream.Length);
      PruneQueue();
      PlayingOutcome(DEFAULT_ADSR, queue, table, GetTime(sampleCount), state.Queue());
    }

    // -------------------------------------------------------------------------
    // Input

    /** Maps every listed scancode to its position in the list and every other
      * scancode to -1, and claims one fresh table entry per key, with note
      * i - 12 and both timestamps 0. */
    method KeyboardInputInit(keySequence: seq<int>)
      requires Valid() && KeySequence(keySequence)
      requires state.allCommandsSize + |keySequence| - 1 <= state.maxCommands
      modifies keyMap, state`allCommandsSize, state.allCommands
      ensures Valid()
      ensures forall i :: 0 <= i < |keySequence| - 1 ==> keyMap[keySequence[i]] == i
      ensures forall sc :: 0 <= sc < KEY_MAP_SIZE && sc !in keySequence[..|keySequence| - 1] ==> keyMap[sc] == -1
      ensures state.allCommandsSize == old(state.allCommandsSize) + |keySequence| - 1
      ensures forall j :: old(state.allCommandsSize) <= j < state.allCommandsSize ==>
                state.allCommands[j] == Command(j - old(state.allCommandsSize) - 12, 0.0, Finite(0.0))
      ensures forall j :: (0 <= j < old(state.allCommandsSize) || state.allCommandsSize <= j < state.allCommands.Length) ==>
                state.allCommands[j] == old(state.allCommands[j])
    {
      ClearKeyMap();
      var keyCount := MapKeySequence(keySequence);
      InitKeyCommands(keyCount);
    }

    /** The first loop of the initialisation: every scancode maps to -1. */
    method ClearKeyMap()
      modifies keyMap
      ensures forall sc :: 0 <= sc < keyMap.Length ==> keyMap[sc] == -1
    {
      for i := 0 to keyMap.Length
        invariant forall sc :: 0 <= sc < i ==> keyMap[sc] == -1
      {
        keyMap[i] := -1;
      }
    }

    /** The second loop: walks the zero-terminated key list, mapping each
      * scancode to its position, and counts the keys. */
    method MapKeySequence(keySequence: seq<int>) returns (keyCount: int)
      requires keyMap.Length == KEY_MAP_SIZE && KeySequence(keySequence)
      requires forall sc :: 0 <= sc < KEY_MAP_SIZE ==> keyMap[sc] == -1
      modifies keyMap
      ensures keyCount == |keySequence| - 1
      ensures forall i :: 0 <= i < keyCount ==> keyMap[keySequence[i]] == i
      ensures forall sc :: 0 <= sc < KEY_MAP_SIZE && sc !in keySequence[..|keySequence| - 1] ==> keyMap[sc] == -1
      ensures forall sc :: 0 <= sc < KEY_MAP_SIZE ==> -1 <= keyMap[sc] < keyCount
    {
      keyCount := 0;
      var i := 0;
      while keySequence[i] != 0
        invariant 0 <= i <= |keySequence| - 1 && keyCount == i
        invariant forall j :: 0 <= j < i ==> keyMap[keySequence[j]] == j
        invariant forall sc :: 0 <= sc < KEY_MAP_SIZE && sc !in keySequence[..i] ==> keyMap[sc] == -1
        invariant forall sc :: 0 <= sc < KEY_MAP_SIZE ==> -1 <= keyMap[sc] < i
        decreases |keySequence| - i
      {
        keyMap[keySequence[i]] := i;
        keyCount := keyCount + 1;
        assert keySequence[..i + 1] == keySequence[..i] + [keySequence[i]];
        i := i + 1;
      }
      assert keySequence[..i] == keySequence[..|keySequence| - 1];
    }

    /** The third loop: claims keyCount table entries after the ones in use,
      * entry base + i getting note i - 12 and both timestamps 0. */
    method InitKeyCommands(keyCount: int)
      requires 0 <= keyCount && 0 <= state.allCommandsSize
      requires state.allCommandsSize + keyCount <= state.allCommands.Length
      modifies state`allCommandsSize, state.allCommands
      ensures state.allCommandsSize == old(state.allCommandsSize) + keyCount
      ensures forall j :: old(state.allCommandsSize) <= j < state.allCommandsSize ==>
                state.allCommands[j] == Command(j - old(state.allCommandsSize) - 12, 0.0, Finite(0.0))
      ensures forall j :: (0 <= j < old(state.allCommandsSize) || state.allCommandsSize <= j < state.allCommands.Length) ==>
                state.allCommands[j] == old(state.allCommands[j])
    {
      var base := state.allCommandsSize;
      state.allCommandsSize := state.allCommandsSize + keyCount;
      for i := 0 to keyCount
        modifies state.allCommands
        invariant forall j :: base <= j < base + i ==> state.allCommands[j] == Command(j - base - 12, 0.0, Finite(0.0))
        invariant forall j :: (0 <= j < base || base + i <= j < state.allCommands.Length) ==>
                    state.allCommands[j] == old(state.allCommands[j])
      {
        state.allCommands[base + i] := Command(i - 12, 0.0, Finite(0.0));
      }
    }

    /** A key press: ignored when it is an auto-repeat or the key is unmapped;
      * otherwise the command starts now, is held until further notice, and is
      * queued (once). */
    method KeyDown(scancode: int, repeat: bool)
      requires Valid() && 0 <= scancode < KEY_MAP_SIZE
      modifies state.allCommands, state`queueSize, state.playingQueue
      ensures Valid()
      ensures repeat || keyMap[scancode] < 0 ==>
                state.allCommands[..] == old(state.allCommands[..]) && state.Queue() == old(state.Queue())
      ensures !repeat && 0 <= keyMap[scancode] ==>
                var i := keyMap[scancode];
                state.allCommands[..] == old(state.allCommands[..])[i := Command(old(state.allCommands[i].note), GetTime(sampleCount), Infinite)] &&
                state.Queue() == Inserted(old(state.Queue()), i)
    {
      if repeat {
        return;
      }
      var commandIndex := keyMap[scancode];
      if commandIndex >= 0 {
        state.allCommands[commandIndex] := state.allCommands[commandIndex].(pressedTime := GetTime(sampleCount));
        state.allCommands[commandIndex] := state.allCommands[commandIndex].(releasedTime := Infinite);
        state.PlayingQueueInsert(commandIndex);
      }
    }

    /** A key release: the mapped command's release time becomes now; the queue
      * is left alone, so the release tail keeps sounding until pruned. */
    method KeyUp(scancode: int)
      requires Valid() && 0 <= scancode < KEY_MAP_SIZE
      modifies state.allCommands
      ensures Valid()
      ensures state.Queue() == old(state.Queue())
      ensures keyMap[scancode] < 0 ==> state.allCommands[..] == old(state.allCommands[..])
      ensures 0 <= keyMap[scancode] ==>
                var i := keyMap[scancode];
                state.allCommands[..] == old(state.allCommands[..])[i := old(state.allCommands[i]).(releasedTime := Finite(GetTime(sampleCount)))]
    {
      var commandIndex := keyMap[scancode];
      if commandIndex >= 0 {
        state.allCommands[commandIndex] := state.allCommands[commandIndex].(releasedTime := Finite(GetTime(sampleCount)));
      }
    }
  }
}
