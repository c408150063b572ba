# Steven voice engine, modelled in Dafny

Steven is a small keyboard synthesizer. Each key of the computer keyboard is
bound to a *command*: a note, a press timestamp and a release timestamp. While
a key is held or its release tail still sounds, the command's index sits in the
*playing queue*. The audio callback renders one block at a time:

- it silences the block;
- it adds, for every queued command, an oscillator for its note shaped by an
  ADSR envelope (attack, decay, sustain, release);
- it advances the sample clock;
- it drops from the queue, in place, every command that has stopped playing.

This project models that engine core. It covers:

- the command table and the playing queue (`command_state_t`,
  `playing_queue_insert`, `playing_queue_remove`);
- the envelope (`compute_amplitude`, `is_playing`);
- the sample clock (`get_time`, `get_time_sample_offset`,
  `time_advance_by_samples`);
- the audio callback;
- the keyboard map initialisation;
- the key-down and key-up handlers of the event loop.

Modules:

- `Envelope`: the command record, with a release time that is a real or
  +infinity (`Stamp`), and the envelope over reals. Lemmas cover:
  - bounds;
  - the shape of each phase;
  - monotonicity of attack and release;
  - the fact that a command that is not playing stays silent for good.
- `Clock`: sample count to seconds at 48000 samples per second.
- `Queues`: the queue as a sequence with set semantics:
  - the first-occurrence scan (`IndexOf`);
  - `Inserted` and `Removed`, with a round trip between them;
  - the pigeonhole argument showing that insertion never overflows the
    fixed-size array.
- `Commands`: class `CommandState`, with the table and the queue as arrays.
  Insertion and removal are proved against `Inserted` and `Removed`, and both
  keep the queue free of duplicates.
- `Mixing`: defines:
  - the value of one sample (`Mix`, a sum in queue order);
  - the pruned queue (`Playing`, a filter in queue order);
  - the state after k steps of the in-place pruning scan (`PruneScan`).

  Lemmas cover:
  - additivity of mixing;
  - membership, distinctness and idempotence of pruning;
  - that the scan, which steps back one position after each removal, ends
    with exactly the filtered queue;
  - that pruning at time t changes no sample at t or later.
- `Synth`: class `VoiceEngine`, holding the globals: the command state, the
  sample counter, the scancode map and the oscillator. It has:
  - the audio callback and its stages;
  - the keyboard initialisation;
  - the key handlers.

  Its invariant `Valid` says:
  - the queue is well formed;
  - every mapped scancode names a table entry;
  - every command's timestamps are consistent with the current time: pressed
    no later than now, and a finite release between the press and now.

  Under this invariant, with the default envelope (attack + decay = 0.11 s, no
  longer than the 0.5 s release), every command the callback drops is silent
  from then on.

The keyboard initialisation stores position `i` in the scancode map while the
command it creates sits at table index `base + i`. The two agree because the
program calls it once, on an empty table (`base` = 0). `KeyboardInputInit`
states what the code writes, with `base` left general.

## Model

| member | source | states |
|---|---|---|
| Envelope.ComputeAmplitude | code/main.cpp:205-234 | for a well-formed envelope (positive durations, sustain between 0 and amax) the amplitude lies between 0 and the peak amax, at every time and in every phase |
| Envelope.IsPlaying | code/main.cpp:236-241 | a command plays only from its press on; while held (release +infinity) it plays at every time from the press, and once released it plays exactly on [press, release + release time) |
| Envelope.AmplitudeZeroCases | code/main.cpp:205-234 | the amplitude is 0 up to and at the press instant, and 0 once decay and release tail are both over |
| Envelope.AmplitudeShape | code/main.cpp:212-226 | the attack ramp ends exactly at amax, and between the end of the decay and the release the level is the sustain level |
| Envelope.AttackIncreasing | code/main.cpp:212-216 | during the attack the amplitude rises strictly |
| Envelope.ReleaseNonIncreasing | code/main.cpp:222-231 | after release (and past the decay) the amplitude never rises, never exceeds sustain, and is 0 from release + release time on |
| Envelope.StoppedIsSilent | code/main.cpp:205-241 | a command pressed by t, released no earlier than pressed, that is not playing at t is silent at t and every later time (release tail outlasting attack + decay) |
| Envelope.AudibleIsPlaying | code/main.cpp:205-241 | under the same conditions a non-zero amplitude implies the command is playing |
| Clock.GetTime | code/main.cpp:170-174 | the time times the sample rate 48000 is the sample count, and it is non-negative for a non-negative count |
| Clock.GetTimeSampleOffset | code/main.cpp:175-179 | the time times 48000 is count + offset; a non-negative offset is no earlier than the block start time, a positive one strictly later |
| Clock.GetTimeSampleOffsetMonotone | code/main.cpp:175-179 | within a block a later sample offset has a strictly later time, and two offsets share a time only when equal (both directions of each iff) |
| Clock.GetTimeMonotone | code/main.cpp:168-174 | the clock is strictly increasing in the sample count and injective (both directions of each iff) |
| Queues.IndexOf | code/main.cpp:122-130 | the linear scan's result: the first position holding x, or -1 exactly when x is absent |
| Queues.Inserted | code/main.cpp:120-137 | the old queue stays a prefix, the result holds x, at most one entry is added, and nothing changes when x was already queued |
| Queues.InsertedFacts | code/main.cpp:120-137 | insertion adds exactly x to the members, grows the queue by one only when x was absent, and keeps entries distinct |
| Queues.InsertIdempotent | code/main.cpp:120-137 | inserting the same index twice equals inserting it once |
| Queues.Removed | code/main.cpp:138-155 | the queue shrinks by one exactly when x was present, and is unchanged when x is absent |
| Queues.RemovedMultiset | code/main.cpp:138-155 | removal takes out exactly one occurrence of x (none if absent) and keeps every other entry with its multiplicity |
| Queues.RemovedFacts | code/main.cpp:138-155 | on a duplicate-free queue, removal takes exactly x out of the members and keeps entries distinct |
| Queues.RemoveInsertRoundTrip | code/main.cpp:120-155 | removing an index just inserted into a queue lacking it gives back the original queue |
| Queues.QueueCapacity | code/main.cpp:131-136 | a queue of distinct valid indices lacking a valid index is shorter than the table, so the unchecked append stays in bounds |
| Commands.CommandState.constructor | code/main.cpp:96-107 | both arrays have the requested capacity, every table entry is the zero command and every queue slot 0; table size 0, empty queue |
| Commands.CommandState.Find | code/main.cpp:122-130 | the loop with break returns the first queue position holding the index, or -1 exactly when it is not queued |
| Commands.CommandState.PlayingQueueInsert | code/main.cpp:120-137 | the new queue is the old one with the index appended if absent, unchanged if present; duplicates never arise |
| Commands.CommandState.PlayingQueueRemove | code/main.cpp:138-155 | the new queue is the old one with the index's entry cut out (unchanged if absent); one shorter and index gone when present; duplicates never arise |
| Commands.CommandState.CutAt | code/main.cpp:149-153 | the memmove and decrement leave the queue one shorter, with the entry at the found position cut out and the later entries moved down, all still valid indices |
| Mixing.Mix | code/main.cpp:254-270 | an empty queue gives a silent sample, and a single queued command gives exactly its own contribution |
| Mixing.MixAppend | code/main.cpp:254-270 | the sum over a queue split in two is the sum of the two parts' sums |
| Mixing.MixOfSilent | code/main.cpp:254-270 | voices whose envelope is 0 at t add nothing to the sample at t |
| Mixing.Playing | code/main.cpp:273-284 | the pruned queue holds valid indices and is no longer than the original |
| Mixing.PlayingMembers | code/main.cpp:273-284 | an index survives pruning iff it was queued and its command is playing at t |
| Mixing.PlayingDistinct | code/main.cpp:273-284 | pruning keeps the queue free of duplicates |
| Mixing.PlayingIdempotent | code/main.cpp:273-284 | pruning twice at the same time removes nothing more |
| Mixing.PruneKeepsMix | code/main.cpp:254-284 | for commands consistent at t, pruning at t leaves the mix at t and every later time unchanged |
| Mixing.PruneScan | code/main.cpp:274-283 | after k steps of the scan the queue has lost at most k entries and gained none |
| Mixing.PruneScanState | code/main.cpp:274-283 | after k loop steps the queue is the pruned first k original entries followed by the untouched rest |
| Mixing.PruneScanComplete | code/main.cpp:274-283 | the full scan, stepping back after each removal, leaves exactly the filtered queue: no entry is skipped |
| Mixing.PlayingOutcome | code/main.cpp:273-284 | after pruning every remaining command is playing, and every dropped one with consistent timestamps is silent from then on |
| Synth.ZeroStream | code/main.cpp:248-252 | every frame of the block is 0 in both channels |
| Synth.VoiceEngine.constructor | code/main.cpp:352-358 | fresh table of zero commands and zero-filled queue of the given capacity, clock at 0, zero-filled scancode map, invariant established |
| Synth.VoiceEngine.TimeAdvanceBySamples | code/main.cpp:180-183 | the counter grows by the sample count, the new time is the old time at that offset, and a non-negative advance keeps the invariant |
| Synth.VoiceEngine.MixQueue | code/main.cpp:254-270 | starting from silence, each sample s holds in both channels the mix of the queue at the time of sample s |
| Synth.VoiceEngine.AddVoice | code/main.cpp:260-268 | one command's inner loop turns the mix of the entries so far into the mix with that command added, in every sample |
| Synth.VoiceEngine.PruneQueue | code/main.cpp:273-284 | the in-place loop leaves exactly the entries of the old queue that are playing at the current time, in order, and keeps the invariant |
| Synth.VoiceEngine.PruneEntry | code/main.cpp:276-283 | one loop step: keep and advance, or remove and stay, matching one more step of the scan |
| Synth.VoiceEngine.AudioCallback | code/main.cpp:243-285 | each sample is the mix of the old queue at its time (equal channels), the clock advances by the block length, the queue becomes its playing part at the new time, and dropped commands are silent for good |
| Synth.VoiceEngine.KeyboardInputInit | code/main.cpp:288-348 | listed scancodes map to their list position and all others, the terminator 0 included, to -1; one table entry per key after the used ones, note i - 12 and both timestamps 0; nothing else in the table changes |
| Synth.VoiceEngine.ClearKeyMap | code/main.cpp:329-330 | every scancode maps to -1 |
| Synth.VoiceEngine.MapKeySequence | code/main.cpp:332-337 | the key count is the list length before the terminator, each listed scancode maps to its position, others (the terminator 0 included) stay -1 |
| Synth.VoiceEngine.InitKeyCommands | code/main.cpp:340-347 | the table grows by the key count, new entry base + i holds note i - 12 with timestamps 0, other entries unchanged |
| Synth.VoiceEngine.KeyDown | code/main.cpp:420-432 | a repeat or an unmapped key changes nothing; otherwise the command is pressed now, held (release +infinity) and inserted in the queue |
| Synth.VoiceEngine.KeyUp | code/main.cpp:434-441 | an unmapped key changes nothing; otherwise only the command's release time becomes now, and the queue is untouched |

## Left out

- Floating point: times and amplitudes are reals. Rounding of the 32-bit `float`
  arithmetic (`get_time`, the envelope, the mix) is not modelled.
- The oscillator `sin(TAU * 440 * 2^(note/12) * t)` is an uninterpreted function
  of note and time (`VoiceEngine.oscillator`). `sin` and `pow` are not modelled.
- Synth.VoiceEngine.TimeAdvanceBySamples: the 64-bit `sample_count` is an
  unbounded integer, so its wrap-around is not modelled. The source passes the
  sample offset as an `int` too.
- The audio block is an array of stereo frames. The byte length `len` and its
  division by the frame size are not modelled.
- SDL is not part of this model: device and window setup, the event queue, the
  `SDL_QUIT` arm and the scancode constants. The key list is a parameter
  (`KeySequence`), and the key-down and key-up handlers take the event's
  scancode and repeat flag.
- The GUI drawing loop of `main` is not part of this model. It reads
  `all_commands[command_index]` before testing `command_index >= 0`.
- `command_state_deinit` is not modelled: the model has no deallocation.
- Concurrency is not modelled. SDL runs the audio callback on its own thread,
  while the event loop updates the table and the queue without locking. Each
  method here runs atomically.
- Commands.CommandState.PlayingQueueInsert: requires the index to be a valid
  table index. The source does not check this; its only caller passes mapped
  indices. Under that requirement the append is proved to stay in bounds.
- Synth.VoiceEngine.KeyboardInputInit: requires room in the table for the keys.
  The source does not check this, and with 33 keys and 256 entries it holds.
- Synth.VoiceEngine.constructor: requires a positive capacity. Otherwise the
  zero-filled scancode map would name a table entry that does not exist. The
  program uses 256.
- Mixing.PruneKeepsMix: assumes a release no shorter than attack + decay. That
  holds for the configured envelope (0.01 + 0.1 <= 0.5). For other envelopes,
  pruning can cut a voice that is still in its decay.
