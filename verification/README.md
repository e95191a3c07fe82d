# Looping sample player and transport state machine

A Dafny model of the two pieces of sequential logic in a small JUCE audio
application:

- the **looping block producer** (`Source/audioLooping.h`): a component
  that loads a WAV file shorter than two seconds into a `channels x frames`
  buffer and, on every audio callback, fills the requested output block by
  copying the buffer round and round from an integer read cursor, wrapping
  the cursor to 0 at the buffer end, reading input channel
  `channel % inputChannels` for every output channel, and ramping the gain
  from the level of the previous block to the slider's current level;
- the **transport state machine** (`Source/audioPlayer.h`): a file player
  whose four states (Stopped, Starting, Playing, Stopping) are changed by
  the play and stop buttons and by change messages from the transport
  source, with entry actions on the two buttons' enabled flags and on the
  transport (start, stop, rewind).

Files and modules:

- `wrappers.dfy` — `Wrappers.Option`, for the source's `nullptr` results.
- `loop_schedule.dfy` — `LoopSchedule`: the chunking arithmetic of the copy
  loop as a pure function `Schedule` (the list of chunks the loop performs),
  with lemmas on chunk lengths, termination, contiguity, wrap-around, the
  source frame of every chunk and the final cursor.
- `looping.dfy` — `Looping`: the component's state (`Looper`), the copy of
  one chunk on every output channel, and the audio callback
  `GetNextAudioBlock` as a method whose loop follows the source's `while`.
- `looping_events.dfy` — `LoopingEvents`: construction, level slider,
  audio shutdown, the accept/reject branch of the file chooser, looping
  properties, and the gain-ramp finding.
- `transport.dfy` — `Transport`: the state machine, the buttons, the
  change-message handler, the reader install, the audio callback's
  silence-or-forward choice, and an invariant over all reachable states.

Samples are an opaque type parameter `T`; levels are `real`. The per-sample
gain arithmetic is not modelled: each chunk records only its ramp's two
endpoints. `approximatelyEqual` is a function-valued parameter, and the
float test `lengthInSamples / sampleRate < 2` is a boolean carried by the
reader.

Behaviour of the code that the model keeps as it is: the player has four
transport states and no pause; the looping component does not clamp the
level (the slider's range is 0 to 1); an empty buffer is not turned into
silence (the copy loop would not terminate, so the callback requires a
non-empty buffer); the looping component's open button shuts the audio down
before the file is chosen, which empties the buffer if the audio was
running, so a rejected file then leaves an empty buffer, the cursor as it
was and the audio off; and in the player, opening a file while playing
stops the transport (installing a new source does that) but leaves the
player in Playing with stop enabled.

## Model

| member | source | states |
|---|---|---|
| `Looping.GetNextAudioBlock` | Source/audioLooping.h:42-77 | With a non-empty buffer and the cursor on a frame: the loop terminates; output frame `startSample + i` on channel `c` is input channel `c % inputChannels` at frame `(position + i) % N`; no other output frame changes; a mono buffer gives every output channel the same content; the final cursor is `(position + numSamples) % N` and stays on a frame; `previousLevel` becomes the level read at block start and nothing else in the state changes; the ramps are one per chunk of `Schedule`, each from the start level to the level |
| `Looping.StartLevel` | Source/audioLooping.h:44-45 | The ramp starts from the new level when it is approximately equal to the previous level, and from the previous level otherwise |
| `Looping.CopyFrom` | Source/audioLooping.h:60-65 | Copying `num` frames overwrites exactly the destination frames `destStart .. destStart+num-1` with the source frames from `srcStart`, keeping every other frame and the length |
| `Looping.CopyChunk` | Source/audioLooping.h:58-65 | One chunk copied on every output channel: output channel `c` gets input channel `c % inputChannels` inside the chunk and keeps its content outside it |
| `Looping.PerChunkRamps` | Source/audioLooping.h:66 | One ramp per chunk, every one, including chunks after the wrap, from the block's start level to its level |
| `LoopSchedule.ScheduleInBuffer` | Source/audioLooping.h:53-56 | Every chunk is at least one frame long and lies inside the buffer, so the loop always makes progress when `N > 0` and `0 <= position < N` |
| `LoopSchedule.ScheduleChunkLength` | Source/audioLooping.h:55-56 | Every chunk copies exactly `min(frames still to write, N - cursor)` frames |
| `LoopSchedule.ScheduleTotal` | Source/audioLooping.h:50-70 | The chunk lengths add up to the requested number of frames (zero for an empty or negative request) |
| `LoopSchedule.ScheduleContiguous` | Source/audioLooping.h:69-71 | The schedule is empty exactly when nothing is requested; chunks are written end to end from `startSample` and the last ends at `startSample + numSamples`; each chunk reads from the cursor the previous one left |
| `LoopSchedule.ScheduleWraps` | Source/audioLooping.h:71-74 | Every chunk after the first reads from frame 0 and every chunk before the last runs to the buffer end: the cursor is reset to 0 exactly when it reaches `N` |
| `LoopSchedule.ScheduleReadsAtShift` | Source/audioLooping.h:55-74 | Every chunk reads from the frame `(initial cursor + distance into the block) % N` |
| `LoopSchedule.ScheduleFinalCursor` | Source/audioLooping.h:71-74 | The cursor left after the last chunk is `(initial cursor + numSamples) % N` |
| `LoopSchedule.FourFrameBufferSixFrameBlock` | Source/audioLooping.h:53-75 | A six-frame block from a four-frame buffer with the cursor at 0 is copied as frames 0-3 then frames 0-1, ending with the cursor at 2 |
| `LoopingEvents.Initial` | Source/audioLooping.h:150-151 | The component starts with no buffer, audio off, both levels 0, and an unconstrained cursor, and satisfies the callback invariant |
| `LoopingEvents.SliderMoved` | Source/audioLooping.h:30 | The slider sets only the current level; buffer, cursor, previous level and audio state are kept, and so is the callback invariant |
| `LoopingEvents.ReleaseResources` | Source/audioLooping.h:79-82 | The buffer becomes 0 x 0 and nothing else changes |
| `LoopingEvents.ShutdownAudio` | Source/audioLooping.h:94 | After shutdown the device no longer calls back; if it was running the buffer was released; if it was not, nothing changed |
| `LoopingEvents.OpenButtonClicked` | Source/audioLooping.h:92-94 | Before any file is chosen the open button turns the audio off; a running component's buffer is emptied, a stopped one is unchanged; cursor and levels are kept |
| `LoopingEvents.ClearButtonClicked` | Source/audioLooping.h:135-138 | The clear button turns the audio off; a running component's buffer is emptied, a stopped one is unchanged; cursor and levels are kept |
| `LoopingEvents.FileChosenAsWritten` | Source/audioLooping.h:102-131 | No file or no reader, or a file not shorter than two seconds, changes nothing; an accepted file replaces the buffer, resets the cursor to 0 and starts the audio; levels are kept |
| `LoopingEvents.EmptyFileStartsAudioOnEmptyBuffer` | Source/audioLooping.h:113-125 | A zero-frame file passes the duration gate as written and starts the audio on an empty buffer, where the first chunk would be zero frames long |
| `LoopingEvents.FileChosen` | Source/audioLooping.h:113-126 | With the gate also requiring a channel and a frame: the callback invariant is kept; anything other than an accepted file changes nothing; an accepted file replaces the buffer, resets the cursor and starts the audio |
| `LoopingEvents.FileChosenAgreesWhenNonEmpty` | Source/audioLooping.h:113-126 | On non-empty files the corrected gate behaves exactly like the gate as written |
| `LoopingEvents.LoopedSampleRepeats` | Source/audioLooping.h:71-74 | The looped signal repeats every `N` frames |
| `LoopingEvents.FullLapReturnsCursor` | Source/audioLooping.h:53-74 | A block of exactly `N` frames is one chunk from a cursor at 0, and otherwise two chunks (cursor to buffer end, then frame 0 up to the cursor); either way the cursor ends where it started |
| `LoopingEvents.ConsecutiveBlocksContinue` | Source/audioLooping.h:55-74 | A block starting where the previous block left the cursor delivers the frames that follow the previous block's, so consecutive callbacks join without a gap or repeat |
| `LoopingEvents.LevelSettlesAfterOneBlock` | Source/audioLooping.h:44-76 | Once the slider stops moving, the next block ramps flat at the level whatever `approximatelyEqual` answers, because the callback stores the level it read; a level not approximately equal to the previous one fades from the previous level to the new one |
| `LoopingEvents.PerChunkRampsJumpAtWrap` | Source/audioLooping.h:66 | As written, a fade from 0 to 1 over a block that wraps ends its first chunk at gain 1 and starts the second at gain 0 |
| `LoopingEvents.BlockRampsContinuous` | Source/audioLooping.h:44-76 | With one linear ramp across the block, the first chunk starts at the start level, the last ends at the level, and each chunk starts at the gain the previous one ended on |
| `LoopingEvents.RampsAgreeWithoutWrap` | Source/audioLooping.h:66 | When a block does not reach the buffer end, the source's per-chunk ramp is the block-level ramp |
| `Transport.Initial` | Source/audioPlayer.h:124-141 | The player starts Stopped, play and stop disabled, no reader source, transport idle at position 0 |
| `Transport.ChangeState` | Source/audioPlayer.h:39-68 | The state becomes the requested one; requesting the current state changes nothing; entering Stopped disables stop, enables play and rewinds; entering Starting disables play and starts the transport; entering Playing only enables stop; entering Stopping only stops the transport |
| `Transport.ChangeStateIdempotent` | Source/audioPlayer.h:47-48 | Requesting the same state twice has the effect of requesting it once |
| `Transport.PlayButtonClicked` | Source/audioPlayer.h:109-111 | A play click requests Starting: the transport then plays and play is disabled, unless already Starting, when nothing changes; stop button, transport position and reader source are kept |
| `Transport.StopButtonClicked` | Source/audioPlayer.h:113-115 | A stop click requests Stopping: the transport stops; buttons, transport position and reader source are untouched; a click already in Stopping changes nothing |
| `Transport.ChangeListenerCallback` | Source/audioPlayer.h:207-221 | A message from the transport leads to Playing if it plays, enabling stop and keeping play and the transport, and to Stopped otherwise, enabling play, disabling stop and rewinding the transport to 0; a message in the state it leads to, or from any other broadcaster, changes nothing; the reader source is kept |
| `Transport.ReaderCreated` | Source/audioPlayer.h:84-106 | A null reader changes nothing; a reader installs a reader source, stops the transport and puts it at position 0, and enables play; state and stop button are untouched |
| `Transport.GetNextAudioBlock` | Source/audioPlayer.h:180-193 | The block is cleared exactly when no reader source is installed, otherwise it is forwarded to the transport |
| `Transport.StepInv` | Source/audioPlayer.h:39-68 | Every event keeps the invariant: the transport plays only in Starting and Playing, stop is disabled in Stopped and enabled in Playing, and with no file installed the player is Stopped with both buttons disabled |
| `Transport.RunInv` | Source/audioPlayer.h:39-68 | The invariant holds after any sequence of events |
| `Transport.ReachableOutput` | Source/audioPlayer.h:188-192 | In every reachable state other than Stopped the callback forwards to the transport, and in Stopped and Stopping the transport is not playing |
| `Transport.StopThenMessageReachesStopped` | Source/audioPlayer.h:207-221 | From any reachable state in which the transport plays, stop followed by the transport's message reaches Stopped, rewound, with play enabled and stop disabled |
| `Transport.PlayStopCycle` | Source/audioPlayer.h:84-115 | Open, play, transport message, `k > 0` frames played, stop, transport message walks Stopped, Starting, Playing, Stopping, Stopped with the documented buttons at each step; the transport is at frame `k` until entering Stopped rewinds it to 0 |
| `Transport.FinishedReachesStopped` | Source/audioPlayer.h:207-221 | A playing transport reaching the end of the file, wherever it stopped, brings the player to Stopped with the transport rewound, play enabled and stop disabled, and keeps the invariant |
| `Transport.ReopenWhilePlaying` | Source/audioPlayer.h:84-115 | Opening a second file while Playing, `k > 0` frames into the first, stops the transport and puts it at 0 but leaves the player in Playing with stop and play enabled; a stop click then gives Stopping with a silent transport; a play click restarts playback |

## Left out

- `Source/audioPlayer.cpp`: application and window lifecycle only.
- Widgets: layout (`resized`), button text and colours, slider set-up and
  the file chooser dialog. Buttons are their enabled flags; the chosen file
  arrives as an optional reader.
- Decoding: `AudioFormatManager` and `reader->read` are not modelled; an
  accepted file's buffer is the reader's decoded samples.
- The transport source is a playing flag and a position; its reading,
  resampling and buffering are not modelled. Its reading is the
  `TransportAdvanced` event, which moves the position while it plays; its
  stopping on its own at the end of the file (and broadcasting) is the
  `TransportFinished` event; change messages are events that may arrive at any time, so the
  model does not promise that a stop on an already stopped transport is
  never followed by a message.
- `prepareToPlay` (empty in the looping component, forwarded to the
  transport in the player) and the player's `releaseResources` (forwarded)
  keep no state of their own.
- `setAudioChannels` is modelled only as "the device now calls back"; the
  number of output channels is the length of the output buffer given to the
  callback.
- Floating point: per-sample gain values, `approximatelyEqual` (a
  parameter) and the duration division (a boolean on the reader).
- Threading: the slider writes `currentLevel` while the audio thread reads
  it; the model is sequential.
- Looping.GetNextAudioBlock: requires a non-empty buffer, at least one
  input channel and the cursor on a frame, because the source loops forever
  on an empty buffer and divides by zero with no input channels; before the
  first file the cursor is uninitialised. `Valid` records that the device
  only calls back when these hold.
- Integer widths: cursor and frame counts are unbounded integers; the
  buffers involved are far below 32-bit limits.
- LoopingEvents.ShutdownAudio: relies on the framework calling the
  component's `releaseResources` when the audio is shut down while running;
  that call is framework code, not part of this model.

## Findings

| source | as written | input that shows it | evidently intended | confidence | as-written member | corrected member |
|---|---|---|---|---|---|---|
| Source/audioLooping.h:66 | every chunk of a block gets a ramp from the block's start level to its level | four-frame buffer, cursor 2, four-frame block, previous level 0, level 1: frames 0-1 fade 0 to 1, then frames 2-3 fade 0 to 1 again, a jump from 1 to 0 at the wrap | one linear ramp across the whole block, each chunk taking its own slice | not executed; high | `LoopingEvents.PerChunkRampsJumpAtWrap` | `LoopingEvents.BlockRampsContinuous` |
| Source/audioLooping.h:115 | the only gate is `duration < 2`, which a zero-frame file passes | a WAV file with an empty data chunk: the audio starts on a 0-frame buffer and the callback's chunk length is `min(remaining, 0 - 0) = 0`, so its loop never ends | reject a file with no frames (or no channels) like an over-long one | not executed; medium | `LoopingEvents.EmptyFileStartsAudioOnEmptyBuffer` | `LoopingEvents.FileChosen` |
