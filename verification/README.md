# Verified models of DOSBox Staging cores

This project models the parts of the emulator whose correctness is hardest to see by reading them,
and proves what they promise over every input and every run. One module per component:

- `Prefetch`, `PrefetchRuns`: the prefetch queue of the CPU cores, an address-tagged window that is
  shifted in place and partly refilled, against the plain fetch of the normal core.
- `Midi`, `Wav`, `Riff`, `Avi`, `AviReader`, `AviWriter`, `CaptureControl`, `CaptureSessions`: the capture
  writers, the readers their files are meant for, the state machine that owns the files, and what whole
  sessions leave behind. `Bytes` holds the integer encodings.
- `Scheduler`: the tick budget of the main loop, automatic cycle adjustment and fast forward.
- `Semaphore`: the counting semaphore as a transition system over any number of threads.
- `Callback`, `CallbackCode`: callback numbers, their code stubs in memory, chained interrupt vectors, and
  the stubs instruction by instruction.
- `Fpu`, `FpuRuns`: the floating-point state that the dynamic and the normal core hand to each other.
- `Fifo`: the serial port ring buffer. `Fractions`: always-reduced rationals.

Code that changes state in place is a class whose methods are proved equal to functions on values;
the theorems over whole runs are about those functions. `dafny verify dfyconfig.toml` checks everything.

Results that differ from what one would expect of the code, each with its exact condition:

- A prefetch flush requested by the last instruction of a slice is lost: the next slice starts with fresh
  code exactly if its first fetch misses the window left behind (`LostFlushIff`, and on a real program
  `FlushLostAtSliceEnd`). Inside a slice the flush always takes effect (`FreshAfterBranch`).
- A captured MIDI track reads back exactly if it holds only channel messages and system exclusive
  messages below 2^28 bytes, at distances below 2^28 ticks; longer distances alone come back modulo 2^28
  (`RoundTripIff`). One captured system common message, such as a tune request, makes the whole track
  unreadable (`SystemCommonUnreadable`).
- The audio length that a reader finds in an AVI header is the audio in the file exactly if the file holds at most one audio
  chunk (`HeaderAudioLengthIff`); two stretches of sound are too many (`TwoSoundsMiscounted`).
- All sound of a video capture reaches its files exactly if every sound call found an open file and room
  in the buffer, no change of picture format found sound waiting, and none waits at the end
  (`SoundKeptIff`). So a capture that starts or ends with sound always loses some (`EarlySoundLost`,
  `LateSoundLost`).
- The semaphore keeps its promise exactly for a nonnegative initial count
  (`NeverOverdrawnIffNonNegative`).
- MIDI data that arrives while MIDI capture is off leaks a file; nothing else does (`StepKeepsInvIff`).
- The cycles stay at or above 200 exactly if no smaller limit is configured (`LowerLimitIff`).
- With fixed cycles the scheduled ticks grow without bound, and switching automatic adjustment on does not
  clear them. The tick bounds hold after the switch exactly if they hold at the switch (`SwitchBoundsIff`),
  and no 32-bit cast overflows until the next switch exactly if the ticks due are few enough for the first
  adjustment (`SwitchCastsFitIff`); after 35 minutes with fixed cycles they need not be
  (`OverflowAfterFixed`). The first refill that adds ticks restores the bounds (`RefillRecovers`).
- The CB_INT16 stub is four bytes longer than the size it reports (`StubFor`), and without a handler its jump
  back leads in front of its slot; every other stub jumps to its own instructions (`StubIsListingIff`,
  `ServiceJumpLeaves`).
- A chain of handlers on one vector unwinds exactly if the objects are uninstalled in reverse; in any other
  order the vector is left at one of their stubs (`RestoredIffReverse`), and with the older of two objects
  uninstalled first at a freed slot (`OlderFirstDangles`).
- The copies of the FPU act as one exactly if all exceptions are masked whenever the host FPU is saved, for
  saving sets the masks (`OneFpuIff`, and on a failing run `UnmaskedWordLost`). The control word that the
  dynamic core reports is right exactly if the normal core has not changed it since the last dynamic block
  (`ReportedIff`, `ReportedControlWordStale`).
- A comment in `src/cpu/callback.cpp` speaks of 16 bytes per callback; the code reserves 32, and the
  model follows the code.

## Model

| member | source | states |
|---|---|---|
| `Prefetch.Core.Shift` | src/cpu/core_prefetch.cpp:125-129 | the in-place shift and partial refill leave the old tail followed by memory behind the old window |
| `Prefetch.Core.Refill` | src/cpu/core_prefetch.cpp:132-134 | a miss loads the whole window at the instruction pointer |
| `Prefetch.Core.FetchB` | src/cpu/core_prefetch.cpp:119-142 | value, queue and instruction pointer after a byte fetch, over hit, shift and miss |
| `Prefetch.Core.FetchW` | src/cpu/core_prefetch.cpp:144-168 | the same for a word, little-endian |
| `Prefetch.Core.FetchD` | src/cpu/core_prefetch.cpp:170-197 | the same for a double word |
| `Prefetch.ServedFromQueueIff` | src/cpu/core_prefetch.cpp:121-172 | a fetch depends on the queue alone if and only if its bytes are in the window and, but for a single byte, do not reach the last slot |
| `PrefetchRuns.WindowProvenance` | src/cpu/core_prefetch.cpp:114-197 | every byte in the window was read from memory by one earlier fetch, has stayed in the window since and was not read again |
| `PrefetchRuns.FetchProvenance` | src/cpu/core_prefetch.cpp:114-197 | each fetched byte is what its address held when its slot was loaded, with no flush after that load; the fetch does the load itself exactly on a miss |
| `PrefetchRuns.SupplierUnique` | src/cpu/core_prefetch.cpp:114-197 | the event that loaded a fetched byte is unique |
| `PrefetchRuns.InvalidatesIff` | src/cpu/core_prefetch.cpp:236-299 | a flush is asked for exactly by two-byte opcodes, illegal opcodes and the listed ones |
| `PrefetchRuns.StaleOnlyThroughWindow` | src/cpu/core_prefetch.cpp:119-197 | a stale byte implies a write to its address while the address was inside the window, with no flush since |
| `PrefetchRuns.PrefetchRefinesPlain` | src/cpu/core_normal.cpp:111-126 | for every queue size from 4 to 32 and any fetches, jumps and flushes whose writes miss the window, each fetch equals the plain core's, at the same pointer |
| `PrefetchRuns.FreshAfterBranch` | src/cpu/core_prefetch.cpp:213-300 | inside a slice, every byte fetched after a flow-changing instruction or an illegal opcode was loaded after the flush it asked for |
| `PrefetchRuns.LostFlushIff` | src/cpu/core_prefetch.cpp:211-217 | across a slice boundary the first fetch is loaded after the last slice, and so after any flush it asked for, if and only if it misses the window left behind |
| `PrefetchRuns.FlushLostAtSliceEnd` | src/cpu/core_prefetch.cpp:213-217 | for every queue size, an INC that rewrites its successor at the end of a slice is followed by the old instruction |
| `PrefetchRuns.FlushKeptInSlice` | src/cpu/core_prefetch.cpp:215-217 | the same program within one slice continues with the new instruction |
| `Midi.NumberRoundTrip` | src/capture/capture_midi.cpp:67-79 | every number reads back modulo 2^28, whatever follows |
| `Midi.NumberMinimal` | src/capture/capture_midi.cpp:67-79 | no shorter byte string reads as the same number |
| `Midi.NumberExamples` | src/capture/capture_midi.cpp:67-79 | the reader agrees with the examples of the Standard MIDI Files specification |
| `Midi.DataBytesAreTable` | src/midi/midi.cpp:59-67 | channel messages have the lengths of the emulator's table |
| `Midi.TrackRoundTrip` | src/capture/capture_midi.cpp:91-125 | a track of channel and system exclusive messages decodes to exactly its events and the end of track |
| `Midi.RoundTripIff` | src/capture/capture_midi.cpp:91-125 | the messages come back, ticks modulo 2^28, if and only if every message is a whole channel message or a system exclusive message below 2^28 bytes; the log itself comes back if and only if moreover every tick distance is below 2^28 |
| `Midi.SystemCommonUnreadable` | src/midi/midi.cpp:507-511 | a captured system common message makes the whole track unreadable, whatever came before and after |
| `Midi.FileRoundTrip` | src/capture/capture_midi.cpp:45-53 | the whole file, header and big-endian length included, reads back below 2^32 bytes |
| `Midi.HeaderFields` | src/capture/capture_midi.cpp:45-53 | the header is a chunk of six bytes for format 0, one track and 500 ticks per quarter note |
| `Midi.Writer.RawAdd` | src/capture/capture_midi.cpp:56-65 | buffering and flushing add exactly one byte to the stream |
| `Midi.Writer.RawAddNumber` | src/capture/capture_midi.cpp:67-79 | the three mask tests emit the minimal encoding |
| `Midi.Writer.Create` | src/capture/capture_midi.cpp:81-89 | a new file starts with the header and the current tick |
| `Midi.Writer.AddData` | src/capture/capture_midi.cpp:91-112 | one call adds its event with the 32-bit tick distance, which leads from the last tick to this one; a file that cannot be created adds nothing |
| `Midi.Writer.Finalise` | src/capture/capture_midi.cpp:114-149 | the closed file is header, length and all bytes added, then end of track |
| `Midi.TicksFromDistances` | src/capture/capture_midi.cpp:100-101 | the distances of a capture, added up from the first tick, give every tick counter again modulo 2^32 |
| `Midi.Capture` | src/capture/capture_midi.cpp:91-149 | any sequence of calls gives the file of its events, the reader returns those events, and for ticks that do not go back each message at its absolute tick |
| `Wav.CaptureRoundTrip` | src/capture/capture_audio.cpp:129-163 | below 2^32 bytes the file reads back as the same frames, rate and consistent sizes |
| `Wav.ShapeFields` | src/capture/capture_audio.cpp:58-73 | the fixed header fields are tags, PCM, two channels, four bytes to a frame and 16 bits to a sample |
| `Wav.SampleBytesAt` | src/capture/capture_audio.cpp:103-126 | frame i is the four bytes from 4 x i on |
| `Wav.Writer.Round` | src/capture/capture_audio.cpp:103-126 | one round of the loop takes at least one frame and loses none |
| `Wav.Writer.AddData` | src/capture/capture_audio.cpp:89-127 | however input is split into calls, every frame enters the stream once and in order; the first rate is kept |
| `Wav.Writer.Create` | src/capture/capture_audio.cpp:75-87 | a new capture is empty and keeps the sample rate |
| `Wav.Writer.Finalise` | src/capture/capture_audio.cpp:129-163 | the closed file has data size 4 x frames and RIFF size data + 36 |
| `Wav.Writer.UpdateHeader` | src/capture/capture_audio.cpp:141-156 | the four patched fields end up right whatever the last capture left in the static header |
| `Wav.Capture` | src/capture/capture_audio.cpp:89-163 | any sequence of calls gives a file that reads back as all frames |
| `Riff.WalkStream` | src/capture/capture_video.cpp:65-84 | walking padded chunks by declared size gives back every chunk and ends at the end |
| `Avi.SizesTile` | src/capture/capture_video.cpp:112-261 | walking a finished file visits hdrl, JUNK, movi with every data chunk, and idx1, and ends exactly at the end; the RIFF size is the length minus 8 |
| `Avi.HeaderTiles` | src/capture/capture_video.cpp:126-247 | the nested lists inside the header tile in the same way |
| `Avi.IndexAgreement` | src/capture/capture_video.cpp:83-100 | index entry k leads, counted from the movi tag, to the header of chunk k with the same tag, flags and size, and chunk ranges do not overlap |
| `Avi.Layout` | src/capture/capture_video.cpp:255-261 | header, data and index in file order are the nested RIFF chunks |
| `Avi.ReadsBack` | src/capture/capture_video.cpp:112-261 | below 2^32 bytes a reader finds all levels of chunks by their sizes and every data chunk by its index entry |
| `AviReader.InfoReadsBack` | src/capture/capture_video.cpp:112-236 | every number in the header reads back from its own place in avih, strh and strf, and the fields that repeat it agree |
| `AviReader.Tags` | src/capture/capture_video.cpp:125-261 | the tags are the four-letter codes |
| `AviWriter.Writer.AddIndex` | src/capture/capture_video.cpp:86-100 | the index grows by the entry, and growth always leaves room behind it |
| `AviWriter.Writer.AddChunk` | src/capture/capture_video.cpp:65-101 | file, byte count and index keep describing the same chunks |
| `AviWriter.Writer.Create` | src/capture/capture_video.cpp:288-320 | a new file has an empty stream, the format of the picture and a consistent index; if it cannot be created nothing changes |
| `AviWriter.Writer.AddAudio` | src/capture/capture_video.cpp:268-286 | sound is appended as far as it fits the buffer |
| `AviWriter.Writer.AddPicture` | src/capture/capture_video.cpp:455-469 | a picture, key every 300, then the waiting sound as one chunk |
| `AviWriter.Writer.Prepare` | src/capture/capture_video.cpp:331-363 | a change of format closes the open file, and a file is created if none is open |
| `AviWriter.Writer.AddFrame` | src/capture/capture_video.cpp:322-469 | open file, waiting sound and finished files after a picture, over all branches |
| `AviWriter.BuildHeader` | src/capture/capture_video.cpp:112-253 | position arithmetic and patching give the 500-byte front with correct list and padding sizes |
| `AviWriter.Writer.Finalise` | src/capture/capture_video.cpp:103-266 | the closed file is exactly the RIFF structure of all chunks added, with every header number from the capture; waiting sound is not in it |
| `AviWriter.AudioLengthIff` | src/capture/capture_video.cpp:466 | the size of the last audio chunk is the size of all of them if and only if there is at most one |
| `AviWriter.HeaderAudioLengthIff` | src/capture/capture_video.cpp:216-220 | in every file of every capture the length that a reader finds in the header counts the sound in the data chunks if and only if there is at most one audio chunk |
| `AviWriter.TwoSoundsMiscounted` | src/capture/capture_video.cpp:459-468 | a file with two stretches of sound has the wrong length in its header |
| `AviWriter.SoundKeptIff` | src/capture/capture_video.cpp:268-286 | the sound in the files is all the sound that came in if and only if no sound call met a closed file or a full buffer and no file was closed with sound waiting |
| `AviWriter.EarlySoundLost` | src/capture/capture_video.cpp:272-274 | a capture that starts with sound loses sound |
| `AviWriter.LateSoundLost` | src/capture/capture_video.cpp:103-266 | a capture that ends with sound loses sound |
| `AviWriter.Record` | src/capture/capture_video.cpp:103-470 | any sequence of calls gives exactly the files and chunks that the calls describe; each below 2^32 bytes reads back by sizes and by index, and each header gives back the numbers of the capture |
| `CaptureControl.StepKeepsInvIff` | src/capture/capture.cpp:437-443 | every step keeps "open only while in progress, finalised once" except MIDI data that opens a file while off |
| `CaptureControl.NothingLeaks` | src/capture/capture.cpp:558-578 | after any guarded run and shutdown no file is open and every file was finalised exactly once |
| `CaptureControl.UnguardedMidiLeaks` | src/capture/capture.cpp:437-443 | without the callers' check a file stays open |
| `CaptureSessions.ControlFollowsSessions` | src/capture/capture.cpp:355-499 | for any order of keys and data, the pending and in-progress states make the writer do exactly what the sessions, from switching on to switching off, ask for |
| `CaptureSessions.ReplayTakes` | src/capture/capture_audio.cpp:89-163 | each audio session leaves one file with the rate of its first block and all its frames |
| `CaptureSessions.ReplayLogs` | src/capture/capture_midi.cpp:91-149 | each MIDI session leaves one file with its messages at their distances |
| `CaptureSessions.ReplayFiles` | src/capture/capture_video.cpp:103-470 | each video session leaves the files of its calls as if recorded by itself |
| `CaptureSessions.FilesAreSessions` | src/capture/capture.cpp:355-578 | after any run of keys and data and the final exit, the finished audio, MIDI and video files are exactly those of the sessions, and none is open |
| `CaptureSessions.SessionsAreData` | src/capture/capture.cpp:411-443 | the sessions together are exactly the data that came while each capture was on, in order, audio blocks in video sessions included |
| `CaptureSessions.ActRefinesControl` | src/capture/capture.cpp:355-578 | each action changes states and handles as the handlers do |
| `CaptureControl.Module.StopVideoCapture` | src/capture/capture.cpp:368-385 | stop cancels a pending capture and finalises a running one |
| `CaptureControl.Module.StartVideoCapture` | src/capture/capture.cpp:355-366 | start only leaves the off state |
| `CaptureControl.Module.AddVideoFrame` | src/capture/capture_video.cpp:331-363 | a format change finalises the old file before a new one is created |
| `CaptureControl.Module.AddAudioData` | src/capture/capture.cpp:411-435 | audio data starts both pending captures but opens only the audio file |
| `CaptureControl.Module.AddMidiData` | src/capture/capture.cpp:437-443 | MIDI data reaches the writer in every state |
| `CaptureControl.Module.HandleAudioEvent` | src/capture/capture.cpp:445-470 | the audio key cycles the state and finalises a running capture |
| `CaptureControl.Module.HandleMidiEvent` | src/capture/capture.cpp:472-499 | the MIDI key does the same |
| `CaptureControl.Module.HandleVideoEvent` | src/capture/capture.cpp:545-556 | the video key starts or stops |
| `CaptureControl.Module.DestroyAll` | src/capture/capture.cpp:558-578 | shutdown finalises what runs and resets the states |
| `Scheduler.FinalRatio` | src/dosbox.cpp:241-256 | the corrected and capped ratio is never negative |
| `Scheduler.RawRatioIs` | src/dosbox.cpp:230-232 | the ratio is the scheduled share of the time done in units of 1/1024 of the wanted percentage, to the last unit |
| `Scheduler.ScaledDown` | src/dosbox.cpp:258-261 | for every I/O-delay correction the downward formula exceeds the old value by at most one |
| `Scheduler.ScaledDownIs` | src/dosbox.cpp:258-261 | the downward formula is 1 + the whole part of cycles x ratio x (1 + keep) / (keep x ratio + 1024) |
| `Scheduler.ScaledDownLowersIff` | src/dosbox.cpp:258-261 | it lowers the cycles if and only if cycles x (1024 - ratio) exceeds keep x ratio + 1024 |
| `Scheduler.ScaledUp` | src/dosbox.cpp:262-266 | the upward formula never goes below the old value |
| `Scheduler.ScaledUpIs` | src/dosbox.cpp:262-266 | the upward formula is 1 + half the cycles + cycles x w / 2048 with w the whole part of (ratio - 1024) x keep + 1024 |
| `Scheduler.FormulasMono` | src/dosbox.cpp:258-266 | a larger ratio never gives fewer cycles in either formula |
| `Scheduler.ProposalExamples` | src/dosbox.cpp:228-271 | half of full use takes 3000 cycles to 2001, twice full use to 4501 |
| `Scheduler.Direction` | src/dosbox.cpp:230-294 | an adjustment with final ratio at most 1024 raises the cycles by at most one, one above 1024 never lowers them |
| `Scheduler.CastsFit` | src/dosbox.cpp:230-266 | no 32-bit cast and no 64-bit product of an adjustment overflows |
| `Scheduler.ReachableCastsFit` | src/dosbox.cpp:178-296 | over every run in automatic mode from a state within the bounds, until the mode is changed, no 32-bit cast overflows and the bounds hold |
| `Scheduler.StepKeepsInv` | src/dosbox.cpp:166-344 | in automatic mode, or with it parked for fast forward, every step but a change of mode keeps scheduled ticks below 120, done ticks below 100, and CPU_CycleMax between 200, or a smaller limit, and its ceiling |
| `Scheduler.RefillRecovers` | src/dosbox.cpp:212-308 | whatever the counters at the switch, the first refill that adds ticks brings them within the bounds |
| `Scheduler.SwitchBoundsIff` | src/cpu/cpu.cpp:1594-1598 | after automatic mode is switched on, every refill of every run finds the tick bounds met if and only if they are met at the switch |
| `Scheduler.SwitchCastsFitIff` | src/dosbox.cpp:228-266 | no 32-bit cast overflows in any run until the next change of mode if and only if the ticks due at the switch pass a test on the first adjustment |
| `Scheduler.OverflowAfterFixed` | src/dosbox.cpp:181-232 | a run with fixed cycles for 35 minutes, then a switch to automatic mode, overflows the ratio |
| `Scheduler.FixedKeepsCycles` | src/dosbox.cpp:225 | with fixed cycles nothing but a change of mode touches CPU_CycleMax |
| `Scheduler.LowerLimitIff` | src/dosbox.cpp:270-293 | an applied adjustment stays at or above 200 if and only if no smaller limit is set |
| `Scheduler.TickConservation` | src/dosbox.cpp:141-222 | over every run, in every mode and through every change of mode, delivered + pending + dropped ticks equal host time passed without fast forward, and lead by at most 5 per locked refill with it |
| `Scheduler.Loop.Idle` | src/dosbox.cpp:155-161 | a tick is delivered while some remain, otherwise the budget is refilled |
| `Scheduler.Loop.Refilled` | src/dosbox.cpp:166-225 | locked, sleeping and advancing branch of the refill |
| `Scheduler.Loop.Tuned` | src/dosbox.cpp:227-308 | the adjustment with skip rules, limits and resets |
| `Scheduler.Loop.Proposed` | src/dosbox.cpp:228-271 | ratio and new cycle value before the skip rules |
| `Scheduler.Loop.UnlockSpeed` | src/dosbox.cpp:325-344 | fast forward parks and restores automatic mode, and leaves fixed cycles alone |
| `Semaphore.StepKeepsWakeUp` | include/semaphore.h:44-61 | every step keeps: with a sleeper, the count is at most the awake waiters plus a notifier that still owes a wake-up |
| `Semaphore.Safety` | include/semaphore.h:44-61 | for any number of threads and any schedule the count is nonnegative and equals the initial one plus the increments minus the decrements in the schedule, the mutex has one owner, and sleepers bound the count by the awake waiters |
| `Semaphore.CallsAreAccounted` | include/semaphore.h:44-61 | every wait called has decremented or is inside, every notify called has incremented or is before that, and one that has incremented has returned or owes its wake-up |
| `Semaphore.PositiveCountIsClaimable` | include/semaphore.h:44-61 | in every reachable state with a positive count and a waiter, the threads inside can run on until a wait completes, with no new call and no spurious wake-up |
| `Semaphore.NeverOverdrawnIffNonNegative` | include/semaphore.h:38-51 | no more waits complete than resources were provided if and only if the initial count is nonnegative |
| `Fractions.Make` | include/fraction.h:41-61 | the constructed fraction is reduced, has a positive denominator and the same ratio |
| `Fractions.Construct` | include/fraction.h:41-61 | the in-place normalisation computes it |
| `Fractions.EqualIffSameValue` | include/fraction.h:89-92 | structural equality holds if and only if the rationals are equal |
| `Fractions.AddExact` | include/fraction.h:106-109 | addition is exact and reduced |
| `Fractions.SubExact` | include/fraction.h:118-121 | subtraction is exact and reduced |
| `Fractions.MulExact` | include/fraction.h:141-144 | multiplication is exact and reduced |
| `Fractions.DivExact` | include/fraction.h:164-167 | division is exact and reduced |
| `Fractions.InverseExact` | include/fraction.h:73-76 | the inverse multiplies to one |
| `Fractions.ScalarOperators` | include/fraction.h:130-156 | the integer operators agree with the fraction s / 1 |
| `Fractions.AddAssociative` | include/fraction.h:106-109 | addition is associative under structural equality |
| `Fractions.MulAssociative` | include/fraction.h:141-144 | multiplication is associative |
| `Fractions.Commutative` | include/fraction.h:106-144 | addition and multiplication are commutative |
| `Fractions.Distributive` | include/fraction.h:106-144 | multiplication distributes over addition |
| `Fractions.SubUndoesAdd` | include/fraction.h:118-121 | subtraction undoes addition |
| `Fractions.DivUndoesMul` | include/fraction.h:164-167 | division undoes multiplication |
| `Fractions.DivIsMulByInverse` | include/fraction.h:73-76 | division is multiplication by the inverse |
| `Fractions.InverseTwice` | include/fraction.h:73-76 | the inverse of the inverse is the number |
| `Fractions.NoOverflow` | include/fraction.h:41-167 | on operands below 2^31 in magnitude no intermediate leaves int64_t |
| `Callback.StubFor` | src/cpu/callback.cpp:155-547 | every stub type fits its 32 bytes, and its length is the reported one except for CB_INT16, which is four longer |
| `Callback.Code` | src/cpu/callback.cpp:155-547 | a stub with a handler contains the callback instruction with its own number |
| `CallbackCode.StubIsListingIff` | src/cpu/callback.cpp:155-547 | every stub is its assembly listing, with each jump to the instruction it is meant for, except that of INT 16 without a handler |
| `CallbackCode.MouseJump` | src/cpu/callback.cpp:374-385 | the jump of the mouse stub leads over the gap to its main part |
| `CallbackCode.ServiceJumpLeaves` | src/cpu/callback.cpp:386-398 | without a handler the jump of the INT 16 stub leads in front of its slot |
| `CallbackCode.IntStubIsListing` | src/cpu/callback.cpp:683-692 | an interrupt stub raises its interrupt and calls the stop callback |
| `Callback.PointersAgree` | include/callback.h:61-85 | the real-mode and the physical pointer to a slot are the same address |
| `Callback.WithStub` | src/cpu/callback.cpp:549-558 | setting up a callback writes its code and nothing outside its slot |
| `Callback.SlotsDisjoint` | include/callback.h:61-85 | slots overlap neither one another nor the interrupt stubs |
| `Callback.StepKeepsInv` | src/cpu/callback.cpp:582-647 | each step keeps: a slot is free exactly if nobody holds it, holders are exclusive in 1..127, the interrupt stubs stand |
| `Callback.StepKeepsCode` | src/cpu/callback.cpp:549-605 | each step keeps the code of every live callback in its slot |
| `Callback.SlotsExclusive` | src/cpu/callback.cpp:49-67 | both over every run of install, allocate, set up, hook, uninstall and foreign vector writes |
| `Callback.UninstallTouchesOwnVector` | src/cpu/callback.cpp:582-592 | in every reachable world an uninstall changes at most the hooked vector, only if it points at the object's own stub, and never one that points at another live object |
| `Callback.RestoredIff` | src/cpu/callback.cpp:584-592 | whatever happens between hook and uninstall, the vector is restored if and only if it still points at the stub or already has its old value |
| `Callback.ChainGrows` | src/cpu/callback.cpp:611-647 | installing and hooking objects one after the other makes a chain of any depth |
| `Callback.RestoredIffReverse` | src/cpu/callback.cpp:582-605 | uninstalling objects of a chain in any order restores the vector if and only if all go in reverse; otherwise it is left at a stub of the chain, freed if that object is gone |
| `Callback.OlderFirstDangles` | src/cpu/callback.cpp:582-605 | uninstalling the older of two objects first leaves the vector at a freed slot |
| `Callback.ChainsUnwind` | src/cpu/callback.cpp:582-647 | for any properly nested history, on the same or different vectors, uninstalling in reverse restores all vectors and slots |
| `Callback.Machine.Allocate` | src/cpu/callback.cpp:49-62 | the search takes the first free slot, or fails if there is none |
| `Callback.Machine.Setup` | src/cpu/callback.cpp:155-180 | the stub is in memory and nothing else changed |
| `Callback.Machine.RemoveSetup` | src/cpu/callback.cpp:575-580 | exactly the slot is zeroed |
| `Callback.Machine.WriteIntStubs` | src/cpu/callback.cpp:683-692 | all 256 stubs stand where CALLBACK_RunRealInt jumps |
| `Callback.FreshWorld` | src/cpu/callback.cpp:649-718 | the state left by initialisation meets the invariants of all runs, with any number of handler objects |
| `Callback.Machine.Init` | src/cpu/callback.cpp:649-718 | initialisation establishes those invariants, the four initial stubs included, and the default vectors |
| `Callback.HandlerObject.InstallOn` | src/cpu/callback.cpp:611-619 | number, stub and object after an install |
| `Callback.HandlerObject.HookOn` | src/cpu/callback.cpp:641-647 | the vector points at the stub and the old value is kept |
| `Callback.HandlerObject.UninstallFrom` | src/cpu/callback.cpp:582-605 | vector, stub, number and object after an uninstall |
| `Fpu.SetTop` | include/fpu.h:140-144 | only the three stack-top bits change, and they read back |
| `Fpu.StackAt` | include/fpu.h:99 | entry i of the stack is register (top + i) modulo 8, and the stack of top 0 is the register file |
| `Fpu.PushLaw` | include/fpu.h:99 | moving the top one register down makes entry i entry i + 1 |
| `Fpu.NormalOperands` | src/fpu/fpu.cpp:46-56 | the normal core finds entry i of an image in register (top + i) modulo 8 |
| `Fpu.PackWeight` | src/fpu/fpu.cpp:37-44 | the tag of register i has weight 4^i in the tag word |
| `Fpu.UnpackPack` | src/fpu/fpu.cpp:37-44 | unpacking the packed tag word gives the tags |
| `Fpu.PackUnpack` | include/fpu.h:104-109 | packing the unpacked tags gives the word |
| `Fpu.NormalRoundTrip` | src/fpu/fpu.cpp:46-68 | an image put into the normal FPU and read back is unchanged, registers reordered by the stack top included |
| `FpuRuns.NormalReload` | src/cpu/core_dyn_x86.cpp:275-301 | reading the normal FPU out and putting it back only refreshes the stack top in its status word |
| `Fpu.EnterNormalKeeps` | src/cpu/core_dyn_x86.cpp:288-301 | the normal core starts from the last state up to exception masks; the control word is exact if and only if the host was unused or fully masked |
| `Fpu.EnterNormal` | src/cpu/core_dyn_x86.cpp:299 | the host FPU is never in use on entry to the normal core |
| `Fpu.SaveKeeps` | src/cpu/core_dyn_x86/risc_x86.h:1084-1105 | saving keeps the logical FPU up to exception masks, with the exact condition |
| `FpuRuns.StepComputes` | src/cpu/core_dyn_x86.cpp:275-308 | a run of a core computes on the copies what it computes on one FPU, from the state its hand-off left |
| `FpuRuns.OneFpuIff` | src/cpu/core_dyn_x86.cpp:261-308 | over any alternation of cores, each with any computation, every core starts from exactly the state of a machine with one FPU if and only if that machine has all exceptions masked at every save |
| `FpuRuns.UnmaskedWordLost` | src/cpu/core_dyn_x86/risc_x86.h:1084-1105 | an unmasked control word loaded by the normal core is masked by the next save of the host FPU |
| `FpuRuns.OneLogicalFpu` | src/cpu/core_dyn_x86.cpp:261-308 | without that condition every core still starts from that state up to the exception masks |
| `FpuRuns.GuestAgreesIff` | src/cpu/core_dyn_x86/dyn_fpu_dh.h:61-68 | the reported control word stays in agreement if and only if the normal core did not change it |
| `FpuRuns.ReportedIff` | src/cpu/core_dyn_x86/dyn_fpu_dh.h:61-68 | over whole runs the reported control word agrees with the one FPU if and only if that still has the word the last dynamic block left, up to masks |
| `FpuRuns.ReportedControlWordStale` | src/cpu/core_dyn_x86.cpp:275-286 | a control word loaded by the normal core is not the one reported afterwards |
| `Fpu.Cores.SetTag` | include/fpu.h:104-109 | the loop unpacks all eight tags |
| `Fpu.Cores.GetTag` | src/fpu/fpu.cpp:37-44 | the loop packs all eight tags |
| `Fpu.Cores.SetCW` | include/fpu.h:116-121 | masked word and rounding mode follow the control word |
| `Fpu.Cores.SetPRegsFrom` | src/fpu/fpu.cpp:46-56 | the stack image lands in the physical registers |
| `Fpu.Cores.GetPRegsTo` | src/fpu/fpu.cpp:58-68 | the physical registers come out in stack order |
| `Fpu.Cores.MaybeSyncHost` | src/cpu/core_dyn_x86.cpp:264-269 | the host state is saved if in use |
| `Fpu.Cores.SyncNormalToDynamic` | src/cpu/core_dyn_x86.cpp:275-286 | the image takes over the normal FPU |
| `Fpu.Cores.SyncDynamicToNormal` | src/cpu/core_dyn_x86.cpp:288-301 | the normal FPU takes over the image, and the state-not-in-use assertion holds |
| `Fifo.DeliversInOrder` | include/serialport.h:77-120 | over every run of add, get, clear and resize, delivered and queued bytes are together the accepted ones, in order |
| `Fifo.AllDeliveredIff` | include/serialport.h:77-120 | delivered and queued bytes are all inputs in order if and only if no add met a full queue and no clear or resize found bytes |
| `Fifo.DrainKeepsLast` | include/serialport.h:110-120 | after any run that drains the queue, the byte a further read gives is the one delivered last |
| `Fifo.EmptyRepeats` | include/serialport.h:110-120 | any number of further reads repeat that byte, until an add, clear or resize |
| `Fifo.MyFifo.AddB` | include/serialport.h:91-109 | appends, or when full replaces exactly the newest byte and reports failure |
| `Fifo.MyFifo.GetB` | include/serialport.h:110-120 | delivers the front byte and keeps the last one for reads of the empty queue |
| `Fifo.MyFifo.GetTop` | include/serialport.h:121-134 | the newest byte when full, otherwise the old content of the next free slot |
| `Fifo.MyFifo.SetSize` | include/serialport.h:77-84 | empties the queue and keeps what fits of the storage |
| `Fifo.MyFifo.Clear` | include/serialport.h:85-89 | empties and zeroes |

## Left out

- Address wrap at 2^32 in the prefetch queue: addresses are unbounded, so the model is exact while the
  instruction pointer plus the queue size stays below 2^32.
- Instruction execution, flags, paging and segment loading: a run of the prefetch core is an arbitrary
  sequence of fetches, jumps, writes and flushes, and an instruction is given by its decoded opcode.
- Rounding of doubles in the cycle adjustment: computed over `real`, with truncation where the source
  truncates.
- `Scheduler.CastsFit`: asks for cycles up to 2000000, and the run theorems about casts for a limit up to
  that, since a configured limit or fixed value can be any number.
- Changing the used percentage by key during a run: it is part of the configuration.
- Failing writes, seeks and codec calls in the capture writers; failing to create a file is modelled.
- `CaptureSessions.FilesAreSessions`: MIDI data that arrives while MIDI capture is off is not offered to the
  writer, as its callers see to; the sample rate in the header of a video file without sound is left aside,
  because it is carried over from an earlier file.
- ZMBV compression, pixel rows and palettes: a compressed frame is an opaque byte string.
- The two frame-rate numbers in the AVI header come from float arithmetic and are parameters.
- `AviWriter.Writer.Prepare`: formats are compared as values, the frame rate by an identity given with it.
- AVI counters are unbounded and written as their low 32 bits; the file theorems ask for less than 2^32
  bytes.
- The overflow of the semaphore's `int` count after 2^31 notifies.
- Interrupt vectors are a table of 256 numbers rather than bytes of low memory, which the stub area
  never touches.
- Installing a callback at a caller-chosen address, callback descriptions, and the nested machine runs
  of `CALLBACK_RunRealFar` and `CALLBACK_Idle`.
- `Callback.ChainGrows`: asks that the vector's original value is not the address of the slot about to be
  allocated, which only an earlier dangling vector could make it.
- `Callback.Machine.Setup`: takes the stub as a value; `Callback.StubFor` gives the stub of each type.
- `FpuRuns.OneLogicalFpu`: asks, as `FpuRuns.ReportedIff` does, that what the cores compute depends on the
  exception masks only in the masks, since a core that reads them can tell the copies apart;
  `FpuRuns.OneFpuIff` needs no such condition.
- `FpuRuns.StepComputes`: asks that the normal core does not look at the stack top in its status word before
  refreshing it; instruction execution itself is not modelled.
- The 80-bit register conversions of the host FPU, its recomputation of tags, the reserved upper halves
  of the saved words, and the mode with the host FPU disabled.
- `Fifo.MyFifo.SetSize`: what slot 0 holds after a resize is given to the abstract queue as a value.
- Compound assignment and floating-point conversion of fractions, and construction with a zero
  denominator, which the source rules out by assertion.
- Image capture, capture file names and indices, logging.
