# bgx session model

bgx keeps a command running under a PTY, lets several clients attach to it at
once, and retains the beginning and the end of what it printed. This project
models the parts of bgx that carry hard guarantees and proves those guarantees.

| file | models |
|---|---|
| `bytes.dfy` | byte strings, and a slice that grows in an array |
| `vtscan.dfy` | the VT/UTF-8 scanner and its cut positions (Williams' VT500 parser model; control sequences of section 5.4 of ECMA-48; runes of section 3 of RFC 3629) |
| `outputpump.dfy` | the daemon's output pump: what is rendered and fanned out, and when |
| `tracker.dfy` | the terminal's tracking of the active screen and modes |
| `attach.dfy` | the daemon's attach protocol as a transition system, one step per lock-protected region |
| `trackeremulator.dfy` | the tracked screen and modes as an emulator that meets the protocol's hypotheses |
| `attachers.dfy` | the code of those steps, each proved to be its step |
| `retention.dfy` | what the scrollback store retains, as a function of the stream |
| `store.dfy` | the store's code, which releases its lock in the middle of a flush |
| `outer.dfy`, `pieces.dfy` | the client's own terminal as an interpreter of what is written to it |
| `canvas.dfy` | what stands on that terminal's screen, given what was written to it |
| `view.dfy` | the painter of the isolated view |
| `presentation.dfy` | the client's switching between native and isolated presentation |
| `detachkey.dfy`, `attachinput.dfy` | the detach key in the terminal's input, and the loop around it |
| `frame.dfy` | the framing of an attached connection |
| `inputqueue.dfy` | the queue of input towards the PTY |
| `attacherrors.dfy` | error trees, their pruning, and the joining of an attachment's workers |

Code that updates state is a class with the same fields and a method per
operation; each method is proved against a function of its inputs and the old
state, and the promises are proved of those functions. Goroutines meet in two
ways: the attach protocol is a transition system whose runs interleave freely,
and loops that release a lock (`Store.FlushChunk`, `Session.PumpInputTo`) are
given a script of what others do at each such moment, over which everything is
quantified; the client's writer (`Attacher.AttachWriter`) and the painter of its
view (`AttachModels.Meanwhile`) are interleaved with the others in the same way.

## Main results

- **Tiling** (`AttachProtocol.RunTiles`): in every interleaving of renders,
  joins, per-client deliveries, overflows, writer steps and detaches, what a
  client was and will be sent is a snapshot followed by exactly the bytes
  behind it. With a lawful emulator the client therefore always shows the
  session at some position, which never moves backwards
  (`AttachProtocol.ClientShowsThePast`).
- **Retention** (`Retention.BatchingIsInvisible`, `Retention.SplitAgreesIff`,
  `Retention.SealedSnapshot`, `ScrollbackStore.Store.Drain`): what the store
  retains depends on the stream alone; exactly which streams break that; and
  what a snapshot contains, with the shortest tail that may be kept.
- **Presentation** (`Presentation.AttachModels.ApplyOutput`,
  `Presentation.Attach`, `Presentation.AttachModels.Finish`): session and
  physical terminal agree after every frame, however screen switches fall, or
  exactly when they do not; what stands on the screen is always a rendering of
  the session and byte for byte what followed it, or a paint is owed; and the
  terminal is given back clean.
- **Detaching** (`DetachKey.KeypressIsSpelled`, `AttachInput.AttachInput.Run`):
  the key parser accepts exactly its grammar, no input is lost or reordered,
  and no way of splitting the input hides a literal detach key.

## Where code and documentation disagree

- `scrollback/store.go:3-5` promises that the first `headSize` bytes are kept
  verbatim. Until the head is sealed its unflushed bytes are trimmed as if they
  were tail; `Retention.UnsealedPrefixIsLost` has the input, and
  `Retention.UnsealedPrefix` the exact condition.
- `scrollback/store.go:274-278` says every cut is on a rune boundary. At the end
  of the buffer the test for a following continuation byte is skipped, so the
  cut depends on where a batch ends; `Retention.SplitAgreesIff` is the exact
  condition, `Retention.StrayWitness` an input.
- `scrollback/store.go:391-392` gives `boundaryTrim` a second choice. It is never
  used (`ScrollbackStore.BoundaryTrim`).
- `client_attach.go:177-206` drops an error whose wrapper holds nothing;
  `AttachErrors.NothingLostIffSolid` and `AttachErrors.EmptyWrapperIsLost`.
- `ctrlkey.go:99-102` says any fragment that could grow into the key is held
  back. That is so for exactly the keys whose code is spelled `92`
  (`DetachKey.HeldIffLiteral`); every other spelling has a split that hides it
  (`DetachKey.OtherSpellingsAreMissed`).
- `daemon/frame.go:57-75` reports a stream that ends right behind a header like
  one that ends between frames (`Frame.TruncatedStream`).

## Model

| member | source | states |
|---|---|---|
| Bytes.AppendSlice | daemon/daemon.go:374-374 | Appending to a slice's array in place, or in a larger one when it is full, yields the old contents followed by the new bytes, and touches no other array. |
| VtScan.AfterConcat | vtscan/vtscan.go:62-67 | Scanning a stream in any chunks is scanning it whole. |
| VtScan.StaysCoherent | vtscan/vtscan.go:44-47 | Inside a sequence no rune is ever pending, so "at ground" is equality with the zero value. |
| VtScan.GroundRestart | vtscan/vtscan.go:41-43 | From a ground position on, a fresh scanner agrees with the one that read everything before it. |
| VtScan.CuttableBeyond | vtscan/vtscan.go:92-97 | A ground position that the rune test rejects is followed by an accepted one, across nothing but continuation bytes. |
| VtScan.LastCutIsLastGround | vtscan/vtscan.go:86-99 | With the whole buffer as target, the rune test never costs the best cut: the last accepted cut is the last ground position. |
| VtScan.UnitNeverSplit | vtscan/vtscan.go:55-60 | Wherever a complete control sequence (with malformed parameters too), escape sequence, operating system command, device control, start-of-string, privacy or application string, or rune of two to four bytes stands in any stream, there is a ground position right behind it and none inside it. |
| VtScan.ControlSequenceStates | vtscan/vtscan.go:185-213 | A control sequence keeps the scanner away from ground until its final byte, from any state before it, whatever stands between introducer and final byte but CAN, SUB and ESC; ECMA-48's parameters and intermediates are a case of it. |
| VtScan.OscCommandStates | vtscan/vtscan.go:132-135 | So does an operating system command, until BEL or ESC \. |
| VtScan.EscapeSequenceStates | vtscan/vtscan.go:168-183 | So does an escape sequence, through its intermediates, unless its final byte introduces a longer one. |
| VtScan.StringCommandStates | vtscan/vtscan.go:215-249 | So do the strings that only ESC \ ends, whatever their payload but CAN, SUB and ESC. |
| VtScan.RuneStates | vtscan/vtscan.go:141-166 | A rune's lead byte announces exactly its continuation bytes. |
| VtScan.CancelEndsAll | vtscan/vtscan.go:102-112 | Behind CAN or SUB the scanner is at ground, whatever it was inside of. |
| VtScan.BrokenRuneIsAbandoned | vtscan/vtscan.go:141-152 | A byte that does not continue a begun rune is read as if that rune had not begun. |
| VtScan.Scanner.Reset | vtscan/vtscan.go:50-53 | Back to the zero value. |
| VtScan.Scanner.IsAtGround | vtscan/vtscan.go:58-60 | True exactly at the zero value, from which a stream may be cut. |
| VtScan.Scanner.Step | vtscan/vtscan.go:102-139 | One byte takes the scanner to the successor that the VT500 model gives, CAN, SUB and ESC first. |
| VtScan.Scanner.StepGround | vtscan/vtscan.go:141-166 | Ground and rune progress, including a rune abandoned halfway and reprocessing of the byte. |
| VtScan.Scanner.StepEscape | vtscan/vtscan.go:168-183 | Successors of the escape state. |
| VtScan.Scanner.StepCSI | vtscan/vtscan.go:185-202 | Successors of the control sequence states before intermediates. |
| VtScan.Scanner.StepCSIIntermediate | vtscan/vtscan.go:204-213 | Successors once an intermediate was seen. |
| VtScan.Scanner.StepDCS | vtscan/vtscan.go:215-249 | Successors of the device control string states. |
| VtScan.Scanner.Advance | vtscan/vtscan.go:63-67 | The loop reaches the state after the whole slice. |
| VtScan.Scanner.SafeCut | vtscan/vtscan.go:74-100 | The result is an acceptable cut at or before the target and none beyond it is, or -1 when there is none; the scanner is not moved. |
| OutputPump.LastGroundGrows | daemon/daemon.go:368-372 | More input never takes back what was rendered. |
| OutputPump.Release | daemon/daemon.go:376-383 | Cutting the held-back bytes at their last ground position extends the rendered part to the last ground position of the whole input. |
| OutputPump.Pump.Fanout | daemon/attach.go:237-252 | Clients get a copy in an array of their own; earlier payloads are untouched. |
| OutputPump.Pump.Commit | daemon/daemon.go:382-393 | Rendering, copying and sliding the rest to the front of the same array neither lose nor repeat a byte, and the copies handed out stay as they were. |
| OutputPump.Pump.FeedTerm | daemon/daemon.go:373-395 | Rendered plus pending is the input; without a flush, rendered is exactly the longest prefix of the input that ends at ground; a flush renders everything. |
| OutputPump.Pump.PumpOutputFrom | daemon/daemon.go:333-366 | After every read of any split of the PTY's output the rendered length is that of the longest such prefix of the bytes read so far, and clients attached throughout were sent the whole output, in order. No block is empty and all but the last, the final flush, begin and end at ground, which is what the protocol's theorems ask of its renders. |
| Tracker.TrackConcat | vt/vt.go:96-106 | Writing two pieces is writing their concatenation. |
| Tracker.TrackFrom | vt/vt.go:108-120 | So is continuing from any offset of a write. |
| Tracker.TrackScans | vt/vt.go:160-161 | The tracker's scanner is the plain scanner, whatever it collected. |
| Tracker.CollectedSequence | vt/vt.go:151-158 | The buffer always holds the current sequence from its beginning, up to 64 bytes. |
| Tracker.CompletedSequence | vt/vt.go:152-166 | The cap never misreads: a completed sequence is applied if it fits, and one cut off at 64 bytes changes neither screen nor modes. |
| Tracker.StateIsCompletedSequences | vt/vt.go:144-183 | The screen and modes after any stream are what its completed sequences, each taken whole and in order, make of the power-on state; only sequences over 64 bytes are passed over, and nothing else in the stream matters. |
| Tracker.WriteModeSequence | vt/vt.go:347-358 | A mode sequence, written to a terminal in any state, sets or resets exactly that mode. |
| Tracker.ListIsEach | vt/vt.go:197-218 | A list of private modes, written to a terminal in any state, leaves it as one sequence for each parameter, written one after the other, would; parameters that are no numbers change nothing in either. |
| Tracker.ListedModes | vt/vt.go:197-218 | Behind a list of modes that fits in 64 bytes a tracked mode is set exactly if it is listed and the list sets, or not listed and set before; the alternate screen is active exactly if the list sets and names 47, 1047 or 1049, or names none of them and it was active before. |
| Tracker.ModeSequencesAgree | vt/vt.go:338-345 | One terminal's mode sequences give any other terminal exactly its tracked modes and leave the screen alone. |
| Tracker.ShiftToggles | vt/vt.go:108-114 | The toggles of the rest of a write are the write's own, shifted. |
| Tracker.Terminal.ResetModes | vt/vt.go:87-94 | Power-on: primary screen, only the cursor shown. |
| Tracker.Terminal.Write | vt/vt.go:101-106 | The emulator gets exactly these bytes and the tracker follows them. |
| Tracker.Terminal.WriteUntilScreenSwitch | vt/vt.go:115-120 | Stops right behind the first byte that toggles the screen and at no other, reports where its sequence began, and feeds the emulator exactly the consumed bytes. |
| Tracker.Terminal.WriteBody | vt/vt.go:124-173 | The shared loop, with its piecewise flushes, does both. |
| Tracker.Terminal.Consume | vt/vt.go:144-166 | One byte's turn: what it collects, what it completes, whether that toggled the screen. |
| Tracker.Terminal.TrackSequence | vt/vt.go:180-219 | A completed sequence is a reset, a list of private modes applied left to right, or nothing; the result says whether the screen changed. What a list does is `Tracker.ListIsEach` and `Tracker.ListedModes`. |
| Tracker.Terminal.ParseModeParam | vt/vt.go:236-248 | One to five digits give their decimal value, leading zeros or not; -1 means exactly that the parameter is empty, longer, or not all digits. |
| Tracker.Terminal.ModeSequences | vt/vt.go:348-358 | One sequence per tracked mode, as it is set. |
| Tracker.Terminal.WriteByScreens | attachmodels.go:201-225 | Taking a write from toggle to toggle until it is used up leaves the terminal where one plain write would, and the stops are all of its toggles. |
| AttachProtocol.StepKeepsInv | daemon/attach.go:76-252 | Every step of the protocol, in whatever order they come, keeps the invariant that ties each client's wire items to the rendered stream. |
| AttachProtocol.RunTiles | daemon/attach.go:76-86 | In every run whose snapshots succeed: a client's latest snapshot and the output behind it carry exactly the rendered bytes between its position and what was fanned out to it, no gap and no duplicate; positions only move forward; between blocks an attached client was given everything. |
| AttachProtocol.RunTilesAgain | daemon/attach.go:219-229 | In every run, also with failing snapshots, a client whose last overflow succeeded tiles from that snapshot on. |
| AttachProtocol.RunTilesIff | daemon/attach.go:219-231 | In every run of non-empty blocks, with whatever snapshots failing, a client was sent or is due everything fanned out to it if and only if its last overflow was answered by a snapshot. |
| AttachProtocol.OverflowTilesIffSnapshot | daemon/attach.go:219-228 | An overflow leaves a client in step with the stream if and only if its snapshot succeeded. |
| AttachProtocol.RoomMeansNoResync | daemon/attach.go:216-232 | In every run, whatever happens to others: a client whose queue always had room gets one snapshot and behind it exactly the stream, byte for byte, and is never resynced. |
| AttachProtocol.OnlySnapshotsTakeBack | daemon/attach.go:216-232 | What was sent or queued for a client is taken back by nothing but a snapshot offered to it that succeeds; over any other stretch of any run its items only grow at the end. |
| AttachProtocol.RunBoundsBacklog | daemon/attach.go:15-19 | A client's queue never exceeds 1024 frames and its two control frames, in any run. |
| AttachProtocol.ShownIsScreen | vt/vt.go:289-296 | A terminal that received a tiling list of output and of snapshots taken between sequences is the session's terminal at the list's position, also when the last block stops inside a sequence. |
| AttachProtocol.ClientShowsThePast | daemon/attach.go:150-171 | In every run in which only the last block, the final flush, may stop inside a sequence: after each frame it received, up to a snapshot taken inside that sequence, a client shows the session's own terminal at some position, and the position never moves backwards; a frame in flight at an overflow only lags. |
| AttachProtocol.AlignedRunSnapshots | daemon/daemon.go:368-372 | While every block ends at ground every snapshot sent was taken at ground, so the previous row covers all frames. |
| TrackerEmulator.TrackedScreenIsLawful | vt/vt.go:289-296 | For the active screen and the tracked modes the protocol's hypotheses about an emulator are met: writes compose, and the snapshot with its clears, its renderings of one or both screens, its switches and its mode sequences restores both on any terminal between sequences. |
| TrackerEmulator.ClientTracksThePast | vt/vt.go:289-296 | So the screen and modes a client tracks after each frame are the session's at its position; of the emulator only that its renderings draw is assumed. |
| AttachProtocol.FinishedClientIsComplete | daemon/attach.go:172-177 | A client whose writer finished received the whole stream, then exactly one Ended, and nothing behind it. |
| AttachProtocol.DrainDelivers | daemon/attach.go:191-194 | Once Ended is queued, a writer that is neither closed nor failing needs only its own steps to send everything up to and including Ended, and stops; at most size requests are left behind it. |
| AttachProtocol.DrainRuns | daemon/attach.go:140-179 | Those steps of one client's writer are a run of the whole session, which leaves everyone else as they are. |
| AttachProtocol.ToldClientIsServed | daemon/attach.go:191-208 | From wherever a run has got to, a client that is told the session ended, and whose writer is neither closed nor failing, can be served to the end by queuing its Ended and its own writer's steps; if snapshots succeeded, what it was sent then tiles the whole stream. |
| AttachProtocol.BroadcastReachesAll | daemon/attach.go:195-208 | When the broadcast is over, everyone attached at its capture was told, in any interleaving. |
| Attachers.Attacher.SignalClose | daemon/attach.go:50-55 | Closes the queue and changes nothing else of it. |
| Attachers.Attacher.EnqueueFrame | daemon/attach.go:184-189 | A control frame goes behind everything queued, uncounted. |
| Attachers.Attacher.DeliverOutput | daemon/attach.go:216-232 | The protocol's delivery step: appended below the cap; at the cap the backlog is replaced by a snapshot, or left as it is if that fails. |
| Attachers.Attacher.AttachWriter | daemon/attach.go:135-179 | Whatever others queue, deliver or close whenever the lock is free: what happens to the client are steps of the protocol, in order, and the loop ends, by waiting with nothing more to come, being closed, failing (only when the connection takes no more writes) or having sent Ended, as the protocol's writer does; each accepted write is one frame. Undisturbed, it sends the first snapshot, a pending one, then the backlog up to and including Ended; a failing connection gets a prefix of that, and a client told to stop nothing behind the first snapshot. |
| Attachers.Attacher.Turn | daemon/attach.go:140-178 | One turn: wait, take an item under the lock, write it without; the same of one item. |
| Attachers.Attacher.Send | daemon/attach.go:167-177 | A write ends the client's sending step, as sent, as failed or, for Ended, as finished, with others' steps before it. |
| Attachers.EventsAreSteps | daemon/attach.go:76-252 | Every event of the session is, to each of its clients, such a step or nothing, so the protocol's runs are the interleavings that the code goes through. |
| Attachers.Attacher.TakeOne | daemon/attach.go:150-167 | Takes what the protocol's dequeue step gives: a pending snapshot before the backlog. |
| Attachers.Clients.Fanout | daemon/attach.go:237-252 | Every attached client makes its delivery step with the same bytes, and nobody else changes. |
| Attachers.Clients.EndAttachers | daemon/attach.go:195-208 | Every attached client gets one Ended, behind everything queued for it. |
| Retention.CutIsUnique | scrollback/store.go:279-282 | "The largest boundary not exceeding the target, else the next beyond it" determines the cut. |
| Retention.CutIsStable | scrollback/store.go:286-303 | More input behind the buffer does not change where it is cut, except a cut at its very end before a stray continuation byte. |
| Retention.ProcessKeepsStream | scrollback/store.go:253-272 | Cutting, routing and evicting never lose, duplicate or reorder a byte, and never rewrite a chunk that was cut. |
| Retention.ProcessCuts | scrollback/store.go:253-282 | What a batch adds to the log are exactly the documented cuts of the buffered bytes, one after the other, each near the chunk size or near what the head still lacks, until too few are left or none is to be found. |
| Retention.SplitAgreesIff | scrollback/store.go:286-289 | Feeding a stream in two batches and in one leave the same chunks and the same buffer if and only if the first batch did not end on a chunk end with a stray continuation byte behind it. |
| Retention.StrayDiverges | scrollback/store.go:286-289 | In that case the chunks themselves differ. |
| Retention.StrayWitness | scrollback/store.go:286-289 | With chunks of four bytes, "abcd" and then a stray byte leave the chunk "abcd"; both at once leave "abc". |
| Retention.BeyondIsUnsplittable | scrollback/store.go:298-301 | A cut beyond the target has no boundary before it. |
| Retention.ProcessKeepsWf | scrollback/store.go:253-361 | After every batch: the tail is empty until the head is sealed, the head overshoots its size only by a chunk that cannot be divided, all chunks begin and end at ground, dropping the oldest of several tail chunks would go below `tailSize`, and nothing more can be cut. |
| Retention.ChunkEndsAreGround | scrollback/store.go:276-282 | Although each cut starts a fresh scanner, every chunk end, the split between head and tail and the front of what is evicted are ground positions of one scanner over the whole stream. |
| Retention.BatchingIsInvisible | scrollback/store.go:226-304 | On a stream in which no rune begins with a continuation byte, the retained state is a function of the stream, however it was cut into batches. |
| Retention.StreamIsCut | scrollback/store.go:253-282 | However such a stream was batched, it falls, from its first byte, into exactly the documented cuts. |
| Retention.TailIsSuffix | scrollback/store.go:175-183 | What a snapshot keeps behind the head is a suffix of the stream that starts at a ground position and has at least `tailSize` bytes, or all there are; no shorter suffix that starts where a stream may be cut has as many. |
| Retention.SealedSnapshot | scrollback/store.go:166-196 | With the head sealed, a snapshot is a verbatim prefix of at least `headSize` bytes, a notice exactly when bytes are missing, naming how many, and a verbatim suffix of at least `tailSize` bytes or everything behind the head, the shortest one that starts where the stream may be cut; both edges are ground positions; and it is the stream itself whenever at most `tailSize` bytes follow the head. |
| Retention.PlainTailIsExact | scrollback/store.go:175-196 | Of plain text that is prefix, notice and the last `tailSize` bytes exactly. |
| Retention.UnsealedSnapshot | scrollback/store.go:178-183 | Before the head is sealed a snapshot is the stream if and only if nothing of the buffer is trimmed (or the notice spells exactly what is). |
| Retention.UnsealedPrefix | scrollback/store.go:3-5 | Before the head is sealed a snapshot begins with the first `headSize` bytes, or all there are, if and only if nothing was trimmed behind the sealed chunks (or notice and tail spell what was); and nothing is trimmed if and only if no cut lies more than `tailSize` bytes before the end. |
| Retention.UnsealedPrefixIsLost | scrollback/store.go:178-183 | Six bytes with a head of ten and a tail of two: the beginning is lost. |
| Retention.TruncationBlockAligned | scrollback/store.go:417-430 | The notice begins and ends at ground, so the tail behind it is read from ground. |
| Retention.TruncationBlockResets | scrollback/store.go:404-430 | Whatever state the head left a terminal in, behind the notice it is on its primary screen with power-on modes. |
| ScrollbackStore.Backend.Put | scrollback/backend.go:69-69 | In memory the caller's own array is kept and putting never fails, on disk a copy, unless a file operation fails; either way under a new handle, beside what is already held. |
| ScrollbackStore.Backend.Get | scrollback/backend.go:71-77 | A held handle reads as what was put under it; it fails only for a handle that is not held or on a failing file operation, in memory never for a held one. |
| ScrollbackStore.Backend.Drop | scrollback/backend.go:79-79 | On disk only the dropped handle is gone, or, on an error, nothing; in memory nothing is held to be released and dropping never fails. |
| ScrollbackStore.Store.Write | scrollback/store.go:130-145 | Accepted bytes join the stream and the pending bytes; a closed store takes and counts nothing. |
| ScrollbackStore.Store.Unlocked | scrollback/store.go:322-328 | While the lock is free others write and close: accepted is what was written before the store was closed, and conservation holds throughout. |
| ScrollbackStore.Store.BoundaryCut | scrollback/store.go:283-304 | The loop finds the unique cut near the target, or -1 when there is none. |
| ScrollbackStore.Store.Rest | scrollback/store.go:317-319 | The bytes behind the cut are in a fresh array, since the backend may keep the old one. |
| ScrollbackStore.Store.FlushChunk | scrollback/store.go:314-349 | The flush step, although the lock is free while the chunk is encoded and stored and others write meanwhile: conservation holds there too, no array kept by the backend is written, and a refused chunk leaves a lasting error, which arises from nothing else: in memory, or while no file operation fails, there is none. |
| ScrollbackStore.Store.RecordChunk | scrollback/store.go:340-348 | A stored chunk goes to the head while that is filling, to the tail thereafter, and eviction follows. |
| ScrollbackStore.Store.EvictChunks | scrollback/store.go:353-361 | Drops exactly the oldest tail chunks whose removal leaves `tailSize` bytes, never the last one. |
| ScrollbackStore.Store.ProcessBatch | scrollback/store.go:253-272 | Ends, because each flush shortens the buffer; without an error the result is the batch fed to the retained state, whatever was written meanwhile. |
| ScrollbackStore.Store.Drain | scrollback/store.go:226-246 | However others write to the store, or close it, during the drain: when nothing is pending and there is no error, the retained state is well formed, holds the whole accepted stream, and on a stream without stray continuation bytes equals the function of that stream, whatever the batches, compression fallbacks and backend. An error arises only from a failing file operation, so in memory all of this holds without exception. |
| ScrollbackStore.Store.DecodeChunks | scrollback/store.go:365-385 | Without an error, the raw bytes of the chunks; an unreadable chunk is skipped and the error sticks; in memory there is none. |
| ScrollbackStore.Store.TakeSnapshot | scrollback/store.go:166-196 | Without an error, and in memory there is none, the snapshot of the retained state. |
| ScrollbackStore.BoundaryTrim | scrollback/store.go:393-402 | The tail is trimmed at the largest acceptable position up to the wanted one; the fallback is never reached. |
| OuterTerminal.ShowPiece | attachmodels.go:52-72 | Each sequence the client writes by itself has the stated effect on screen, tracked modes and scroll region: from any state, even inside another sequence, if it begins with ESC, else from ground. |
| OuterTerminal.ShowPieces | attachmodels.go:352-367 | A list of them has exactly their effects, one after the other. |
| OuterTerminal.SameTrack | attachmodels.go:337-343 | Terminals that agree still agree after being fed the same bytes. |
| ClientPieces.ResetEffects | attachmodels.go:56-60 | Turns off the seven input-reporting modes and nothing else. |
| ClientPieces.CleanupEffects | attachmodels.go:62-67 | Input modes off, cursor shown, scroll region released, screen kept. |
| ClientPieces.PaintEffects | attachview.go:142-171 | A repaint leaves modes and screen alone and the scroll region confined exactly if a line is reserved. |
| ClientPieces.RepaintEffects | attachmodels.go:325-326 | Gives the physical terminal the model's tracked modes, and nothing else. |
| ClientPieces.SnapshotEffects | vt/vt.go:297-336 | Gives it the model's active screen too, from any prior screen. |
| ClientPieces.FinalScreenEffects | client_attach.go:208-217 | Primary screen, scroll region released, modes kept. |
| Canvas.PaintDraws | attachview.go:142-171 | Whatever the screen showed, behind a repaint it shows the given rendering from the first row of a cleared screen, and the hint on the row below the session's exactly if a line is reserved. |
| Canvas.RepaintDraws | attachmodels.go:325-326 | A native repaint leaves nothing but the given rendering. |
| Canvas.SnapshotDraws | vt/vt.go:297-336 | A snapshot leaves nothing but the rendering of the screen the session is on. |
| Canvas.FinalScreenDraws | client_attach.go:208-217 | The restored screen is scrolled away before the session's last one is printed from the first row. |
| Canvas.HintOverlays | attachmodels.go:384-387 | The hint is drawn over what stands there and takes nothing of it away. |
| Canvas.DrawnIsWritten | attachmodels.go:352-367 | What counts as drawn was written: the bytes of every piece stand, whole and in order, in what reaches the terminal. |
| View.Model.WriteUntilScreenSwitch | attachmodels.go:206-206 | The model takes the bytes up to the first toggle, and its history records exactly those. |
| View.AttachView.MarkDirty | attachview.go:108-113 | Afterwards a repaint is owed. |
| View.AttachView.SetSize | attachview.go:75-80 | The new size is recorded and a repaint is owed. |
| View.AttachView.Step | attachview.go:115-138 | Wherever the painter is interrupted, the physical screen shows the rendering of the latest state, or a paint of it is on its way, or the token is set; each step is one of taking the token, reading the size, rendering and drawing, and never changes screen or modes. |
| View.AttachView.Settle | attachview.go:115-138 | Left alone, the painter catches up: it draws until nothing is owed, and the physical screen then shows the rendering of the latest state at the latest size. |
| View.AttachView.Paint | attachview.go:142-176 | Draws the rendering of the state it was given and nothing else, with the hint below it exactly if the line is reserved; leaves screen and modes alone, and scrolling confined exactly if that line is reserved. |
| View.AttachView.Close | attachview.go:85-105 | Waits for a paint in flight and flushes one that is owed: the physical screen then shows the rendering of the latest state at the latest size. A second call does nothing. |
| Presentation.AttachModels.constructor | attachmodels.go:112-144 | A new attachment, started, is valid in each of its modes. |
| Presentation.AttachModels.EnterIsolated | attachmodels.go:149-159 | The physical terminal is on its alternate screen, cleared, with its modes unchanged; a view paints it, and the height advertised leaves room for the hint. |
| Presentation.AttachModels.Meanwhile | attachview.go:115-138 | Any number of painter steps beside the code that holds the lock leave screen and modes alone and lose no repaint that is owed. |
| Presentation.AttachModels.LeaveIsolated | attachmodels.go:265-282 | The view is stopped, the physical terminal is back on its primary screen with the scroll region released, and the full height is advertised. |
| Presentation.AttachModels.FollowActiveScreen | attachmodels.go:235-259 | In auto mode the presentation is isolated exactly if the session is on its alternate screen, with input modes withdrawn on the way; other modes never switch; reports whether the advertised height changed. |
| Presentation.AttachModels.EnterNative | attachmodels.go:352-367 | Happens once, from any state of the physical terminal: scrolls away what was on it and homes the cursor, and changes neither screen nor modes nor scroll region. |
| Presentation.AttachModels.ShowNativeHintOnce | attachmodels.go:374-388 | The hint is written at most once, on the first row the session has not used or the last there is, over what stands there, and changes neither screen nor modes. |
| Presentation.AttachModels.PresentFromModel | attachmodels.go:286-308 | After a repaint from the model the terminals agree if and only if the model is not inside a sequence, or the presentation is isolated; a native screen then shows the model's rendering, and the hint if it was due, and nothing else. |
| Presentation.AttachModels.PresentRaw | attachmodels.go:331-346 | Forwarded bytes reach the physical terminal unchanged, behind what stood there; an entered terminal follows them byte for byte, and behind the first ones it agrees with the model if and only if the hint did not cut them off inside a sequence. |
| Presentation.AttachModels.ApplyOutput | attachmodels.go:174-226 | For any frame, at any state: the model takes all of it and exactly it; session and physical terminal agree afterwards, wherever in the frame the session switched screens, if and only if the client did not cut off a sequence the frame stopped in. In any case a native screen shows a rendering of the model and behind it, byte for byte, what the model was given since, with nothing but the hint over it; it is drawn anew by the frame that decides the presentation, a snapshot or a switch, and by nothing else. A changed height is reported, and nothing is without one or a switch. |
| Presentation.AttachModels.Resynchronize | attachmodels.go:177-190 | A first frame or a snapshot is presented from the model, under the presentation that its screen asks for. |
| Presentation.AttachModels.PresentByScreens | attachmodels.go:206-225 | The loop over a frame's switches keeps the agreement, also for a switch split across frames. |
| Presentation.AttachModels.PresentUntilSwitch | attachmodels.go:206-224 | One turn: bytes before the switch under the old presentation, the switch replaced by the client's own; the screen is drawn anew only at a switch. |
| Presentation.AttachModels.Transition | attachmodels.go:216-223 | Behind a switch the other presentation takes over, and the terminals agree. |
| Presentation.ForwardedBefore | vt/vt.go:108-114 | What is forwarded before a switch leaves the physical terminal on the screen it was on. |
| Presentation.AttachModels.ApplyResize | attachmodels.go:410-434 | A zero size changes and advertises nothing; any other is adopted and the advertised height is the session's, with no effect on either terminal's modes. |
| Presentation.AttachModels.Finish | attachmodels.go:453-476 | From any valid state, Detached, SessionEnded and Disconnected leave the physical terminal on its primary screen, scrolling fully, cursor shown, input modes off. Aborted leaves it on the primary screen, and clean if and only if the presentation was not isolated, or no line was reserved and the cursor was shown. What is then on the screen is stated too: what native presentation left, without the hint, or, of an ended or disconnected isolated one, the session's last screen below what there was before it; and unless aborted the outcome below that. |
| Presentation.AttachModels.FinishIsolated | attachmodels.go:482-530 | That, for the isolated presentation, with or without native output before it. |
| Presentation.AttachModels.FinishNative | attachmodels.go:536-573 | That, for the native one, also if the session is on its alternate screen or inside a sequence. |
| Presentation.Attach | attachmodels.go:149-346 | In every error-free run of frames as the daemon sends them and of resizes, in any mode, with the painter taking its steps at any time, also while a frame or a resize is being applied: auto is on the alternate screen exactly while isolated and exactly while the session is; input modes are off while isolated; modes agree while native, and the screen shows a rendering of the model and byte for byte what followed it; while isolated it shows the model's rendering or a paint is owed; the height is the one to be advertised; and the model has taken exactly the frames. |
| Presentation.CutSequenceDiverges | attachmodels.go:177-191 | A snapshot that stopped inside a sequence would not be recovered from: the terminals then disagree about mode 1000. |
| DetachKey.ParseDecimal | ctrlkey.go:81-89 | Reads the longest run of digits, as a number that wraps at 32 bits. |
| DetachKey.NumberOfDigits | ctrlkey.go:81-89 | Any number, whatever zeros lead it, is read back modulo 32 bits. |
| DetachKey.HeldIffLocks | ctrlkey.go:45-55 | Of the modifiers exactly those count that differ from the wanted ones by caps lock, num lock and whatever lies above them. |
| DetachKey.KeypressWithMod | ctrlkey.go:27-77 | Decides the parser's positions-based description of a key. |
| DetachKey.KeypressIsSpelled | ctrlkey.go:21-26 | The parser accepts a buffer if and only if it begins with a spelling, in the documented grammar, of that key with exactly those modifiers, pressed or repeated. |
| DetachKey.KeypressExtends | ctrlkey.go:21-77 | What follows a key does not unmake it. |
| DetachKey.IsCtrlBackslash | ctrlkey.go:9-19 | Decides whether a detach key occurs anywhere in a buffer. |
| DetachKey.DetachExtends | ctrlkey.go:6-8 | A detach key stays one whatever comes before and after it. |
| DetachKey.CtrlBackslashPrefix | ctrlkey.go:140-160 | Holds back exactly the beginnings of `ESC [ 92`, and anything behind `ESC [ 92 :` or `ESC [ 92 ;`. |
| DetachKey.HeldIffBegins | ctrlkey.go:136-139 | Held back are exactly the fragments whose first five bytes, or all there are, begin some key whose code is spelled `92`. |
| DetachKey.CtrlBackslashSuffixLen | ctrlkey.go:123-134 | What is held back starts at the last escape, if that may grow, and is nothing otherwise. |
| DetachKey.BeginningMayGrow | ctrlkey.go:136-139 | Every proper beginning of a key whose code is spelled `92` is held back, and its escape is the only one. |
| DetachKey.HeldIffLiteral | ctrlkey.go:99-102 | Every proper beginning of a detach key is held back if and only if its code is spelled `92`. |
| DetachKey.OtherSpellingsAreMissed | ctrlkey.go:103-117 | Every detach key whose code is spelled otherwise, with leading zeros or a number that wraps to 92, has a split that hides it: whole it is one, but its first part is forwarded at once and nothing is left for the second to complete. |
| DetachKey.FeedMissesNothing | ctrlkey.go:95-117 | A read in which no key was reported leaves none overlooked: none is in the input, and none still being typed began in forwarded bytes. |
| DetachKey.FeedWithholds | ctrlkey.go:103-111 | When a key is reported, nothing of any key in the input was forwarded. |
| DetachKey.LeadingZeroIsMissed | ctrlkey.go:149-159 | One of them: split behind `ESC [ 0`, a key spelled `092` is missed. |
| DetachKey.DetachScanner.Feed | ctrlkey.go:106-117 | Reports a key exactly if one is in the held-back bytes and the read; else forwarded plus held back are those bytes, in order. |
| DetachKey.DetachScanner.Flush | ctrlkey.go:167-171 | Gives up everything held back. |
| AttachInput.AttachInput.Take | client_attach_input.go:76-107 | A read's bytes are forwarded, held back or recognised, the last exactly if a key is in them behind what was held back; an end of the input releases what is held back; another error is returned. |
| AttachInput.AttachInput.Expire | client_attach_input.go:71-75 | When its time runs out a lone escape is forwarded, and only that one may no longer begin a key. |
| AttachInput.AttachInput.Run | client_attach_input.go:15-111 | For any reads and timeouts: until a detach, sent plus held back are the input in order; a control byte, or a key spelled `92` whose escape was not given up on, is reported at the read that completes it, since none was whole in the reads before, and with none of its bytes sent; an escape is given up on only if it was the last byte read when its time ran out; a detach is reported only if a key is in the input, once, and behind a prefix of the input; at the end of the input everything was sent. It ends at the first read with a key or an error and says which: an end of the input is no error, any other is returned as it is, and a failure beside a detach is reported unless it is an end or a shutdown; while it waits, a lone escape whose time ran out is not held back. |
| Frame.RoundTrip | daemon/frame.go:41-75 | A frame, whatever follows it, is read back if and only if its payload is at most 16 MiB; the length's wrap at 32 bits is part of it. |
| Frame.WordIsBigEndian | daemon/frame.go:42-46 | A length is written with its most significant byte first, modulo 32 bits, and no other four bytes stand for it. |
| Frame.TruncatedStream | daemon/frame.go:57-75 | However many frames were written and wherever their stream ends, reading returns exactly the frames that are whole, in order, then an error; which one is determined by where in a frame it ended. |
| Frame.StreamRoundTrip | daemon/frame.go:41-75 | A whole stream reads back as the frames that were written, then a clean end. |
| Frame.Pipe.ReadFull | daemon/frame.go:60-73 | Fills the buffer from short reads or reports how the stream ended. |
| Frame.WriteFrame | daemon/frame.go:42-55 | A frame goes out whole, or the write fails and what went out is as much of its beginning as there was room for. |
| Frame.FailedWriteIsNoFrame | daemon/frame.go:41-75 | A reader of the connection gets the frames that were written whole, then an error, never part of the one whose write failed. |
| Frame.ReadFrame | daemon/frame.go:58-75 | Consumes and returns what decoding the stream gives. |
| Frame.EncodeResize | daemon/frame.go:78-83 | Four bytes, rows first. |
| Frame.ResizeBijection | daemon/frame.go:77-95 | Sizes and four-byte payloads correspond one to one, rows before columns and high bytes first; any other payload is malformed. |
| InputQueue.Session.QueueInput | daemon/daemon.go:451-467 | A payload joins the queue whole, or, if it is empty, does not fit the cap, or the session is ending, not at all. |
| InputQueue.Session.WriteQueued | daemon/daemon.go:420-443 | What the PTY took moves from the queue's front to what is written, while what others queued during the write stays behind it; the write is whole exactly if it took all there was without an error, and a short or unexpectedly failed one is recorded. |
| InputQueue.Session.Written | daemon/daemon.go:428-443 | What a write took leaves the queue's front, in order, and nothing else does. |
| InputQueue.Session.PumpInputTo | daemon/daemon.go:411-449 | Whatever others queue and whenever: what the PTY got is what its writes took of the accepted payloads, in order. The pump stops exactly for a write that failed or was short, all before it having been whole; it drains exactly the accepted bytes when the session has ended; it waits only with nothing to write or no write to come. With writes to spare nothing accepted stays unwritten unless one fails. The queue, with what is being written, stays within 256 KiB. |
| AttachErrors.WithoutExpectedShutdownErrors | client_attach.go:177-206 | Computes the pruned tree, level by level. |
| AttachErrors.WithoutAttachDetached | client_attach.go:146-162 | Computes the tree without the detach request. |
| AttachErrors.PruningKeepsTrails | client_attach.go:177-206 | A leaf is pruned exactly if it is a shutdown, or an end of stream and the flag says so; any other stays, inside the wrappers it was in. |
| AttachErrors.PruningKeepsLeaves | client_attach.go:177-206 | Of any tree, pruning keeps exactly the unexpected leaves, in order. |
| AttachErrors.NothingLostIffSolid | client_attach.go:191-196 | It keeps every unexpected failure if and only if no wrapper in the tree is empty. |
| AttachErrors.NilIffAllExpected | client_attach.go:177-206 | And is then nil if and only if every failure was expected. |
| AttachErrors.EmptyWrapperIsLost | client_attach.go:191-194 | An empty wrapper is an error, and is dropped. |
| AttachErrors.UndetachingKeepsTheRest | client_attach.go:146-162 | Taking out the detach request takes out nothing else, and leaves nil exactly if there was nothing else; one inside a wrapper stays. |
| AttachErrors.Workers.Select | client_attach.go:399-422 | The first result stands as it is, or is pruned behind the context's error. |
| AttachErrors.Workers.JoinWorkerError | client_attach.go:424-429 | Adds what pruning leaves, behind what is there. |
| AttachErrors.Workers.Collect | client_attach.go:395-467 | On every path the frame and input results are received exactly once, a resize error once if there is one, and the result holds exactly, in order, what the flag used for each of them leaves. |
| AttachErrors.UnexpectedSurvive | client_attach.go:424-466 | Every leaf unexpected under the flag used for its worker is in the result. |
| AttachErrors.OnlyUnexpectedSurvive | client_attach.go:395-466 | And nothing else is: every leaf of the result is the context's, or a worker's that its flag does not expect; only what was selected while nothing was shutting down stands unpruned. |
| AttachErrors.DetachSucceeds | client_attach.go:464-465 | A detach is success for the caller in whichever order the request and the end of the stream were seen. |
| AttachErrors.Conclude | client_attach.go:94-141 | The caller sees what the workers and the deferred cleanups reported, without the detach request, and behind it a failure to close the stream that the shutdown does not explain; nil if and only if there is neither. |
| AttachErrors.CloseFailureKeeps | client_attach.go:94-101 | Of the close error exactly the leaves that the shutdown does not explain are kept; an end of stream is not explained by it. |

## Left out

- Rendering: the emulator behind `vt/vt.go` is a function of what it was given. That a snapshot replays onto any terminal, and that a rendering contains no screen or mode switch and stops between sequences, are hypotheses (`AttachProtocol.Lawful`, `View.Draws`); `TrackerEmulator` meets the first for the part that is tracked.
- `Terminal.Snapshot`'s cursor sampling, `writtenRows` and `CursorY`: they depend on the emulator's internals. `writtenRows` is an arbitrary function of the history.
- AttachProtocol.RunTiles: an overflow whose snapshot fails drops the block without a resync, so success is a hypothesis; `RunTilesIff` does without it.
- AttachProtocol.ClientShowsThePast: says nothing of frames behind a snapshot taken inside a sequence, which only the final flush can bring about: replaying it is not what the emulator promises.
- TrackerEmulator.ClientTracksThePast: is about the active screen and the tracked modes, not about what the screens show.
- AttachProtocol.BroadcastReachesAll: clients that pass the ended check but register after the broadcast captured its targets are not told.
- The grace periods of `run` and the order of its goroutines' exits.
- The effective PTY size: it is computed under one lock and applied outside of it, so concurrent callers may apply in either order.
- OutputPump.Pump: the terminal accepts every write, as `vt.Terminal.Write` does.
- Tracker.Terminal.ResetModes: the saved primary cursor, a sample of the emulator's own cursor, is not part of the tracked state.
- Tracker.Terminal.TrackSequence: for the same reason neither is its sampling and clearing.
- ScrollbackStore.Store.Drain: stated without an error, since a chunk that a failing file refuses is lost; compression is a codec whose decoding undoes its encoding. Pending bytes are a value, not an array.
- Retention.BatchingIsInvisible: needs a stream without stray continuation bytes; `SplitAgreesIff` is the exact condition for two batches.
- ScrollbackStore.Backend: a file's content is a value; directories and paths are left out.
- Retention.TruncationBlock: the size's human-readable form is an arbitrary function of it.
- Presentation.AttachModels.EnterIsolated: write and resize errors end the run in the source and are left out.
- Presentation.AttachModels.LeaveIsolated: so are those joined when the view is closed.
- Presentation.AttachModels.FinishIsolated: write and rendering errors are left out; what the source collects in one string appears as several writes.
- Presentation.AttachModels.FinishNative: likewise.
- Titles and pen colours: they have no effect on what is modelled of the physical terminal, so no claim is made about them.
- Canvas: records renderings, texts and forwarded bytes with their rows, not the cells they end up in.
- OuterTerminal.Region: margins in a control sequence of more than 64 bytes are not seen, as the tracker does not see modes there.
- View.AttachView.Step: the pause between paints has no length, and paints do not fail.
- AttachInput.AttachInput.Run: sending never fails; in the source a failed send ends the loop.
- DetachKey.HeldIffLiteral: what is held back beyond beginnings of such keys is what `CtrlBackslashPrefix` states; it may never become a key.
- AttachErrors.Workers.Collect: a view error that arrives after another result was selected is never read, in the source as here.
- AttachErrors: an error is expected by its kind; custom `Is` methods are left out.
- Command line, JSON handshake, process spawning, file locks, signals, SSH transport, retention files and platform terminal reads: plumbing around the parts modelled.
- scanDeviceAttributes: keeps no state across reads.
