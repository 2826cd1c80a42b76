# A verified model of the player's hard state

The player is a desktop client for a streaming service. This project models its stateful cores and proves what they
keep, over all inputs, all runs and all interleavings:

- **Play queue** (`Prelude`, `Shuffle`, `QueueModel`, `QueueInvariants`, `QueueRows`, `QueuePlay`,
  `QueueOutcomes`, `Queue`): a cursor over a context list, a first-in-first-out play-next block, a shuffle order, repeat modes and a bounded history. The
  displayed order is proved to be the order that playing follows.
- **Decoded store** (`StoreModel`, `DecodedStore`, `StoreCompletion`, `DecodeAhead`, `DecodeProgress`, `PeakFold`,
  `StoreRace`): a chunked append-only cache of decoded samples, its out-of-order writer, its lock-free readers and the waveform folded from it.
- **Real-time feed** (`RtModel`, `LiveFill`, `RtSource`, `FrameClock`, `Retirement`): the audio callback that switches
  between ring and store, the two frame clocks that markers are timed by, and the hand-over of stores between threads.
- **Search session** (`RequestIds`, `Backoff`, `SearchModel`, `SearchInvariants`, `SearchProperties`, `SearchTraffic`,
  `SearchOutcomes`, `Search`): debounce, generations, paging, rate-limit retries and going offline over shared packed request ids.
- **Rate limiter and gateway** (`LimiterModel`, `Gateway`): per-category sliding windows against the full history of
  admissions.
- **Account session** (`Refresh`, `AccountModel`, `AccountProperties`, `AccountConditions`,
  `AccountOutcomes`, `AccountSession`): attempt-tagged worker results, sign-out, revocation and refresh scheduling.
- **Biquad filters** (`Biquad`) over the reals, and the **URL encoder and callback decoder** (`UrlCodec`).

Each object that updates its fields is a class whose methods are tied by `ensures` to a function on a value of its
fields (`Value()`); what the object promises is proved about those functions. The protocols between threads
(`StoreRace`, `FrameClock`, `Retirement`) are state machines whose runs are arbitrary sequences of atomic steps.

What the outside world does is a parameter: the numbers a generator draws, the clock, the packets a decoder delivers,
the listener's outcome, the answers of workers, servers and the secure store. Times are integers that may take any
value, except that the limiter's clock is assumed not to go back. A page reply of the search service is assumed to carry
at most the one group that was asked for and to call nothing unsupported; the combined reply may carry anything.

## Where the code does not do what is said of it

The code is modelled as it stands. Each of these is a lemma with a concrete state or an exact condition.

- `queue.rs`: a reordering made while shuffle is on keeps every row listed once only if no shuffled row to come sits at or
  before the cursor (`QueueRows.ReorderKeepsRowsDistinct`). At cursor index 0 with shuffle off, taking the row at index 0
  out of a longer context skips the next row (`QueueRows.PlayNextUpcoming`, `QueueRows.RemoveUpcoming`). The cursor can be
  left at 0 in an empty context, and turning shuffle on then panics (`QueueInvariants.PanicsExactlyWhenStranded`). A queue
  started by `add_context` with shuffle on lists its current row again (`QueueRows.AutoStartRepeatsCurrent`).
- `lib.rs` and `rt.rs` call a full retirement ring unreachable. It is unreachable with 65 slots only if the callback's pop
  and retirement are one step; taken separately 66 are needed (`Retirement.NeverFullIff`).
- `decoded.rs` says completion is refused while a slot below the length is unfilled, and that a track over the cap never
  completes. The code compares a sum, so a completed store can have a hole (`StoreCompletion.CompletingAtCoveredFrames`),
  and an over-cap track completes cut at the cap (`StoreCompletion.OverCapTrackCompletes`).
- `decode_ahead.rs`: back at a chunk that is already partly filled, as after a hint that left it and the end of the file, the
  loop seeks to the start of the chunk again and again and writes nothing more (`DecodeProgress.StuckAtPartlyFilled`,
  `DecodeProgress.PartlyFilledIsReachable`).
- `rt.rs` reports samples, not frames, as the ring's fill in frames (the `ringFillFrames` clause of
  `RtSource.ConnectRtSource.Fill`).
- Seeks make markers late and store frames on an empty ring make them early (`FrameClock.DueExactly`,
  `FrameClock.MarkersOnTimeIff`).
- `search.rs`: a successful page reply without its group leaves the group loading for the rest of its generation
  (`SearchProperties.PageReplyHangsIff`).
- `search.rs`: "Show more" pressed between an edit and the debounce appends rows of the new query to those of the old one
  (`SearchProperties.ShowMoreMixesQueries`). It asks for what is shown exactly when the edited query is still, or again,
  the one shown (`SearchTraffic.RunsAskForWhatIsShown`).
- `search.rs`: going offline forgets a page retry that is in flight, and the next page request sends its id again, so that a
  late reply is taken for the newer one; this is the only way to have one id in flight twice
  (`SearchTraffic.IdsAreReusedIffDropped`, `SearchTraffic.CollapseThenReuse`).
- `service.rs`: a sign-in started from an expired session and then failed or cancelled is signed out with the old scheduler
  still running, and its refresh writes the secure store (`AccountConditions.FailedSignInStillWrites`,
  `AccountConditions.CancelledSignInStillWrites`). What exactly must be left under way for a signed-out service to write or
  to leave `SignedOut` is `AccountConditions.SignedOutRunsActIff`; sign-out and revocation leave nothing of it
  (`AccountConditions.SignOutLeavesNothing`).
- `service.rs`: a stale tier result clears the flag that keeps tier checks to one. They stay single exactly when none is
  drained in Active or Expired while a live check is under way (`AccountConditions.ChecksAreSingle`); one drained then lets
  the next recheck add another (`AccountConditions.StaleDrainLetsTwoRun`), while in Checking a recheck is refused anyway
  (`AccountConditions.CheckingRefusesRecheck`).
- `peaks.rs` and `decoded.rs`: a short last bucket folded at an estimated length is not folded again when the length turns
  out different, and is then stale (`PeakFold.StaleIff`).
- `focus.rs`: the 16-bit id 65535 plus one wraps to "nobody", or panics in a build that checks overflow
  (`Gateway.FocusToken.SetHolder`).
- `listener.rs` decodes `%+F` as one byte, because its number parser accepts a plus sign; `UrlCodec.UnchangedIff` counts such
  an escape as readable.
- `biquad.rs` calls its kernel transposed; it is the plain direct form II, with the same output.

## Model

| member | source | states |
|---|---|---|
| Shuffle.ShuffleInPlace | crates/modplayer-core/src/queue.rs:159-164 | The in-place loop over the array leaves the shuffle of its old contents. |
| Shuffle.ShuffledPermutes | crates/modplayer-core/src/queue.rs:159-164 | For every generator the shuffled items are a permutation. |
| Shuffle.ShuffleReachesEveryOrder | crates/modplayer-core/src/queue.rs:159-164 | Every order of the items is the outcome of some sequence of draws. |
| Shuffle.DistinctDrawsGiveDistinctOrders | crates/modplayer-core/src/queue.rs:159-164 | On distinct items two different sequences of in-range draws never give the same order, so no order is favoured. |
| Shuffle.XorShiftNeverZero | crates/modplayer-core/src/queue.rs:136-156 | From any seed, zero included, the generator never reaches its fixed point at zero. |
| Shuffle.KnownOutputs | crates/modplayer-core/src/queue.rs:128-156 | The first outputs from seed one, and the seed that stands in for zero. |
| PlayQueue.Queue.constructor | crates/modplayer-core/src/queue.rs:222-235 | A new queue is empty and well formed. |
| PlayQueue.Queue.EffectiveOrder | crates/modplayer-core/src/queue.rs:307-327 | The displayed order: the current row, the play-next block, then the upcoming context rows, shuffled or natural. |
| PlayQueue.Queue.PushHistory | crates/modplayer-core/src/queue.rs:338-343 | Appends to the history and drops the oldest entry beyond 100. |
| PlayQueue.Queue.ReplaceContext | crates/modplayer-core/src/queue.rs:356-390 | A new context replaces everything; its first row becomes current; an empty one leaves an empty queue. |
| PlayQueue.Queue.ReplaceContextAt | crates/modplayer-core/src/queue.rs:398-418 | The same, starting at the given row (clamped), without a history entry for the first one. |
| PlayQueue.Queue.AddContext | crates/modplayer-core/src/queue.rs:421-461 | Appends rows, to the shuffle order too; an idle queue starts on the first of them. |
| PlayQueue.Queue.AdoptTransferContext | crates/modplayer-core/src/queue.rs:469-499 | One revealed row becomes the whole queue, driven by the source. |
| PlayQueue.Queue.Reveal | crates/modplayer-core/src/queue.rs:504-516 | Appends one revealed row. |
| PlayQueue.Queue.MoveCurrentTo | crates/modplayer-core/src/queue.rs:520-535 | Makes a context row current and takes it out of the shuffle order; an unknown row changes nothing. |
| PlayQueue.Queue.PlayNext | crates/modplayer-core/src/queue.rs:539-569 | Moves a row to the end of the play-next block, out of context and shuffle order, with the cursor decrement of the code. |
| PlayQueue.Queue.PlayNextTrack | crates/modplayer-core/src/queue.rs:573-592 | Queues a new row; an idle queue advances onto it. |
| PlayQueue.Queue.PlayNextTracks | crates/modplayer-core/src/queue.rs:597-614 | Queues several rows one by one. |
| PlayQueue.Queue.ReorderTail | crates/modplayer-core/src/queue.rs:635-666 | Moves one row of the tail by position, or nothing if the row is current, unknown or already there. |
| PlayQueue.Queue.ApplyTail | crates/modplayer-core/src/queue.rs:671-692 | Splits a new tail back into the play-next block and the context after the cursor, dropping the shuffle. |
| PlayQueue.Queue.Remove | crates/modplayer-core/src/queue.rs:696-732 | Removes a row wherever it is; removing the current one advances. |
| PlayQueue.Queue.SetShuffle | crates/modplayer-core/src/queue.rs:736-758 | Turning shuffle on draws an order of the rows after the cursor; off drops it. |
| PlayQueue.Queue.SetRepeat | crates/modplayer-core/src/queue.rs:760-770 | Changes the repeat mode. |
| PlayQueue.Queue.Advance | crates/modplayer-core/src/queue.rs:776-854 | The whole new state and report of one call, for every reason, repeat mode, shuffle state and generator. |
| PlayQueue.Queue.SkipBack | crates/modplayer-core/src/queue.rs:889-925 | The whole new state and report of one step back through the history. |
| PlayQueue.Queue.MarkUnavailable | crates/modplayer-core/src/queue.rs:929-955 | Marks every row of a track and moves on if it is the current one. |
| PlayQueue.Queue.WrapPreview | crates/modplayer-core/src/queue.rs:962-985 | The track order a wrap would play, if there is one to preview. |
| QueueModel.RewoundNames | crates/modplayer-core/src/queue.rs:793-853 | Rewinding a non-empty context always leaves a next row, so the inner loop of advance runs at most twice. |
| QueueInvariants.StepSafe | crates/modplayer-core/src/queue.rs:356-985 | Every call keeps the cursor in range (or stranded), shuffle ids inside the context, history within 100, play-next rows in their block, and issued ids below the next one. |
| QueueInvariants.RunSafe | crates/modplayer-core/src/queue.rs:338-343 | In every run from a safe queue all of that holds; in particular history never exceeds 100. |
| QueueInvariants.PanicsExactlyWhenStranded | crates/modplayer-core/src/queue.rs:736-758 | The one call that can panic is turning shuffle on, exactly when the cursor is stranded at 0 in an empty context. |
| QueueInvariants.StrandedCursorIsReachable | crates/modplayer-core/src/queue.rs:539-569 | Three calls reach that panic from a new queue. |
| QueueInvariants.NewQueueIsWellFormed | crates/modplayer-core/src/queue.rs:217-235 | A new queue lists no row twice. |
| QueueRows.ReorderMovesOneRow | crates/modplayer-core/src/queue.rs:620-692 | A reordering call moves exactly one row of the tail, by position, with shuffle on or off; current row, cursor, history, block size and the rows up to the cursor stay. |
| QueueRows.ReorderConservesRows | crates/modplayer-core/src/queue.rs:671-692 | Rows are conserved by a reordering if and only if the upcoming rows are the context rows after the cursor; always with shuffle off. |
| QueueRows.ReorderKeepsRowsDistinct | crates/modplayer-core/src/queue.rs:671-692 | A reordering leaves a well-formed queue if and only if no shuffled row to come sits at or before the cursor. |
| QueueRows.MoveUpThenDownRestoresOrder | crates/modplayer-core/src/queue.rs:620-632 | move_up then move_down restores the displayed order, across the play-next boundary too. |
| QueueRows.PlayNextUpcoming | crates/modplayer-core/src/queue.rs:539-569 | Queueing a context row drops just that row from the upcoming ones if and only if the cursor is not at index 0 with that row behind or under it (where saturating_sub skips the next row). |
| QueueRows.RemoveUpcoming | crates/modplayer-core/src/queue.rs:696-732 | The same condition for removing a context row. |
| QueueRows.AutoStartRepeatsCurrent | crates/modplayer-core/src/queue.rs:421-461 | A queue started by add_context lists its current row again if and only if shuffle is on. |
| QueueRows.StepKeepsWellFormed | crates/modplayer-core/src/queue.rs:356-985 | Every call keeps every row listed once, except exactly a reordering made while a shuffled row to come sits at or before the cursor. |
| QueueRows.RunKeepsWellFormed | crates/modplayer-core/src/queue.rs:356-985 | So does every run whose reorderings are made with shuffle off. |
| QueuePlay.AdvanceTakesHead | crates/modplayer-core/src/queue.rs:780-854 | One call names the first row of the displayed tail and removes it from there. |
| QueuePlay.PlaysDisplayedOrder | crates/modplayer-core/src/queue.rs:307-327 | As many calls as wanted, up to the tail's length, name the displayed rows in order and leave the rest displayed. |
| QueuePlay.PlaysToTheEnd | crates/modplayer-core/src/queue.rs:780-854 | From any well-formed queue not repeating all, the calls name exactly the displayed tail, in order, and the next one ends the queue. |
| QueuePlay.EndsAfterTail | crates/modplayer-core/src/queue.rs:842-852 | With nothing left and no wrap the call ends the queue and changes nothing but the current row. |
| QueuePlay.RewoundTail | crates/modplayer-core/src/queue.rs:753-758 | A new cycle lists every context row once, in context order when shuffle is off. |
| QueuePlay.CyclePlaysEveryRow | crates/modplayer-core/src/queue.rs:780-854 | Under repeat-all with an empty tail the next \|context\| calls name a permutation of all context rows (the natural order without shuffle), for any generator. |
| QueuePlay.EveryCyclePlaysEveryRow | crates/modplayer-core/src/queue.rs:780-854 | From an empty tail the same holds for any number of cycles one after the other. |
| QueuePlay.TailThenCycles | crates/modplayer-core/src/queue.rs:780-854 | From any well-formed queue repeating all the calls name the displayed tail first and then every row once per cycle, for any number of cycles. |
| QueuePlay.MoveToLandsOnAvailableRow | crates/modplayer-core/src/queue.rs:790-835 | A row moved to is available, current, and the newest in the history. |
| QueuePlay.PrefetchAgreesWithAdvance | crates/modplayer-core/src/queue.rs:870-885 | The prefetch target is the track of the row the next call names, except for a shuffle still to be drawn; there is none exactly when that call ends the queue. |
| QueuePlay.WrapPreviewMatchesNextCycle | crates/modplayer-core/src/queue.rs:962-985 | With shuffle off, the rows previewed after the current one are what the following calls name, one by one, if and only if the current row is not an earlier context row. |
| QueuePlay.HistoryAfterRun | crates/modplayer-core/src/queue.rs:333-343 | After any run of skips, ended or not, the history is the last 100 entries of the old history followed by the rows moved to. |
| QueuePlay.SkipBackUndoesSkips | crates/modplayer-core/src/queue.rs:887-925 | k moves forward, through unavailable rows, wraps and shuffles, then k steps back, restore current row and cursor for every k below 100; beyond that they end on the oldest row kept. A run that ended the queue needs one more step back. |
| QueueOutcomes.RestartsIff | crates/modplayer-core/src/queue.rs:780-791 | A call answers restart if and only if repeat-one is on, a track is current and the track ended or was sought past its end; then only the history grows, to its last 100 entries. |
| QueueOutcomes.RepeatOneStays | crates/modplayer-core/src/queue.rs:780-791 | Under repeat-one any number of track ends restarts the current row each time and never leaves it. |
| QueueOutcomes.AdvanceFlags | crates/modplayer-core/src/queue.rs:793-853 | The order is reported changed exactly when a play-next row is used up, the cursor exactly when a row becomes current, a context row is passed over or the queue ends; everything else stays. |
| QueueOutcomes.SkipBackRestartsIff | crates/modplayer-core/src/queue.rs:889-925 | A step back restarts if and only if the track is past three seconds, or no earlier row is left in history and context. |
| QueueOutcomes.ReplacedOrder | crates/modplayer-core/src/queue.rs:356-418 | Loaded tracks are on display from the chosen one on, freshly numbered and in order, and that one is current. |
| QueueOutcomes.AddedOrder | crates/modplayer-core/src/queue.rs:421-461 | With a current row added tracks appear behind everything on display, if and only if the cursor is not stranded in natural order. |
| QueueOutcomes.AddedStarts | crates/modplayer-core/src/queue.rs:421-461 | With nothing current the first added track starts. |
| QueueOutcomes.RevealedOrder | crates/modplayer-core/src/queue.rs:469-516 | A revealed track appears behind everything on display under the same condition; an adopted one is all that is on display. |
| QueueOutcomes.PlayNextTrackOrder | crates/modplayer-core/src/queue.rs:573-592 | A new play-next track is on display behind the block and before the context; an idle queue takes the head of it all. |
| QueueOutcomes.PlayNextRow | crates/modplayer-core/src/queue.rs:539-569 | A row of the block moves to its end; a context row goes there with its track and availability; an unknown one changes nothing. |
| QueueOutcomes.RemovedRowGoes | crates/modplayer-core/src/queue.rs:696-732 | Removing the current row takes the next one on display or ends the queue; any other row just goes. |
| QueueOutcomes.MovedCurrent | crates/modplayer-core/src/queue.rs:520-535 | A context row asked for becomes current and the newest in the history, with the rows behind it left on display. |
| QueueOutcomes.RowGoesWhereAsked | crates/modplayer-core/src/queue.rs:620-666 | A row asked up, down or to a place on display ends up there, clamped, with the other rows in their order; a change is reported exactly if it moved. |
| QueueOutcomes.ShuffleOrder | crates/modplayer-core/src/queue.rs:736-758 | Shuffle redraws just the context rows after the cursor, each once; turning it off restores the queue exactly. |
| QueueOutcomes.ShuffleDrawsAnyOrder | crates/modplayer-core/src/queue.rs:736-758 | Every order of those rows is drawn by some generator. |
| QueueOutcomes.CycleDrawsAnyOrder | crates/modplayer-core/src/queue.rs:753-758 | So is every order of a new cycle. |
| QueueOutcomes.WrapPreviewRows | crates/modplayer-core/src/queue.rs:962-985 | There is a preview exactly at the end of a cycle of at least two rows; it shows the current track and then all the others. |
| QueueOutcomes.PreviewDrawsAnyOrder | crates/modplayer-core/src/queue.rs:962-985 | Shuffled, every order of the others is previewed under some generator. |
| QueueOutcomes.MarksTheTrack | crates/modplayer-core/src/queue.rs:929-955 | Exactly the rows of the track are marked, and the current one is left if and only if it is one of the track. |
| QueueOutcomes.MarkedIsNeverPlayed | crates/modplayer-core/src/queue.rs:806-835 | Once marked, a track is never moved to again in any run, for any reason, generator, cycle or shuffle. |
| PlayQueue.QueuedInOrder | crates/modplayer-core/src/queue.rs:597-614 | Several tracks queued while one is current stand behind the block in their order; otherwise the first one starts. |
| DecodedStores.DecodedStore.constructor | crates/modplayer-audio-source/src/decoded.rs:107-117 | A new store has one slot per chunk of the capped length, at least one, and nothing published. |
| DecodedStores.DecodedStore.SamplePairAt | crates/modplayer-audio-source/src/decoded.rs:181-196 | The pair of a frame exactly when it is covered. |
| DecodedStores.DecodedStore.ReadFrames | crates/modplayer-audio-source/src/decoded.rs:204-218 | Copies the covered frames from a start on, stops at the first gap only, and touches nothing after them; a covered start yields at least one frame. |
| DecodedStores.DecodedStore.WriteFrames | crates/modplayer-audio-source/src/decoded.rs:235-288 | Publishes exactly the frames written, words and all, starting only at append points, and stops only at a chunk that is not at its append point. |
| DecodedStores.DecodedStore.MarkComplete | crates/modplayer-audio-source/src/decoded.rs:297-310 | Completion as the code decides it: filling, within capacity, and at least as many covered frames as claimed. |
| DecodedStores.DecodedStore.MarkFailed | crates/modplayer-audio-source/src/decoded.rs:314-320 | Failing is terminal and only from filling. |
| DecodedStores.DecodedStore.Covered | crates/modplayer-audio-source/src/decoded.rs:160-165 | The sum of the chunk watermarks. |
| StoreModel.LowestUnfilled | crates/modplayer-audio-source-connect/src/decode_ahead.rs:214-227 | The first chunk within the length that is short of what the length needs, none exactly when no chunk is. |
| StoreCompletion.GaplessByChunk | crates/modplayer-audio-source/src/decoded.rs:145-155 | Every frame below n is published if and only if every chunk is filled as far as n reaches into it. |
| StoreCompletion.CompletionIsGapless | crates/modplayer-audio-source/src/decoded.rs:290-310 | If nothing at or past n was written, completing at n succeeds if and only if every frame below n is there. |
| StoreCompletion.CompletingAtCoveredFrames | crates/modplayer-audio-source-connect/src/decode_ahead.rs:430-444 | Completing at the covered count always succeeds on a filling store; no frame it claims is missing if and only if the chunks were filled front to back. |
| StoreCompletion.CompletingCanLeaveGap | crates/modplayer-audio-source-connect/src/decode_ahead.rs:434-437 | The seek-error ending can complete a store that does not cover its first frame. |
| StoreCompletion.NoUnfilledChunkCompletesGapless | crates/modplayer-audio-source-connect/src/decode_ahead.rs:409-412 | When no chunk is left to fill, completing at the covered count leaves no gap up to the new length, which reaches the capped length. |
| StoreCompletion.OverCapTrackCompletes | crates/modplayer-audio-source/src/decoded.rs:104-106 | A filling track over the cap always completes at its covered frames, and is cut at exactly the cap if and only if its table is full, which is when no chunk is left to fill. |
| StoreCompletion.TableIsTight | crates/modplayer-audio-source/src/decoded.rs:107-117 | The table has just the chunks the capped length needs, at least one, and nothing is written past the cap. |
| StoreCompletion.FinalStatesStay | crates/modplayer-audio-source/src/decoded.rs:297-320 | Only a filling store fails or completes; it keeps what it holds, and afterwards nothing changes it. |
| StoreCompletion.CompletionCutsOff | crates/modplayer-audio-source/src/decoded.rs:181-196 | After completing, a frame is covered if and only if it is published and below the new length. |
| DecodeAhead.WritesUnpublished | crates/modplayer-audio-source/src/decoded.rs:248-261 | No write lands on a published frame. |
| DecodeAhead.WriteExtends | crates/modplayer-audio-source/src/decoded.rs:235-288 | A write leaves everything published before published and unchanged. |
| DecodeAhead.WriteAgrees | crates/modplayer-audio-source/src/decoded.rs:235-288 | A packet of the track's own samples keeps the store in agreement with the track, wherever it is written. |
| DecodeAhead.WriteTrimmed | crates/modplayer-audio-source-connect/src/decode_ahead.rs:235-251 | Writes the part of a packet from the cursor on, moves the cursor past what was written, overwrites nothing, and keeps agreement with the track. |
| DecodeAhead.Run | crates/modplayer-audio-source-connect/src/decode_ahead.rs:356-474 | For any run of packets, hints, seeks and errors: the run is told turn by turn by a trace; the store only grows, agrees with the track throughout, and its ending is one of the code's endings; every completing ending but the failed seek at end of file leaves no gap. |
| DecodeAhead.Steer | crates/modplayer-audio-source-connect/src/decode_ahead.rs:374-410 | Where a packet is written: at a hinted chunk, or away from covered frames at the first gap; done exactly when covered with no gap left. |
| DecodeProgress.PacketIsWritten | crates/modplayer-audio-source-connect/src/decode_ahead.rs:235-251 | Every frame of a packet from the cursor on is published with its samples as far as the chunks it meets are at their append points. |
| DecodeProgress.TurnWritesIff | crates/modplayer-audio-source-connect/src/decode_ahead.rs:462 | A turn that goes on changes the store if and only if the packet has a frame at or after the cursor and the chunk ends just there. |
| DecodeProgress.HintIsFollowed | crates/modplayer-audio-source-connect/src/decode_ahead.rs:374-393 | After a hint into an empty chunk, a packet at its start is written up to the chunk's end, wherever the cursor was. |
| DecodeProgress.JumpIsFollowed | crates/modplayer-audio-source-connect/src/decode_ahead.rs:395-410 | From a covered cursor the first chunk with a gap is written from its start, if it is empty and the seek there went well or failed. |
| DecodeProgress.HowATurnEnds | crates/modplayer-audio-source-connect/src/decode_ahead.rs:356-474 | Which turns stop, fail, finish, give up or go on, each under exactly its condition. |
| DecodeProgress.OtherTurnsOnlyMove | crates/modplayer-audio-source-connect/src/decode_ahead.rs:418-474 | Turns without a decoded packet leave the store alone; at the end of the file the cursor goes where the seek landed. |
| DecodeProgress.ContiguousPacketsArePublished | crates/modplayer-audio-source-connect/src/decode_ahead.rs:356-474 | Packets that follow one another from the first frame are all written: exactly the frames sent are published, up to the table's end, and the loop is still running. |
| DecodeProgress.EndOfFileFinishes | crates/modplayer-audio-source-connect/src/decode_ahead.rs:418-444 | When the length has been sent and the file ends, the loop finishes with a complete store of exactly the frames sent, without a gap. |
| DecodeProgress.StuckAtPartlyFilled | crates/modplayer-audio-source-connect/src/decode_ahead.rs:395-410 | Back at a partly filled chunk, with seeks that go well and no hints, the loop runs for ever and writes nothing. |
| DecodeProgress.PartlyFilledIsReachable | crates/modplayer-audio-source-connect/src/decode_ahead.rs:374-444 | Three turns from a new store of two chunks lead there: a frame, a hint to the second chunk, the end of the file. |
| PeakFold.RmsIsRoundedRoot | crates/modplayer-audio-source/src/decoded.rs:392-402 | The loudness byte is the rounded and clamped root of the mean square. |
| PeakFold.QuantiseRounds | crates/modplayer-audio-source/src/decoded.rs:377-390 | Samples in range are rounded to the nearest of 127 levels on either side, halves away from zero; others are cut. |
| PeakFold.BucketLoudness | crates/modplayer-audio-source/src/decoded.rs:336-370 | A bucket's loudness is the rounded root of the mean square of all its samples, both channels alike. |
| PeakFold.BucketExtremes | crates/modplayer-audio-source/src/decoded.rs:336-370 | A bucket's minimum and maximum are attained by, and bound, the quantised samples of both channels. |
| PeakFold.FoldPeaks | crates/modplayer-audio-source/src/decoded.rs:329-375 | One pass writes exactly the whole covered buckets from the watermark on, stopping at the first uncovered one, and leaves the rest of the output alone. |
| PeakFold.LaterPassContinues | crates/modplayer-audio-source/src/decoded.rs:322-328 | A later pass over a grown store finds an earlier pass's buckets again and goes on from there whenever they end where they did, the short last one included if the length is unchanged. |
| PeakFold.IncrementalEqualsBatch | crates/modplayer-audio-source/src/decoded.rs:322-375 | Folding in any number of passes while the store fills gives the buckets of one pass over the final store, the short last one included, as long as each bucket's end at the length of its pass is its end at the final length. |
| PeakFold.BucketMatchesBatch | crates/modplayer-core/src/analysis/peaks.rs:66-84 | Bucket by bucket, for any passes over a growing store: one that is whole within both lengths, or was folded at the final length, is the one of a single pass. |
| PeakFold.KnownLengthSettles | crates/modplayer-core/src/analysis/peaks.rs:66-84 | Passes that all went by the final length meet that condition, finished folds of any length among them. |
| PeakFold.StaleIff | crates/modplayer-audio-source/src/decoded.rs:336-341 | A bucket folded at one length is right at another, in every growing store, if and only if it starts within both and both end it in the same place: a short bucket folded at an estimate that changes is stale, and one past a shorter length is not there at all. |
| StoreRace.RunConsistent | crates/modplayer-audio-source/src/decoded.rs:181-196 | In every interleaving of word stores, publishes, completion and reader loads the store agrees with the track and only grows. |
| StoreRace.ReadsAreNeverTorn | crates/modplayer-audio-source/src/decoded.rs:181-196 | In every interleaving from a new store, every pair a reader obtains is the track's pair for that frame, and nothing published is overwritten later. |
| StoreRace.WritesGetThrough | crates/modplayer-audio-source/src/decoded.rs:235-288 | A write that runs to its end publishes every one of its frames. |
| StoreRace.ReadsGetThrough | crates/modplayer-audio-source/src/decoded.rs:181-196 | A reader that runs through its loads obtains the track's pair of any published frame within the length. |
| RtModel.StoreFeedIsExact | crates/modplayer-audio-source-connect/src/rt.rs:208-244 | On the store feed with everything wanted covered, a fill delivers exactly those frames and advances by their number, whatever the ring holds. |
| RtModel.SeekThenFillIsExact | crates/modplayer-audio-source-connect/src/rt.rs:179-196 | After a seek into covered frames a fill delivers exactly the frames from the target on. |
| RtModel.SeekPlaysTheTrack | crates/modplayer-audio-source-connect/src/rt.rs:179-244 | With a store that agrees with its track, that output is the track from the target on. |
| RtModel.SeekLeaves | crates/modplayer-audio-source-connect/src/rt.rs:179-196 | A seek empties the ring, forgets where it stood, and is on the store feed exactly if the target is covered. |
| RtModel.HandsOverToTheRing | crates/modplayer-audio-source-connect/src/rt.rs:213-223 | An exhausted store hands over to the ring's next frame at the ring's own position, or at the cursor if that is unknown. |
| LiveFill.UnchangedStoreIsOneFill | crates/modplayer-audio-source-connect/src/rt.rs:206-268 | Reading the store anew for each frame is the fill, if nothing is written meanwhile. |
| LiveFill.PublishedFramesAreServed | crates/modplayer-audio-source/src/decoded.rs:181-196 | In every interleaving with writer, completion and readers, frames published before stay readable as the track's, as long as the length is not cut below them. |
| LiveFill.SeekPlaysTheTrackWhileWritten | crates/modplayer-audio-source-connect/src/rt.rs:179-244 | A seek into published frames plays the track from the target on, even with any steps of writer, completion and readers before each frame. |
| RtModel.DeliversRealFrames | crates/modplayer-audio-source-connect/src/rt.rs:198-268 | Every frame delivered is the ring's next frame or the store's frame at the position it is delivered at. |
| RtModel.PositionsAdvance | crates/modplayer-audio-source-connect/src/rt.rs:213-243 | Positions go up frame by frame, except where an exhausted store hands over to the ring's own position. |
| RtModel.RingDrainsInLockstep | crates/modplayer-audio-source-connect/src/rt.rs:237-241 | A ring of whole frames loses one frame per frame delivered on both feeds, as long as it lasts. |
| RtModel.ShortOnlyWhenDry | crates/modplayer-audio-source-connect/src/rt.rs:245-266 | A fill falls short only with a dry ring and a position the store does not cover. |
| RtModel.SplitFrameSwapsChannels | crates/modplayer-audio-source-connect/src/rt.rs:245-252 | For every ring and every fill: a ring whose first sample was taken alone pairs each later sample with the one after it, one sample off. |
| RtModel.FillKeepsAlignmentIff | crates/modplayer-audio-source-connect/src/rt.rs:245-252 | A fill takes twice what is wanted off the ring, or all of it if there is less, whatever the store covers; so it takes whole frames if and only if it finds whole frames or wants no more than there is, and then delivers everything wanted. |
| RtModel.RingLeft | crates/modplayer-audio-source-connect/src/rt.rs:206-268 | On both feeds a fill leaves the ring without exactly the frames wanted, odd rings included, keeps the ring position, and delivers at least as many frames as the ring had of them. |
| RtModel.RunStaysAlignedIff | crates/modplayer-audio-source-connect/src/rt.rs:206-268 | Every fill of a run takes whole frames if and only if each finds whole frames or wants no more than it finds. |
| RtModel.WholeFramesStayAligned | crates/modplayer-audio-source-connect/src/rt.rs:206-268 | So in every run in which whole frames have arrived whenever a fill starts. |
| RtSource.ConnectRtSource.constructor | crates/modplayer-audio-source-connect/src/rt.rs:70-90 | A new real-time half stands at the given position on the ring feed with no store. |
| RtSource.ConnectRtSource.Retire | crates/modplayer-audio-source-connect/src/rt.rs:97-102 | A replaced store goes to the retirement ring, or is parked when that is full. |
| RtSource.ConnectRtSource.RetryParked | crates/modplayer-audio-source-connect/src/rt.rs:105-109 | A parked store is tried again. |
| RtSource.ConnectRtSource.ApplyMarker | crates/modplayer-audio-source-connect/src/rt.rs:128-160 | The effect of each kind of marker on store slot, track count, position and feed. |
| RtSource.ConnectRtSource.ApplyDueMarkers | crates/modplayer-audio-source-connect/src/rt.rs:118-162 | Applies exactly the leading markers whose stamp the consumed clock has reached, in order. |
| RtSource.ConnectRtSource.Seek | crates/modplayer-audio-source-connect/src/rt.rs:179-196 | Empties the ring, forgets its position and chooses the feed by coverage. |
| RtSource.ConnectRtSource.ReadOne | crates/modplayer-audio-source-connect/src/rt.rs:225-234 | A covered cursor always yields its frame. |
| RtSource.ConnectRtSource.Step | crates/modplayer-audio-source-connect/src/rt.rs:207-267 | One turn of the loop delivers a frame, or changes feed and comes strictly nearer to one, or ends. |
| RtSource.ConnectRtSource.DeliverInto | crates/modplayer-audio-source-connect/src/rt.rs:206-268 | The loop terminates on every state, by frames left and feed rank, and its output is the delivery as specified. |
| RtSource.ConnectRtSource.FillFrames | crates/modplayer-audio-source-connect/src/rt.rs:206-276 | The frames delivered, then silence to the last whole frame; underrun raised exactly when short. |
| RtSource.ConnectRtSource.Fill | crates/modplayer-audio-source-connect/src/rt.rs:198-281 | The whole callback: parked store, due markers, output, consumed clock up by exactly the delivered frames, underrun flag, ring fill. |
| RtSource.StoreComesFrom | crates/modplayer-audio-source-connect/src/rt.rs:118-162 | The store in the slot is the one there before or one a marker brought. |
| RtSource.MarkersSetThePosition | crates/modplayer-audio-source-connect/src/rt.rs:128-160 | Any sequence of markers leaves the last store brought, the ring position of the last track start or reposition, and on the ring feed the cursor there. |
| RtSource.MarkersCountTracks | crates/modplayer-audio-source-connect/src/rt.rs:128-160 | Every track start is counted, in 32 bits, and announced. |
| RtSource.ReplacedStoreIsKept | crates/modplayer-audio-source-connect/src/rt.rs:92-109 | A replaced store goes to the end of the retirement ring, or is parked when its 65 slots are full, and retried. |
| FrameClock.RunKeepsInv | crates/modplayer-audio-source-connect/src/sink.rs:62-104 | Every run of sink writes, stamps, forwarding at any later time (or loss) of them, fills, seeks and ring swaps keeps the conservation law, the order of the ring, the write clock and the order of the stamps. |
| FrameClock.FramesAreConserved | crates/modplayer-audio-source-connect/src/sink.rs:62-104 | consumed + delivered so far = pushed - still in the ring - discarded by seeks + store frames delivered on an empty ring, across any number of swaps. |
| FrameClock.DueExactly | crates/modplayer-audio-source-connect/src/rt.rs:118-124 | Between fills a stamp is due if and only if the frames that left the rings, less those discarded, plus store frames, reach it. |
| FrameClock.MarkersOnTimeIff | crates/modplayer-audio-source-connect/src/sink.rs:58-69 | Between fills, stamps are due exactly when their frames have left the rings if and only if as many frames were discarded by seeks as the store made up. |
| FrameClock.AppliedOnTime | crates/modplayer-audio-source-connect/src/rt.rs:118-127 | An applied marker is the oldest on its way, its stamp counts frames really written, and all of them have left the rings unless the store made up more frames than seeks discarded, however late the marker was forwarded. |
| FrameClock.ReattachAppliesAtOnce | crates/modplayer-audio-source-connect/src/lib.rs:236-250 | A re-attached real-time half finds its first marker due in its very first fill, and an empty ring. |
| FrameClock.PlainRunsKeepMarkersOnTime | crates/modplayer-audio-source-connect/src/sink.rs:58-69 | Without seeks and store frames a stamp is due if and only if every frame written before it has left the rings, and no marker is applied before. |
| FrameClock.SeekMakesMarkersLate | crates/modplayer-audio-source-connect/src/rt.rs:185 | A concrete run in which a seek leaves a marker undue although its frames are gone. |
| FrameClock.StoreFeedMakesMarkersEarly | crates/modplayer-audio-source-connect/src/rt.rs:237-243 | A concrete run in which store frames make a marker due before its frames are played. |
| Retirement.StepKeepsOneOwner | crates/modplayer-audio-source-connect/src/rt.rs:92-109 | No step loses or duplicates a store. |
| Retirement.NeverFullIff | crates/modplayer-audio-source-connect/src/worker.rs:71-75 | The retirement ring never refuses a store if and only if it has one slot more than the marker ring (pop and retirement in one step) or two more (taken separately). |
| Retirement.EveryStoreHasOneOwner | crates/modplayer-audio-source-connect/src/lib.rs:51-57 | With the capacities in use and pop and retirement in one step: at most 65 outstanding, nothing parked or dropped, every store in exactly one place, in every interleaving. |
| Retirement.OutstandingBoundIsTight | crates/modplayer-audio-source-connect/src/worker.rs:881-889 | 65 outstanding is reached. |
| Retirement.CapacitiesInUseCanMeetFull | crates/modplayer-audio-source-connect/src/rt.rs:92-102 | With pop and retirement taken separately, as the code does, a run meets the full ring that the comments call unreachable. |
| RequestIds.PackRoundTrip | crates/modplayer-audio-source/src/catalog.rs:263-279 | Unpacking gives the kind back always and the generation if and only if it fits in 56 bits. |
| RequestIds.KindsNeverCollide | crates/modplayer-audio-source/src/catalog.rs:263-265 | Ids of different kinds differ, whatever the generations. |
| Backoff.WaitsDoubleUpToFourMinutes | crates/modplayer-core/src/backoff.rs:14-22 | Without a delay from the server the wait doubles per attempt from 15 s up to four minutes. |
| Search.SearchSession.constructor | crates/modplayer-core/src/search.rs:123-141 | A new session is idle. |
| Search.SearchSession.AnyRetryScheduled | crates/modplayer-core/src/search.rs:186-188 | Whether any retry is waiting or outstanding. |
| Search.SearchSession.AnyRefreshing | crates/modplayer-core/src/search.rs:214-218 | Whether any group is rate-limited. |
| Search.SearchSession.CancelAllRetries | crates/modplayer-core/src/search.rs:275-290 | Drops every retry and the outstanding request of every issued one. |
| Search.SearchSession.GoIdle | crates/modplayer-core/src/search.rs:292-304 | A new generation with nothing pending. |
| Search.SearchSession.EditQuery | crates/modplayer-core/src/search.rs:255-271 | Trims, resets on an empty query, leaves an unchanged one alone, re-arms the debounce otherwise. |
| Search.SearchSession.ReportOffline | crates/modplayer-core/src/search.rs:316-348 | Going offline cancels retries and collapses their groups; everything else stays. |
| Search.SearchSession.IssueDueRetries | crates/modplayer-core/src/search.rs:393-436 | Re-issues exactly the retries that are due, each once. |
| Search.SearchSession.Advance | crates/modplayer-core/src/search.rs:357-389 | The debounce fires once due, online, with one combined request for a new generation; otherwise due retries go out. |
| Search.SearchSession.RequestMore | crates/modplayer-core/src/search.rs:441-465 | One page request for a loaded group that has a further page and none outstanding. |
| Search.SearchSession.FoldPage | crates/modplayer-core/src/search.rs:595-635 | Folds the groups of a reply in, then the unsupported kinds. |
| Search.SearchSession.TakeCombinedReply | crates/modplayer-core/src/search.rs:487-536 | What each kind of answer to the combined request leaves. |
| Search.SearchSession.TakePageReply | crates/modplayer-core/src/search.rs:541-592 | What each kind of answer to a page request leaves. |
| Search.SearchSession.TakeReply | crates/modplayer-core/src/search.rs:473-593 | Offline, stale and unrecorded replies are ignored, the others go to the request they answer. |
| SearchInvariants.StepKeepsInv | crates/modplayer-core/src/search.rs:255-635 | Every operation keeps the invariant relating groups, outstanding ids and retries. |
| SearchInvariants.CombinedReplySettles | crates/modplayer-core/src/search.rs:499-534 | After the combined answer no group hangs: all are rate-limited, or each is empty, unsupported or loaded. |
| SearchProperties.IdsAreNeverAmbiguous | crates/modplayer-core/src/search.rs:105-113 | In every run recorded ids are distinct, and the combined request or its retry never coexists with a page request or page retry. |
| SearchProperties.OtherRepliesChangeNothing | crates/modplayer-core/src/search.rs:479-485 | A reply that matches no recorded id, or is stale, or arrives offline, changes nothing. |
| SearchProperties.ReplyUsesUpItsRequest | crates/modplayer-core/src/search.rs:487-488 | A reply that is taken uses up its own request and no other. |
| SearchProperties.DuplicateRepliesChangeNothing | crates/modplayer-core/src/search.rs:542-545 | A second reply with the same id changes nothing. |
| SearchProperties.OpsSendWhatTheyRecord | crates/modplayer-core/src/search.rs:380-465 | The ids of the requests an operation sends are exactly the ids it newly records; none is sent while outstanding. |
| SearchProperties.RowsOnlyGrow | crates/modplayer-core/src/search.rs:595-635 | Within a generation a group's rows stay or gain one whole page of an answer; generations only go up. |
| SearchProperties.RowsArePrefixes | crates/modplayer-core/src/search.rs:595-635 | Over any run inside one generation, what a group shows first stays the start of what it shows. |
| SearchProperties.RefreshingIsTrue | crates/modplayer-core/src/search.rs:177-218 | In every run, whenever no debounce is armed, refreshing holds if and only if a retry is scheduled. |
| SearchProperties.PageReplyHangsIff | crates/modplayer-core/src/search.rs:566-567 | A page answer leaves its group waiting for nothing if and only if it is a success without the group. |
| SearchProperties.ShowMoreMixesQueries | crates/modplayer-core/src/search.rs:263-270 | A reachable state between an edit and the debounce in which a page is requested for the new query in the old generation, and its answer is appended to the old query's rows. |
| SearchProperties.HungForTheGeneration | crates/modplayer-core/src/search.rs:441-453 | Such a group stays so, whatever happens, until a new generation. |
| SearchTraffic.RunsAskForWhatIsShown | crates/modplayer-core/src/search.rs:357-465 | In every run a request asks for the query shown if and only if it is not a page asked for while the edited query differs from the one shown, which needs an armed debounce. |
| SearchTraffic.EditedAwayAndBack | crates/modplayer-core/src/search.rs:255-271 | An armed debounce is not enough: after editing away and back it is armed and a page still asks for what is shown. |
| SearchTraffic.IdsAreReusedIffDropped | crates/modplayer-core/src/search.rs:316-348 | In every run, a request is sent while an earlier one with its id is still in flight if and only if going offline dropped that earlier one. |
| SearchTraffic.CollapseThenReuse | crates/modplayer-core/src/search.rs:316-348 | Whenever a page retry is in flight, going offline, coming back and showing more sends its id again, and either reply is taken for the page. |
| SearchTraffic.IdInFlightTwice | crates/modplayer-core/src/search.rs:441-465 | A run from a new session to two requests of one id in flight at once. |
| SearchOutcomes.RequestsAskForTheNextPage | crates/modplayer-core/src/search.rs:357-465 | In every run each request is either for all four kinds from the first hit, or for one kind from where the last page answered in this generation ends, by show more and by retry alike; always 20 hits. |
| SearchOutcomes.PageAnswered | crates/modplayer-core/src/search.rs:541-592 | A page answer appends its hits and moves the group's next page, or leaves the rows to be asked for again, or schedules a retry after the right wait; other groups stay. |
| SearchOutcomes.CombinedAnswered | crates/modplayer-core/src/search.rs:487-536 | The combined answer gives each group its page's hits, empty or unsupported; all empty on failure; all waiting for one retry when rate-limited. |
| SearchOutcomes.InFlightIsTrue | crates/modplayer-core/src/search.rs:200-212 | In every run a search is under way exactly while the debounce runs or a group waits for the combined answer. |
| SearchOutcomes.TrimmedEnds | crates/modplayer-core/src/search.rs:255-258 | Trimming takes white space off both ends and nothing else. |
| SearchOutcomes.WhiteListed | crates/modplayer-core/src/search.rs:255-258 | White space is the 25 code points of Unicode. |
| SearchOutcomes.EditedQueryWaits | crates/modplayer-core/src/search.rs:255-271 | An edit to a new query sends nothing, waits 150 ms and drops the retries; the same query changes nothing; an empty one resets. |
| SearchOutcomes.DebounceFiresOnce | crates/modplayer-core/src/search.rs:357-389 | The debounce sends nothing before it is due or while offline, and then one request for all kinds in a new generation, once. |
| SearchOutcomes.PageRetryIsSent | crates/modplayer-core/src/search.rs:407-433 | A page's retry is sent by the first online tick that finds it due, once, from where the page was to start. |
| SearchOutcomes.CombinedRetryIsSent | crates/modplayer-core/src/search.rs:393-406 | So is the combined request's. |
| SearchOutcomes.OfflineThenBack | crates/modplayer-core/src/search.rs:316-348 | Offline nothing is sent by the clock; a page to be retried can be asked for again, and a combined request to be retried runs anew after reconnecting when its time has come. |
| LimiterModel.EvictedIsYounger | crates/modplayer-capability-gateway/src/limiter.rs:114-124 | Evicting from the front of a sorted bucket is keeping the young entries. |
| LimiterModel.EvictAllKeepsTheYoung | crates/modplayer-capability-gateway/src/limiter.rs:108-112 | Evicting every bucket keeps in each exactly the entries younger than its own window. |
| LimiterModel.LimiterIsExact | crates/modplayer-capability-gateway/src/limiter.rs:126-140 | In every run with a clock that never goes back, each verdict is the one the full admission history gives, and an evicted bucket is exactly the admissions younger than the window. |
| LimiterModel.AdmissionsAreSpaced | crates/modplayer-capability-gateway/src/limiter.rs:62-80 | Admissions i and i + limit of a category are at least one window apart. |
| LimiterModel.RefusedCallsCostNothing | crates/modplayer-capability-gateway/src/gateway.rs:52-79 | Leaving out any refused requests (permission, focus or rate) and any evictions changes no admission. |
| LimiterModel.RequestsAreToldRightly | crates/modplayer-capability-gateway/src/gateway.rs:69-79 | Permission is denied if and only if one is required and not granted; focus is missing if and only if that is not so, it is needed and another holds it; otherwise the limiter decides; the first two leave every bucket alone. |
| LimiterModel.BurstsAreCut | crates/modplayer-capability-gateway/src/limiter.rs:62-80 | From a new gateway exactly the first 100 calls of a category at one moment are admitted, 6 notifications; the next one exactly a second later, a notification a minute later. |
| Gateway.RateLimiter.constructor | crates/modplayer-capability-gateway/src/limiter.rs:100-104 | Seven empty buckets. |
| Gateway.RateLimiter.EvictEverything | crates/modplayer-capability-gateway/src/limiter.rs:108-112 | Every bucket evicted by its own window. |
| Gateway.RateLimiter.Evict | crates/modplayer-capability-gateway/src/limiter.rs:114-124 | Only that bucket changes, to its evicted form. |
| Gateway.RateLimiter.AdmitCall | crates/modplayer-capability-gateway/src/limiter.rs:131-140 | Evicts, then records the call or refuses it without recording. |
| Gateway.FocusToken.SetHolder | crates/modplayer-capability-gateway/src/focus.rs:39-68 | The holder read back is the holder set if and only if its id is not 65535, which is read back as nobody. |
| Gateway.PluginGateway.AdmitRequest | crates/modplayer-capability-gateway/src/gateway.rs:69-79 | Denied, without focus, or decided by the limiter, each under exactly its condition on grants, focus holder and bucket; a refusal before the limiter leaves its buckets alone. |
| Refresh.RefreshScheduler.constructor | crates/modplayer-account/src/refresh.rs:73-80 | Armed from the credential's lifetime. |
| Refresh.RefreshScheduler.NextAction | crates/modplayer-account/src/refresh.rs:101-111 | A due refresh is started once, until its outcome is reported. |
| Refresh.RefreshScheduler.OnSuccess | crates/modplayer-account/src/refresh.rs:116-130 | Rearms, resets the failures and reports a recovery. |
| Refresh.RefreshScheduler.OnTransientFailure | crates/modplayer-account/src/refresh.rs:136-146 | Backs off, counts the failure and reports the third. |
| Refresh.DueWithinLifetime | crates/modplayer-account/src/refresh.rs:151-158 | A refresh is due between authorization and expiry, ahead of it by half the lifetime or five minutes, whichever is less. |
| Refresh.RefreshesStartOnce | crates/modplayer-account/src/refresh.rs:101-111 | A refresh starts if and only if it is due and none is in flight, and no other until its outcome is in. |
| Refresh.OutcomesRearm | crates/modplayer-account/src/refresh.rs:116-146 | A success starts afresh from the new lifetime, a failure waits as long as that many in a row demand. |
| Refresh.BackoffDoublesUpToAMinute | crates/modplayer-account/src/refresh.rs:161-165 | Waits double from one second up to a minute. |
| Refresh.ReportsAreHonest | crates/modplayer-account/src/refresh.rs:113-146 | Over any outcomes, failing is reported at exactly the third failure in a row and recovered at exactly the successes that end a streak of three or more. |
| AccountSession.AccountService.constructor | crates/modplayer-account/src/service.rs:190-216 | A new service is signed out with nothing under way. |
| AccountSession.AccountService.LaunchFrom | crates/modplayer-account/src/service.rs:295-461 | A pending attempt first, else the stored credential and account file decide the state. |
| AccountSession.AccountService.ResumeSession | crates/modplayer-account/src/service.rs:443-461 | Active or expired by time, armed, and validated by a tier check. |
| AccountSession.AccountService.RetryReading | crates/modplayer-account/src/service.rs:470-496 | Only from the unreadable state; resolves like a launch, or revokes when the entry is gone. |
| AccountSession.AccountService.BeginSignIn | crates/modplayer-account/src/service.rs:516-581 | Probe, new attempt, listener and pending entry, with every failure path. |
| AccountSession.AccountService.AbandonSignIn | crates/modplayer-account/src/service.rs:596-602 | A new attempt id and signed out as cancelled. |
| AccountSession.AccountService.RecheckSubscription | crates/modplayer-account/src/service.rs:608-619 | At most one tier check, only with a session and a readable credential. |
| AccountSession.AccountService.LeaveAccount | crates/modplayer-account/src/service.rs:738-767 | Bumps the attempt, clears every registered store, ends the session. |
| AccountSession.AccountService.RevokeSession | crates/modplayer-account/src/service.rs:777-804 | The same for a revoked session. |
| AccountSession.AccountService.ClearStores | crates/modplayer-account/src/service.rs:743-750 | Every registered store is tried, failures and successes both reported. |
| AccountSession.AccountService.OnListener | crates/modplayer-account/src/service.rs:913-950 | What each listener outcome leads to. |
| AccountSession.AccountService.OnExchange | crates/modplayer-account/src/service.rs:976-1040 | A live exchange result writes the credential before the session is known; a stale one changes nothing. |
| AccountSession.AccountService.OnTier | crates/modplayer-account/src/service.rs:1067-1100 | A live tier result activates the session, or revokes it when rejected. |
| AccountSession.AccountService.OnRefresh | crates/modplayer-account/src/service.rs:1170-1236 | A live refresh result renews the session, backs off, or revokes it. |
| AccountSession.AccountService.DrainResult | crates/modplayer-account/src/service.rs:845-881 | One result handled by its kind and tag. |
| AccountSession.AccountService.NoticeExpiry | crates/modplayer-account/src/service.rs:813-826 | Active becomes expired at the expiry time, once. |
| AccountSession.AccountService.DriveRefresh | crates/modplayer-account/src/service.rs:1119-1146 | Starts a due refresh, or counts a failure when the credential cannot be read. |
| AccountSession.AccountService.TickOnce | crates/modplayer-account/src/service.rs:832-887 | Listener, then every result in order, then expiry, then the refresh. |
| AccountProperties.ApplyInv | crates/modplayer-account/src/service.rs:443-1236 | Every command and result keeps the session invariant. |
| AccountProperties.SessionsAreComplete | crates/modplayer-account/src/service.rs:1105-1164 | In every run from one launch, active or expired has account and scheduler, and at most one refresh of the live attempt is under way, only while the scheduler counts it. |
| AccountProperties.SignOutQuiets | crates/modplayer-account/src/service.rs:738-804 | From any state of any run, sign-out and revocation leave nothing under way that could still act. |
| AccountProperties.RejectionQuiets | crates/modplayer-account/src/service.rs:1093 | So does a rejected tier check or refresh. |
| AccountProperties.SignedOutStays | crates/modplayer-account/src/service.rs:726-804 | After that, until the next sign-in is started, no results and no other commands leave SignedOut or write the secure store. |
| AccountProperties.TicksChangeNothing | crates/modplayer-account/src/service.rs:832-887 | Ticks alone do not even change the note. |
| AccountProperties.TickKeeps | crates/modplayer-account/src/service.rs:832-887 | A whole tick keeps the invariant and leaves a quiet service as it is. |
| AccountOutcomes.TickLeavesNothingUndone | crates/modplayer-account/src/service.rs:832-887 | After a tick the listener's outcome is taken, a session past its expiry is not active, and no due refresh is left waiting. |
| AccountOutcomes.DrainsInOrder | crates/modplayer-account/src/service.rs:845-881 | Results are handled one after the other, each in the state the one before left. |
| AccountProperties.EveryStoreIsReported | crates/modplayer-account/src/service.rs:742-764 | Sign-out reports one entry per registered store: as deleted exactly if it cleared, as left behind exactly if it did not. |
| AccountOutcomes.RefreshAchieves | crates/modplayer-account/src/service.rs:1170-1225 | A live refresh with tokens that is stored makes an expired session active, moves the account's expiry, and leaves the scheduler idle, without failures, due before it; one that is not stored leaves state and account and counts as one failure. |
| AccountOutcomes.RefreshFails | crates/modplayer-account/src/service.rs:1226-1236 | Any other answer but a rejection counts as one failure; a rejection ends the session. |
| AccountOutcomes.SignOutReports | crates/modplayer-account/src/service.rs:738-804 | Sign-out and revocation end the session and report every registered store by what became of it. |
| AccountOutcomes.ExpiresWhenGrantsDo | crates/modplayer-account/src/service.rs:813-826 | In every run expiry is reported by exactly the checks of an active session at or after the expiry of the tokens last granted by sign-in or refresh. |
| AccountOutcomes.RefreshedSessionLasts | crates/modplayer-account/src/service.rs:1196-1213 | After a stored refresh no run reports an expiry before the tokens granted by then expire. |
| AccountOutcomes.SignInCompletes | crates/modplayer-account/src/service.rs:516-1100 | From any state of any run a sign-in that goes well ends active, with the tokens' expiry and the tier named, two writes and each step reported. |
| AccountOutcomes.SignInFailures | crates/modplayer-account/src/service.rs:516-602 | Each way a sign-in ends early, with the note in state and event. |
| AccountOutcomes.ExchangeFails | crates/modplayer-account/src/service.rs:976-1040 | A stale exchange changes nothing; a live one without tokens or a written credential fails the sign-in. |
| AccountOutcomes.TierCheckAchieves | crates/modplayer-account/src/service.rs:1067-1100 | A live tier check brings the tier into service and account, makes a checking session active and lowers the flag. |
| AccountOutcomes.WorkersStart | crates/modplayer-account/src/service.rs:608-619 | A check, a read and a refresh are started under exactly their conditions. |
| AccountOutcomes.ReadsAreAnswered | crates/modplayer-account/src/service.rs:845-881 | A read of the live attempt is answered, a stale one is not. |
| AccountOutcomes.LaunchFinds | crates/modplayer-account/src/service.rs:295-461 | A launch goes on with a pending attempt, gives it up, or finds a session by its time, nobody, or an unreadable store. |
| AccountOutcomes.RetryFinds | crates/modplayer-account/src/service.rs:470-496 | Reading again resolves like that, or revokes. |
| AccountConditions.SignedOutRunsActIff | crates/modplayer-account/src/service.rs:832-1236 | In every run from one launch: from a signed-out state some ticks write the secure store if and only if a scheduler is left that is not in flight, or a live exchange or refresh, or a live tier check with an account and no scheduler; some leave SignedOut if and only if a live exchange is left. |
| AccountConditions.CalmStays | crates/modplayer-account/src/service.rs:726-887 | If none of these is left, no run of any commands and results without a new sign-in leaves SignedOut or writes the secure store. |
| AccountConditions.SignOutLeavesNothing | crates/modplayer-account/src/service.rs:738-804 | From any state of any run, after sign-out or revocation nothing of it is left: no ticks, and no run without a new sign-in, leave SignedOut or write the secure store. |
| AccountConditions.ChecksAreSingle | crates/modplayer-account/src/service.rs:608-619 | In every run from one launch there is never more than one check of the live attempt, even if another is asked for at any point, if and only if no stale tier result is drained in Active or Expired with a live check under way; and its flag is up throughout if and only if none is drained under a live check in any state. |
| AccountConditions.StaleDrainLetsTwoRun | crates/modplayer-account/src/service.rs:1067-1075 | Whenever one is drained in Active or Expired with a live check under way, the next recheck with a readable credential adds one more. |
| AccountConditions.CheckingRefusesRecheck | crates/modplayer-account/src/service.rs:608-619 | When one is drained in Checking the flag is lost, but a recheck is refused and the live checks stay as they are. |
| AccountConditions.FailedSignInStillWrites | crates/modplayer-account/src/service.rs:904-911 | A run: a sign-in from an expired session fails, the service is signed out, and a refresh of the old scheduler writes the secure store. |
| AccountConditions.CancelledSignInStillWrites | crates/modplayer-account/src/service.rs:596-602 | The same after cancelling that sign-in. |
| AccountConditions.StaleTierResultLetsTwoChecksRun | crates/modplayer-account/src/service.rs:1072-1075 | A run from a launch to two checks of the live attempt at once. |
| Biquads.DesignsAreStable | crates/modplayer-effects/src/biquad.rs:64-142 | All five designs have \|a2\| < 1 and \|a1\| < 1 + a2; zero gain is the identity. |
| Biquads.LowPassPasses | crates/modplayer-effects/src/biquad.rs:128-142 | Gain one at zero frequency, none at Nyquist, the quality at the corner. |
| Biquads.HighPassPasses | crates/modplayer-effects/src/biquad.rs:113-126 | None at zero frequency, one at Nyquist, the quality at the corner. |
| Biquads.PeakingPasses | crates/modplayer-effects/src/biquad.rs:64-79 | One at both ends; at the centre the square of the amplitude. |
| Biquads.LowShelfPasses | crates/modplayer-effects/src/biquad.rs:81-96 | The square of the amplitude at zero frequency, the amplitude at the corner, one at Nyquist. |
| Biquads.HighShelfPasses | crates/modplayer-effects/src/biquad.rs:98-111 | The low shelf of the mirrored spectrum. |
| Biquads.Biquad.constructor | crates/modplayer-effects/src/biquad.rs:155-158 | A new filter's memory is clear. |
| Biquads.Biquad.Process | crates/modplayer-effects/src/biquad.rs:162-168 | One sample through the two-word memory. |
| Biquads.Biquad.Reset | crates/modplayer-effects/src/biquad.rs:172-175 | Memory cleared. |
| Biquads.EnergyIsPositiveDefinite | crates/modplayer-effects/src/biquad.rs:162-168 | The energy bounds the memory from above and is zero only for a clear one. |
| Biquads.EnergyDrop | crates/modplayer-effects/src/biquad.rs:162-168 | With zero input the energy changes by exactly -(1 - a2)(w - w2)^2. |
| Biquads.EnergyNeverRises | crates/modplayer-effects/src/biquad.rs:162-168 | Over any number of silent samples it never rises, so the memory stays bounded. |
| Biquads.KernelIsDifferenceEquation | crates/modplayer-effects/src/biquad.rs:16-17 | From the reset state the kernel's output is the documented difference equation, for any input. |
| Biquads.KernelIsLinear | crates/modplayer-effects/src/biquad.rs:162-175 | Hence it is linear in its input. |
| UrlCodec.UrlEncoded | crates/modplayer-account/src/spotify.rs:588-599 | The loop builds the percent-encoding of its value. |
| UrlCodec.PercentDecoded | crates/modplayer-account/src/listener.rs:290-315 | The index loop computes the decoding, falling back to its input when the bytes are no string. |
| UrlCodec.EscapesTaken | crates/modplayer-account/src/listener.rs:287-315 | An escape is taken if and only if its second character is a hexadecimal digit and its first one too or a plus sign; case does not matter. |
| UrlCodec.PlusCountsForNothing | crates/modplayer-account/src/listener.rs:287-315 | A plus sign in front of one digit counts for nothing. |
| UrlCodec.DecodeUndoesEncode | crates/modplayer-account/src/spotify.rs:583-599 | Decoding undoes encoding for every string. |
| UrlCodec.EncodedHasNoSeparator | crates/modplayer-account/src/spotify.rs:588-599 | An encoded value contains no ampersand and no equals sign. |
| UrlCodec.EncodedIsWellEscaped | crates/modplayer-account/src/spotify.rs:588-599 | An encoded value consists of unreserved characters and upper-case escapes. |
| UrlCodec.UnreservedStays | crates/modplayer-account/src/spotify.rs:588-599 | Exactly the values of unreserved characters are their own encoding. |
| UrlCodec.UnreservedListed | crates/modplayer-account/src/spotify.rs:583-587 | Unreserved are letters, digits, hyphen, period, underscore and tilde. |
| UrlCodec.CharactersMakeStrings | crates/modplayer-account/src/listener.rs:310-315 | The bytes of any characters are a string to the decoder. |
| UrlCodec.StringsAreCharacters | crates/modplayer-account/src/listener.rs:310-315 | Every string to the decoder is the bytes of some characters. |
| UrlCodec.UnchangedIff | crates/modplayer-account/src/listener.rs:287-315 | Decoding leaves a text alone if and only if it has no readable escape or the escapes make no string. |
| UrlCodec.QueryRoundTrip | crates/modplayer-account/src/listener.rs:275-285 | Parsing a printed query gives every pair back, in order, for plain keys and any string values. |
| UrlCodec.KeysWithoutPercentArePlain | crates/modplayer-account/src/listener.rs:275-285 | Keys without ampersand, equals and percent signs are plain. |
| UrlCodec.PairSurvivesIff | crates/modplayer-account/src/listener.rs:275-285 | A single pair survives if and only if its key is plain. |
| UrlCodec.AuthorizationQueryParsesBack | crates/modplayer-account/src/spotify.rs:182-201 | The seven parameters of the sign-in query parse back to themselves. |

## Left out

- librespot, symphonia, cpal, ureq, keyring, files, sockets and threads: only the messages and results they deliver are
  modelled.
- Memory orderings weaker than sequential consistency: interleaved atomic steps are used throughout.
- Rounding of 32-bit floats: samples, filter coefficients and loudness are reals; cosine, sine and the decibel power enter
  as a cosine strictly between -1 and 1, a positive alpha and a positive amplitude with its root.
- 64-bit overflow of row ids, frame counts, generations, attempt ids and frame positions; the packed request id and the
  track count do wrap.
- Track metadata, hits and artwork: tracks, hits and categories are opaque values.
- Lazy allocation of a chunk's samples: the store's words are one table, sized at construction.
- Retirement.NeverFullIff: rings are not swapped during a run, and a swap's one-off drain of the old retirement ring is not
  a step.
- FrameClock.FramesAreConserved: a frame's two samples are pushed, and popped, in one step; without that the channels can
  come apart (`RtModel.SplitFrameSwapsChannels`). A run starts with a new worker and a consumed clock at zero.
- RtSource.ConnectRtSource.Fill: the store and the ring do not change during one callback; changes between callbacks are
  arbitrary. What a fill plays while the store changes under it is `LiveFill.SeekPlaysTheTrackWhileWritten`; samples that
  arrive in the ring meanwhile are not modelled. The branch for a covered frame that reads nothing is dead and not repeated.
- RtSource.ConnectRtSource.Seek: ring contents are emptied in one callback with no sample arriving meanwhile.
- DecodeAhead.Run: a run is a finite list of turns; when the loop cannot end is `DecodeProgress.StuckAtPartlyFilled`.
- SearchTraffic.IdsAreReusedIffDropped: every reply is assumed to answer a request in flight; generations stay below 2^56.
- QueuePlay.WrapPreviewMatchesNextCycle: with shuffle on the preview and the wrap draw separately, so nothing is claimed.
- AccountSession.AccountService.TickOnce: contents of tokens, payloads and profiles; whether a payload can be encoded and a
  store written are answers of the world.
- UrlCodec.AuthorizationQueryParsesBack: covers the query, not the address in front of it or the request line around it.
- The tables that give each request kind its permission, focus need and category; they are parameters of the gateway.
- Liveness: adoption of a parked producer, a refresh that stays in flight after a new sign-in, and the decode loop.
- Easy members: accessors, notifications, device policy, settings, manifests, mixer scale, smoothing, grants, format choice.
