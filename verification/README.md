# Verified models of the streaming host's stateful pieces

Eight parts of the host keep state by small rules that interact: the microphone mixer, the input queue,
the configuration file, the clipboard blob store, the launch tickets, the adaptive bitrate engine, the
live log cache and the cover download filter. This project models each of them in Dafny and proves what
it promises over every input and every run. `dafny verify dfyconfig.toml` checks everything.

The pattern is the same throughout. Functions over values say what one operation does. The code that
changes things in place is a class, or a method with loops, whose contract ties its result and its new
state to those functions. Lemmas then state what holds over whole runs, that is, over arbitrary sequences
of operations in any interleaving. What is kept is one half; the other is what is done. The modules called
Effects, and InputChanges and ConfigQuoting, tell every operation's effect a second time from the raw fields
alone, and prove both the same.

- **Microphone mixer** (`MicTimeline`, `MicMixing`, `MicMixer`, `MicRuns`,
  `MicEffects`). A 16-bit sequence number
  becomes a playout slot; four packets at most are buffered; two consecutive stale packets, a clock jump
  or a large gap restart the timeline; missing frames are concealed twice; sources are averaged. The
  payload type and the decoder are parameters: the decoder is any function of what it was fed since its
  last reset. The proofs follow the sender's true, unbounded numbers. As in the code, a source is a
  struct held by value in the mixer's map, so it is a value here that the procedures update field by
  field and write back.
- **Input queue** (`InputBatching`, `InputTrace`, `InputRuns`, `InputChanges`, `InputScroll`). A task pops a message and merges later
  ones into it, sometimes passing over others. No observer that lets a merged message stand for its
  parts, and does not mind the order of independent streams, can tell the difference; one such observer
  remembers nearly everything a device could.
- **Configuration file** (`ConfigText`, `ConfigOrder`, `ConfigRoundTrip`, `ConfigRewrite`, `ConfigQuoting`,
  `ConfigFile`).
  The quote-, comment- and bracket-aware parser, the edit, and the writer of the same file.
- **Blob store** (`BlobStore`, `BlobHistory`, `BlobEffects`, `ClipboardStore`). A map, a FIFO with dead ids in it and a
  byte counter, against a plain list of live blobs.
- **Launch tickets** (`LaunchTickets`, `TicketRuns`, `TicketEffects`). Registration limits, claims by address or by key,
  release and expiry.
- **Adaptive bitrate** (`Abr`, `AbrRuns`, `AbrEffects`, `AbrEngine`, `JsonScan`). Feedback, detached workers guarded by a
  generation counter, and the scanner that cuts a JSON object out of a model's answer (strings as in
  section 7 of RFC 8259).
- **Log cache** (`LogCache`). Concurrent requests that sample, load, build, swap and answer in separate
  atomic steps over an append-only file.
- **Image check** (`ImageCheck`). A chunked filter against the test on the whole stream.

Some expected properties do not hold of the code as it stands; the model keeps the code's behaviour, and
lemmas show the input and the exact condition.

- Batching can swallow a notch of low-resolution scrolling (`InputScroll.BatchingCanSwallowANotch`). What
  is sent is the total rounded to a notch, down or up by the side from which the running total entered the
  stretch it ends in. So batching sends the same exactly when the queued scroll adds up to whole notches,
  or the merged and the single running totals enter from the same side
  (`InputScroll.BatchedNotchesAgreeIff`).
- Batching can change a touchpad's last button (`InputRuns.BatchingCanChangeTheLastButton`) and a pointer's
  last state over touchpad frames (`InputRuns.BatchingCanReorderFrames`), since packets of different
  pointers may pass each other. Draining sends the runs of merged packets in the order in which they begin
  (`InputRuns.DrainIsRuns`), so the observation is kept exactly when the run about it that begins last
  comes to it (`InputRuns.LastButtonKeptIff`, `InputRuns.LastContactsKeptIff`).
- A rewrite of the configuration file can change keys that the update does not mention. An untouched empty
  value or the word null is read but not written, so its key is lost (`ConfigRewrite.NullIsLost`); a blank
  value gains a space (`ConfigRoundTrip.BlankValueGrows`); an unclosed list takes in the line end after it
  at least, or all entries after it if nothing closes it (`ConfigRewrite.UnclosedListSwallows`). The file
  reads back as the edited configuration exactly when all updates are well formed and no untouched value
  is one of these (`ConfigRewrite.UpdateIsReadBackIff`).
- The comment on the blob sweep calls the FIFO "roughly" in expiry order: the clock is read before the
  lock is taken, so it need not be (`BlobStore.ClockOrderMatters`). The front-only sweep is the full
  filter exactly when no expired entry waits behind a live one.
- The comment on the recovery signal of the bitrate engine says that it is set once, when the count of calm
  decisions crosses five. Every ordinary report that finds the count at five sets it
  (`AbrEffects.RecoveryIsSignalledAgain`).
- The comment on the log cache's swap says that it avoids overwriting a newer snapshot. It can happen
  (`LogCache.CacheCanGoBack`): exactly when a request swaps that had loaded a snapshot larger than the size
  it sampled, and the cell still holds that snapshot (`LogCache.PublishGoesBackIff`). Were a request to
  compare the two at its load, the cached size would never decrease (`LogCache.CacheNeverGoesBack`). Viewers
  stay consistent all the same.

## Model

| member | source | states |
|---|---|---|
| MicTimeline.SequenceDistance | src/mic_mixer.cpp:57-63 | the distance is the one number in [-2^15, 2^15) that leads from the older to the newer number modulo 2^16 |
| MicTimeline.TimestampDistance | src/mic_mixer.cpp:65-71 | the same for 32-bit millisecond timestamps |
| MicTimeline.UnwrapsTrueDistance | src/mic_mixer.cpp:57-63 | for true numbers of any size the distance is their difference if and only if that lies in [-2^15, 2^15) |
| MicTimeline.EnqueueStep | src/mic_mixer.cpp:96-117 | one offer to a buffer of at most four: only the offered packet enters, and whatever is missing afterwards lies beyond four packets that are there |
| MicTimeline.BufferKeepsNearest | src/mic_mixer.cpp:96-117 | whatever slots are offered in whatever order, the buffer ends with the four smallest distinct ones, each with the payload first offered for it |
| MicTimeline.ReceiveKeepsBounds | src/mic_mixer.cpp:186-281 | receiving a packet keeps at most four queued, none behind the clock and none more than eight frames ahead |
| MicTimeline.TickKeepsBounds | src/mic_mixer.cpp:284-326 | a mixed frame keeps the bounds for the next slot, and the stale-packet clean-up at its start removes nothing |
| MicTimeline.SkipKeepsBounds | src/mic_mixer.cpp:354-371 | skipping frames keeps the bounds |
| MicMixing.MixIgnoresOrder | src/mic_mixer.cpp:289-336 | the sample sum is the same for every order in which the sources are visited |
| MicMixing.MeanWithinContributions | src/mic_mixer.cpp:342-349 | each mixed sample lies between the smallest and the largest contribution, so the final clamp never changes it |
| MicMixing.OneMoreTick | src/mic_mixer.cpp:312-330 | visiting one more source adds one to the right counter and to no other |
| MicMixing.StepKeepsInv | src/mic_mixer.cpp:156-371 | every operation of the mixer keeps the buffer bounds of every source |
| MicMixer.QueuePacket | src/mic_mixer.cpp:96-117 | inserts, or refuses a taken slot, or drops the furthest; returns whether the offered packet itself is now queued; counts duplicates and overflows |
| MicMixer.FurthestSlot | src/mic_mixer.cpp:112-115 | the last key of the ordered packet map |
| MicMixer.ResetTimeline | src/mic_mixer.cpp:78-94 | everything of the old timeline is forgotten, the decoder included |
| MicMixer.ReceiveStale | src/mic_mixer.cpp:219-236 | a packet behind the clock is a restart hint or, as the second consecutive one, a restart |
| MicMixer.ReceiveAhead | src/mic_mixer.cpp:238-281 | a newer packet extends the timeline, arrives too late, or re-anchors on a clock jump, a large gap or an idle timeline |
| MicMixer.ReceivePacket | src/mic_mixer.cpp:186-281 | new source state, verdict and counters are those of the classified packet |
| MicMixer.DropBefore | src/mic_mixer.cpp:292-294 | exactly the packets older than the slot go |
| MicMixer.Tick | src/mic_mixer.cpp:289-336 | decodes the due packet, conceals at most twice in a row, or falls silent; decoder state and flags follow |
| MicMixer.Mixer.PushPacket | src/mic_mixer.cpp:186-282 | the whole mixer after a packet: one source and the counters change, and the result says whether the packet was queued |
| MicMixer.Mixer.MixNextFrame | src/mic_mixer.cpp:284-352 | visiting the sources in any order gives the truncated mean of the contributing frames, nothing when there is none, and every source one tick later |
| MicMixer.Mixer.SkipPlayoutFrames | src/mic_mixer.cpp:354-371 | the clock advances, every source loses what is behind it and falls silent |
| MicMixer.Mixer.AddSource | src/mic_mixer.cpp:156-173 | a known source stays as it is, a new one starts empty if its decoder could be made |
| MicMixer.Mixer.RemoveSource | src/mic_mixer.cpp:175-178 | exactly that source goes |
| MicMixer.Mixer.Clear | src/mic_mixer.cpp:180-184 | all sources go and the clock restarts |
| MicMixer.Mixer.TakeStats | src/mic_mixer.cpp:373-376 | the counters so far are handed out and start again from zero, the rest is untouched |
| MicRuns.ReachableBuffers | src/mic_mixer.cpp:96-117 | in every reachable state each source has at most four packets, all from the clock to eight slots after it, and the clean-up loop finds nothing |
| MicRuns.LeavesWithinNineFrames | src/mic_mixer.cpp:284-371 | nine mixed frames later, whatever else happened, a slot queued before is queued no more |
| MicRuns.DecodesInSenderOrder | src/mic_mixer.cpp:186-326 | whatever the arrival order, loss, duplication and wraps: slots differ from the anchor as true numbers do, and within a timeline packets reach the decoder in strictly increasing sender order |
| MicRuns.RefusedSlotIsTrueDuplicate | src/mic_mixer.cpp:98-105 | a packet refused because its slot is taken has the true number of the packet queued there |
| MicRuns.HintExplained | src/mic_mixer.cpp:220-274 | over any run a restart hint is pending if and only if a stale packet numbered one less came and only repeats of the newest packet have reached the source since |
| MicRuns.RestartNeedsTwoConsecutiveStale | src/mic_mixer.cpp:211-237 | a backward restart happens if and only if a stale packet meets such a hint; an isolated late packet never resets a timeline |
| MicRuns.ConcealmentIsBounded | src/mic_mixer.cpp:297-330 | over any run at most two concealment frames separate two decoded packets |
| MicEffects.PushHasEffect | src/mic_mixer.cpp:186-282 | the whole mixer, the answer and the counters after a packet, from the numbers, slots and clocks alone: a packet opens a timeline, repeats, goes to its slot if there is room, or comes too late |
| MicEffects.InTimeIsQueued | src/mic_mixer.cpp:238-281 | a packet of the timeline whose slot is still to play, reordered or not, is in that slot afterwards, if it is free and four nearer ones do not wait |
| MicEffects.StaysQueued | src/mic_mixer.cpp:186-371 | a queued packet stays until its slot is played or skipped, its source or timeline ends, or it is the furthest of four and a nearer one comes |
| MicEffects.HonestPacketIsHeard | src/mic_mixer.cpp:186-336 | over any run an honest packet, in time and with room, is what the decoder is asked for at the slot its true number gives, unless displaced, and what it makes of it is heard |
| MicEffects.MixHasEffect | src/mic_mixer.cpp:284-352 | each source contributes what the codec makes of the packet that is due after the inputs since its last reset, or conceals in the first two frames of a gap; the frame is their truncated mean in any order; every source and counter afterwards |
| MicEffects.FedIsWhatWasDue | src/mic_mixer.cpp:284-371 | over any run the decoder has been given exactly the packets that were due since its last reset, with at most two concealments in a row between them |
| MicEffects.FedEndsTrack | src/mic_mixer.cpp:284-330 | the payloads among them are the last of those the track has handed over |
| MicEffects.SkipHasEffect | src/mic_mixer.cpp:354-371 | what is behind the clock goes, what is ahead stays queued, every source falls silent |
| InputBatching.MergeKeepsOvertaking | src/input.cpp:1451-1793 | a merged packet may pass exactly what the packet it grew from could pass |
| InputBatching.InputQueue.PassthroughNextMessage | src/input.cpp:1842-1893 | the loop that erases and steps over list entries sends the merged packet and leaves the queue that the batching pass prescribes, malformed entries dropped |
| InputTrace.TaskUnseen | src/input.cpp:1842-1893 | for every lawful observer one task, followed by the queue it leaves, looks like the queue it found |
| InputTrace.DrainUnseen | src/input.cpp:1842-1893 | draining any queue with batching looks like delivering every packet by itself |
| InputTrace.PumpUnseen | src/input.cpp:1842-1973 | under any interleaving of arrivals and tasks: sent plus queued looks like arrived, there is a task for every queued packet, and when all have run nothing is stranded |
| InputTrace.DeviceIsLawful | src/input.cpp:1463-1793 | lawful in particular is a device that keeps motion and scroll totals, every stream's history and the order of mask changes, with a snapshot before every barrier and change of type |
| InputTrace.DeviceCannotTell | src/input.cpp:1801-1973 | so each packet of another type is delivered with exactly the totals and histories before it that it had without batching |
| InputTrace.BatchingKeepsControllers | src/input.cpp:1546-1567 | batching keeps each stream's last packet, each controller's button changes in order and the order of mask changes |
| InputChanges.MergesIff | src/input.cpp:1451-1839 | two packets merge if and only if they are of one phase of one stream and their sum fits 16 bits; motion and scroll add up, of all else the latest stays |
| InputChanges.PassesIff | src/input.cpp:1451-1839 | which packets may pass which, type by type |
| InputChanges.BatchingKeepsPhases | src/input.cpp:1801-1893 | batching keeps the phases of every stream in order, and every packet that must arrive whole |
| InputChanges.BatchingKeepsTouches | src/input.cpp:1576-1775 | in particular the events, buttons and tools of the pen, the events of each pointer on the screen, and the events and pointers on each controller's pad |
| InputChanges.PhaseIsSentOnce | src/input.cpp:1842-1893 | however many packets of one phase are queued, one is sent, the latest |
| InputRuns.DrainIsRuns | src/input.cpp:1801-1893 | for packets of every type: a packet joins the first open run it batches with, closes those it terminates, else begins a run, and draining any queue sends the runs in the order in which they begin |
| InputRuns.LatestSentIsLastRun | src/input.cpp:1801-1893 | the last packet sent about anything that merging keeps is what the last run about it to begin becomes, found in one pass over the queue |
| InputRuns.LastButtonKeptIff | src/input.cpp:1611-1639 | for every queue batching keeps the touchpad's last button if and only if the touchpad run that begins last has it |
| InputRuns.BatchingCanChangeTheLastButton | src/input.cpp:1611-1639 | three packets of two pointers that leave button 0, and button 1 once they are batched |
| InputRuns.LastContactsKeptIff | src/input.cpp:1647-1699 | for every queue and pointer batching keeps the pointer's last state over frames if and only if the run of frames with the pointer that begins last comes to it |
| InputRuns.BatchingCanReorderFrames | src/input.cpp:1647-1699 | three frames that leave a pointer at 2, and at 1 once they are batched |
| InputScroll.Wheel.Passthrough | src/input.cpp:917-966 | whole notches are sent and the rest carried, or the raw amount in high resolution, or nothing with the mouse off |
| InputScroll.ScrollIsConserved | src/input.cpp:929-937 | notches sent plus remainder are the scroll received, in multiples of 120, the remainder below one notch |
| InputScroll.SentIsTotalRounded | src/input.cpp:929-937 | the notches sent are the total of the scroll rounded to a notch, down if the running total entered the stretch it ends in from below, else up |
| InputScroll.BatchedScrollIsConserved | src/input.cpp:917-966 | on either axis nothing is lost with batching either, and the notches never differ from the unbatched ones by more than one |
| InputScroll.DrainedAmounts | src/input.cpp:1505-1538 | what draining sends on an axis are the sums of neighbouring amounts that fit 16 bits, found in one pass over the queue |
| InputScroll.BatchedNotchesAgreeIff | src/input.cpp:1505-1538 | for every queue, remainder and axis the notches are the same if and only if the scroll adds up to whole notches or the merged and the single running totals come from the same side |
| InputScroll.BatchingCanSwallowANotch | src/input.cpp:1505-1518 | 130 then -20 sends one notch, merged they send none |
| InputScroll.OneDirectionSendsTheTotal | src/input.cpp:929-937 | scrolling in one direction sends exactly the notches of the total, however it is cut up |
| ConfigFile.FindComment | src/config.cpp:613-638 | the first '#' outside quotes, escapes inside quotes respected |
| ConfigFile.ToText | src/config.cpp:640-654 | the text with its comments removed and its line ends kept |
| ConfigFile.FindListEnd | src/config.cpp:656-695 | just past the bracket that closes the list, or the end; brackets in quotes and comments do not count |
| ConfigFile.ReadOption | src/config.cpp:697-735 | one option or none, and where it ends |
| ConfigFile.ReadConfig | src/config.cpp:737-761 | the map of all options, the first of a name winning |
| ConfigFile.EditConfig | src/config.cpp:1877-1895 | empty and "null" updates delete, others set; reports a change exactly when the map differs |
| ConfigFile.WriteConfig | src/config.cpp:1902-1908 | one line for every entry of the map in the order of the keys, empty and "null" values left out |
| ConfigOrder.ListIsUnique | src/config.cpp:1866-1908 | there is one such list, so the file written is a function of the map |
| ConfigFile.ConfigFile.Update | src/config.cpp:1862-1921 | the file is rewritten with the edited map exactly when something changed and it can be written, else left alone |
| ConfigRoundTrip.ParsePrinted | src/config.cpp:697-735 | a printed well-formed entry is parsed as itself whatever follows it |
| ConfigRoundTrip.PrintedFileIsReadBack | src/config.cpp:737-761 | a file of well-formed entries in any order is read back as printed |
| ConfigRoundTrip.EntryRoundTrips | src/config.cpp:697-761 | a printed entry is read back as itself if and only if its name and value are well formed |
| ConfigRoundTrip.ParsedFile | src/config.cpp:697-761 | every name read from any text is well formed, and every value is without comments and well formed, or blank, or a list that never closes |
| ConfigRoundTrip.BlankValueGrows | src/config.cpp:704-716 | a blank value gains a space each time it is printed and read |
| ConfigRoundTrip.UnclosedListGrows | src/config.cpp:718-730 | an unclosed list at the end of a file gains a line end |
| ConfigRoundTrip.StripKeepsBrackets | src/config.cpp:640-695 | removing comments changes neither where a list closes nor whether it does |
| ConfigRewrite.UnclosedListTakesMore | src/config.cpp:656-735 | wherever it stands in a file, an unclosed list is read back longer than it was |
| ConfigRewrite.UnclosedListSwallows | src/config.cpp:656-761 | from an unclosed list that nothing in the rest of the file closes, the list is all that is read |
| ConfigRewrite.ClosedFileIsReread | src/config.cpp:697-761 | while no list is left open every entry is read back by itself, blank values one space longer |
| ConfigRewrite.FileRoundTripsIff | src/config.cpp:697-761 | a file with one entry for every name is read back as printed if and only if all its entries are well formed |
| ConfigRewrite.MapRoundTripsIff | src/config.cpp:697-761 | a map that is written in order is read back whole if and only if none of its values is empty or null and all its entries are well formed |
| ConfigRewrite.UpdateIsReadBackIff | src/config.cpp:1862-1915 | whatever the file held, the rewritten one reads back as the edited map, untouched keys with their values, if and only if all updates are well formed and no untouched value is empty, null, blank or an unclosed list |
| ConfigRewrite.UntouchedKeyIsReadBack | src/config.cpp:1862-1915 | without untouched unclosed lists and with well-formed updates each untouched key is lost if and only if its value is empty or null, and keeps its value if and only if that is not blank either |
| ConfigRewrite.NullIsLost | src/config.cpp:1902-1908 | a file with any key set to null loses it when another key is updated |
| ConfigQuoting.UpdateInForce | src/config.cpp:1862-1915 | when it is read back the update is in force key by key: what it clears is gone, what it sets has its value, all else is as it was |
| ConfigQuoting.QuotedIsWellFormed | src/config.cpp:613-638 | any line of text is a well-formed value once it is quoted, whatever '#', quotes, brackets and backslashes it holds |
| ConfigQuoting.ListIsWellFormed | src/config.cpp:656-695 | so is any nested list of quoted texts, on one line or many |
| ConfigQuoting.CommentIsDropped | src/config.cpp:640-735 | a comment after a value is no part of it |
| ConfigQuoting.CommentLineIsSkipped | src/config.cpp:697-761 | a line that is a comment changes nothing that is read |
| BlobStore.ReachableStoresAreConsistent | src/clipboard_blob_store.cpp:65-157 | whatever the clock and the id generator do, every resident id is in the FIFO and the counter is the sum of the resident sizes, at most 200 MiB |
| BlobStore.EvictMakesRoom | src/clipboard_blob_store.cpp:85-97 | eviction makes room for any blob that may be stored |
| BlobStore.SweepRemoves | src/clipboard_blob_store.cpp:65-83 | the front-only sweep removes an entry if and only if it stands in the FIFO before every live one |
| BlobStore.SweepIsFilterIff | src/clipboard_blob_store.cpp:65-83 | it equals the full expiry filter if and only if no expired entry waits behind a live one |
| BlobStore.ClockOrderMatters | src/clipboard_blob_store.cpp:110-115 | two puts that take the lock against their clock order leave a blob that is handed out after its time |
| BlobHistory.EvictsShortestPrefix | src/clipboard_blob_store.cpp:85-97 | eviction drops the shortest oldest prefix that makes room |
| BlobHistory.SweepFilters | src/clipboard_blob_store.cpp:65-83 | with times in lock order and fresh ids the sweep is the full filter despite dead ids |
| BlobHistory.StepRefinesList | src/clipboard_blob_store.cpp:100-164 | map, FIFO and counter together do exactly what a plain list of live blobs does |
| BlobHistory.BlobIsKept | src/clipboard_blob_store.cpp:100-157 | a stored blob is handed out byte for byte until its time ends, unless consumed, as long as the bytes put from it onward fit the store |
| BlobHistory.NothingOutlivesItsTime | src/clipboard_blob_store.cpp:135-157 | and nothing is handed out after its time |
| BlobEffects.PutHasEffect | src/clipboard_blob_store.cpp:100-133 | a blob above 50 MiB is refused and nothing happens; any other is stored for 60 seconds under the id given, as soon as one drawn is not in use |
| BlobEffects.GotWasStored | src/clipboard_blob_store.cpp:100-157 | over any run whatever is handed out was stored under that id, byte for byte, with that type |
| BlobEffects.ConsumedIsGone | src/clipboard_blob_store.cpp:147-153 | a consumed blob is handed out no more, unless its id is given out again |
| ClipboardStore.ClipboardStore.SweepLocked | src/clipboard_blob_store.cpp:65-83 | the loop does what the recursive sweep says |
| ClipboardStore.ClipboardStore.EvictForLocked | src/clipboard_blob_store.cpp:85-97 | the loop does what the recursive eviction says |
| ClipboardStore.ClipboardStore.PutBlob | src/clipboard_blob_store.cpp:100-133 | new state and result of a put; the counter stays exact and within the cap |
| ClipboardStore.ClipboardStore.GetBlob | src/clipboard_blob_store.cpp:135-157 | the bytes and type if resident after the sweep; consuming removes the entry and leaves its id in the FIFO |
| ClipboardStore.ClipboardStore.Stats | src/clipboard_blob_store.cpp:166-170 | the number of entries and the sum of their sizes |
| LaunchTickets.LaunchSessionManager.PruneLocked | src/launch_session_manager.cpp:48-55 | expired pending tickets go, all others keep their order |
| LaunchTickets.LaunchSessionManager.RegisterSession | src/launch_session_manager.cpp:69-118 | replaces a known client's pending ticket, refuses a busy client or a full manager, else appends |
| LaunchTickets.LaunchSessionManager.ClaimPlaintext | src/launch_session_manager.cpp:120-149 | claims the one unencrypted ticket of the address; with none or several only expiry happens |
| LaunchTickets.LaunchSessionManager.ClaimEncrypted | src/launch_session_manager.cpp:151-201 | claims the one ticket whose key authenticates the message, with none or several nothing but expiry happens; the outcome does not depend on the address |
| LaunchTickets.LaunchSessionManager.Release | src/launch_session_manager.cpp:208-225 | one claim is given back; the last one makes the ticket pending with a new deadline |
| LaunchTickets.LaunchSessionManager.Erase | src/launch_session_manager.cpp:203-235 | the session's tickets go and the result says whether there were any |
| LaunchTickets.OnlyMatchIsUnique | src/launch_session_manager.cpp:159-200 | a single matching ticket is the one that is claimed |
| TicketRuns.ReachableManagersAreBounded | src/launch_session_manager.cpp:69-118 | over every run: tickets within the global limit, at most one per known client, legacy tickets per address within the client limit, claimed exactly with a positive claim count |
| TicketRuns.ClaimedTicketIsSafe | src/launch_session_manager.cpp:48-149 | neither expiry nor any registration or claim removes or replaces a claimed ticket |
| TicketRuns.ClaimedWhileClaimsExceedReleases | src/launch_session_manager.cpp:120-225 | with distinct session ids a ticket's claim count is claims less releases over the run, so it is claimed exactly while claims exceed releases |
| TicketEffects.RegisterHasEffect | src/launch_session_manager.cpp:69-118 | which tickets are there after a registration and what it answers, from the tickets alive: busy, replaced, either limit, or accepted |
| TicketEffects.ClaimHasEffect | src/launch_session_manager.cpp:120-201 | a claim takes the one ticket alive that matches, and with none or several nothing but expiry happens |
| TicketEffects.PendingWaits | src/launch_session_manager.cpp:48-235 | a pending ticket is there before its deadline unless claimed, replaced by its own client, erased or cleared |
| TicketEffects.RegisteredTicketCanBeClaimed | src/launch_session_manager.cpp:69-201 | the same over any run after its registration, and a message that only its key opens then claims it |
| TicketEffects.ExpiredGo | src/launch_session_manager.cpp:48-55 | after a registration, claim or prune no expired pending ticket is left, but one just registered with no time to live |
| TicketEffects.ReleaseHasEffect | src/launch_session_manager.cpp:208-225 | a release gives one claim back, and the last makes the ticket pending until the new deadline |
| Abr.BoundsAreOrdered | src/abr.cpp:568-604 | the session's range is ordered if and only if the caller did not invert two explicit bounds; an explicit cap is never exceeded |
| Abr.StepKeepsInv | src/abr.cpp:535-778 | every step keeps bitrate and target within the bounds, and the in-flight flag equal to one outstanding worker of the current generation |
| Abr.Run | src/abr.cpp:535-778 | the same over any interleaving of enabling, disabling, reports and workers finishing |
| AbrRuns.StaleWorkersAreWithoutEffect | src/abr.cpp:633-665 | over any run the sessions are what they would be if no worker of an older generation had ever finished |
| Abr.DecisionMovesWithLoss | src/abr.cpp:498-532 | loss above two percent lowers the bitrate to nine tenths, above five to seven, strictly unless it is the smallest already; the fifth calm decision and every later one raise it by a twentieth within the range, nothing else does |
| Abr.BitrateMovesWithLoss | src/abr.cpp:667-749 | the exact bitrate after a report: lowered, raised up to the model's target, or left, which it always is on loss up to two percent without a due fifth calm decision; the answer is the bitrate that was set |
| AbrRuns.TicksAreCalmDecisions | src/abr.cpp:498-532 | over any run the session's counter is the number of calm decisions since it was enabled and since the last decision on loss above two percent |
| AbrRuns.RaiseTakesFiveCalmDecisions | src/abr.cpp:667-749 | over any run from positive bitrates a report raises the bitrate, and by how much, if and only if it is the fifth or a later of those decisions; loss up to two percent never lowers it |
| AbrEffects.LaunchesIff | src/abr.cpp:751-775 | a report starts a worker if and only if there is something new to tell the model, none is out, it can be asked, ten seconds have passed, and loss is no emergency |
| AbrEffects.FirstReportStartsWorker | src/abr.cpp:548-775 | so the first ordinary report on a session does |
| AbrEffects.ReportHasEffect | src/abr.cpp:667-778 | every other field of the session after a report: counters, timers, window, flags and history |
| AbrEffects.RecoveryIsSignalledAgain | src/abr.cpp:751-754 | while a worker is out an ordinary report leaves the recovery signal set if and only if it finds or takes the count of calm decisions to five |
| AbrEffects.FinishHasEffect | src/abr.cpp:633-665 | a current worker's bitrate becomes the target, moved into the range; nothing else changes but the flag |
| AbrEffects.StartsAtInitialIff | src/abr.cpp:566-604 | without explicit bounds a session starts at its initial bitrate if and only if that lies in the range for its mode |
| AbrEffects.StartsWithinBounds | src/abr.cpp:535-604 | with explicit bounds at the nearest between them, and asks the model first |
| AbrEngine.AbrEngine.EnableClient | src/abr.cpp:534-612 | a fresh session of a new generation with the computed range, keeping the engine's invariant |
| AbrEngine.AbrEngine.FinishWorker | src/abr.cpp:633-665 | only a worker of the current generation clears the flag and may set the clamped target |
| AbrEngine.AbrEngine.ProcessFeedback | src/abr.cpp:667-778 | the session, the workers and the answer after a report |
| AbrEngine.Remember | src/abr.cpp:690-693 | the history keeps the last ten reports |
| AbrEngine.Fallback | src/abr.cpp:498-532 | the decision for a loss |
| AbrEngine.DecideIfDue | src/abr.cpp:729-749 | a decision every three seconds at most, restrained by the target |
| JsonScan.ExtractFirstJsonObject | src/abr.cpp:258-306 | the loop returns the text from the first brace to the one that closes it, or nothing |
| JsonScan.NeutralString | src/abr.cpp:278-289 | a string in any escaping is passed over whatever it contains |
| JsonScan.ObjectIsExtracted | src/abr.cpp:258-306 | any JSON object in any escaping, with its own white space at every place, after any text without '{' and before any text, comes out exactly |
| JsonScan.BrokenOffNothing | src/abr.cpp:258-306 | an answer that breaks off before its object is complete yields nothing |
| JsonScan.NoBraceNothing | src/abr.cpp:258-306 | nor does a text without '{' |
| LogCache.BuildIsOk | src/confighttp.cpp:672-806 | a snapshot built by reading the tail onto an older one or by reading all is the log's prefix of the sampled size |
| LogCache.ResponseIsOk | src/confighttp.cpp:839-882 | every answer leaves the viewer with one contiguous block of the log that ends at the size it was told |
| LogCache.RespondAnswers | src/confighttp.cpp:839-882 | a viewer that has all is told so, one that has a part gets what is missing, any other the whole log or its last 4 MiB |
| LogCache.ViewerIsAnswered | src/confighttp.cpp:756-882 | over any run and interleaving viewers are answered just so |
| LogCache.RefreshHasEffect | src/confighttp.cpp:768-806 | the log is read anew if and only if its size or time of change differs from the snapshot's, and that fails only if reading does |
| LogCache.ViewersStayContiguous | src/confighttp.cpp:756-882 | under any interleaving of requests, appends, failed reads and won or lost swaps, cached snapshots are prefixes of the log and every viewer shows one contiguous block ending at its offset |
| LogCache.PublishGoesBackIff | src/confighttp.cpp:770-814 | over any run a step makes the cached snapshot older if and only if it is the swap of a request that loaded a snapshot larger than the size it had sampled, and the cell still holds what it loaded |
| LogCache.CacheNeverGoesBack | src/confighttp.cpp:770-814 | over a run in which every load comes with a sampled size at least that of the cached snapshot, the cached size never decreases |
| LogCache.CacheCanGoBack | src/confighttp.cpp:758-814 | a run in which that happens |
| LogCache.LogCacheCell.GetLogs | src/confighttp.cpp:756-882 | a request with no other in between answers just so for the whole file as it is, leaves a sound snapshot no older than before, and every viewer with that offset with a contiguous block |
| LogCache.BuildSnapshot | src/confighttp.cpp:775-806 | the new snapshot's fields are filled as specified, or reading failed |
| ImageCheck.ImageCheckContext.Callback | src/httpcommon.cpp:715-804 | the context after a chunk, and whether curl goes on |
| ImageCheck.ImageCheckContext.WriteImageData | src/httpcommon.cpp:703-713 | all of the data is appended, or the write fails |
| ImageCheck.TransferTracks | src/httpcommon.cpp:715-804 | while curl goes on, the buffer, counters and file are those of the stream so far |
| ImageCheck.StopIsDeserved | src/httpcommon.cpp:733-757 | with a working disk the transfer only stops for a stream that cannot become an image of allowed size |
| ImageCheck.ChunkingDoesNotMatter | src/httpcommon.cpp:681-905 | every way of cutting a stream into chunks is accepted if and only if the whole has at least twelve bytes, a known signature and at most 10 MiB |
| ImageCheck.AcceptedMeansWholeImage | src/httpcommon.cpp:893-905 | whatever the disk does, an accepted file is an image and holds the whole stream |
| ImageCheck.IsImageIff | src/httpcommon.cpp:681-701 | what counts as an image: 12 bytes to 10 MiB that begin like a PNG, JPEG, BMP or icon file, or a WEBP |

## Left out

- MicMixer.Mixer.PushPacket: slots and counters are unbounded; 64-bit overflow, some billions of years of audio away, is not modelled.
- MicMixer.Tick: Opus is a parameter that decodes or fails; frames of another length count as failures, as in the code.
- InputBatching.InputQueue.PassthroughNextMessage: printing, the activity event and the OS calls after the lock are not modelled; messages are values, not bytes, and a message too short for its header or type is one value.
- InputTrace.DeviceIsLawful: touchpad packets keep each pointer's history and touchpad frames each set of pointers, but not the pad's last button across pointers, nor a pointer's last state across frames with different pointers.
- ConfigFile.ConfigFile.Update: logging and the reasons for failing to read or write the file.
- ClipboardStore.ClipboardStore.PutBlob: ids are drawn from a given sequence; the format of ids and the random generator are not modelled, and an exhausted sequence stands for its failure.
- LaunchTickets.LaunchSessionManager.ClaimEncrypted: authenticated decryption is a map from the keys that authenticate the message to plaintexts.
- Abr.DecisionMovesWithLoss: the factors 0.70, 0.90 and 1.05 are exact ratios rounded down, not doubles; packet loss is a real number; 32-bit overflow is not modelled.
- AbrEngine.AbrEngine.FinishWorker: the model call and the parsing of its answer are a parameter, the bitrate found in it; prompts, foreground detection and the removal of reasoning blocks are not modelled.
- LogCache.ViewersStayContiguous: the log only grows; truncation and rotation are outside the model, as are headers and the plain download.
- ImageCheck.ImageCheckContext.Callback: curl, host checks, temporary files and replacing the target file.
- The touch, pen and keyboard handlers, mouse buttons with their timers, and the gamepad emulation of src/input.cpp: float geometry, timers and OS effects.
- apply_config and the option tables of src/config.cpp, and all other HTTP handlers: flat mapping and plumbing that would add only easy members.
- Threads and mutexes: each section under a lock is one atomic step.
