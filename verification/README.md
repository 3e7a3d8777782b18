# Voice hub: verified models of its core algorithms and protocols

The voice hub is a small self-hosted voice room: a Rust server that forwards media, a browser client and a
denoiser in C. This project models its algorithmic and protocol-shaped parts in Dafny and proves what they are
for. `dafny verify dfyconfig.toml` checks everything. All statements are for every input, every run or every
reachable state.

## The parts

**Matching and transforms.** `Glob` is the origin matcher, a loop that remembers only the last star, against the
recursive meaning of a pattern. `Complex`, `Fft` and `Denoiser` are the in-place radix-2 transform over exact
complex numbers, against the Fourier sum; `Conv` is the tiled convolution against its defining sum.

**Re-blocking.** `Gcd`, `Schedule` and `FrameAdapter` take 128-sample quanta into frames of any size and back
through a ring, and show that the delay the adapter computes is the smallest that never runs dry.

**Audio slots.** `AudioTrack` renumbers a microphone's packets around the silence it drops; `SlotStream` splices
owners into one stream per slot; `AudioSlots` is the server's allocator with its pending offers; `AudioClient` is
the browser's end, and the run of both ends over an ordered message queue.

**Screen shares.** `ScreenShare` has the room's handlers as methods, including the way a closing connection
re-enters the room; `ScreenShareRun` has what every handler keeps and what follows for runs of whole handlers;
`ScreenEffects` states what each step does to whatever can be seen, without loops or re-entry, and what follows for
connections and encoders. `ScreenOwnership` takes every section under a lock as a step of its own. `LayerCtl` is the
loss hysteresis of a viewer.

**Headers and descriptors.** `Utf8`, `Percent`, `HeaderSplit` and `ContentDisposition` print and parse the
Content-Disposition header. `Bits`, `BitReader`, `DependencyDescriptor` and `DdParser` read the AV1 dependency
descriptor; `DdEncoder` writes it as appendix A of the RTP payload format for AV1 has it and `DdRoundTrip` shows
that the parser gives back what was written. `ChainTracker` is the 256-bit ring that stands in for a set of frame
numbers.

**Presence and limits.** `Presence` has the hub, its queues and the client's merge; `PresenceRun` has rooms, hub and
clients running together, `PresenceOrder` what becomes of that with pushes out of order, and `PresenceJson` the
client's reading of the events. `RateLimit` is the token bucket per client. `Arith` and `Basics` hold what several
parts share.

## What the proofs brought to light

- A packet's renumbering agrees with the whole run exactly when it does not trail a drop that has left the window
  of 64 (`AudioTrackModel.ShiftCountsAllDrops`; in `AudioTrackModel.TrailingMisnumbered` it does).
- An owner-marked packet does not clear the flag that marks the start of a talkspurt, because the flag is only
  taken when the marker is not set; `AudioTrackModel.MarkedExactly` states which packets end up marked, and in
  `AudioTrackModel.MarkedTwice` two do after one drop.
- A predecessor exactly 128 frames back is not found by a second packet of the same frame, since marking the first
  one clears that bit (`ChainIntegrity.MarkedIsFound`).
- A bit that no later frame clears comes to stand for a frame 256 on, and lets a packet pass whose predecessor was
  lost: `ChainIntegrity.StaleBitPasses`. `ChainIntegrity.PassesExactly` holds on every run; frame numbers that advance
  by a fixed step dividing 128 sweep (`ChainIntegrity.FixedStepSweeps`) and have no such bits.
- Dropping idle buckets can be noticed when a bucket does not refill within the ttl; then twice the burst passes
  (`RateLimiting.OveruseBreaksBound`). The bound holds on all runs just when rate times ttl is at least the burst.
- A call reads its clock before it gets the lock. One that comes in after a later one puts the bucket's time back, and
  the time in between is counted twice: `RateLimiting.LateCallRefills`. The runs of the other results have their calls
  in order of time.
- A header with the quoted name alone, as the desktop downloads have it, loses control characters
  (`ContentDispositions.DesktopRoundTrip`).
- An update pushed after its peer's departure brings the peer back until the next snapshot
  (`PresenceOrders.LateUpdateStays` is such a run); the server does not order the two when they come from different
  threads. `PresenceOrders.AgreesExactly` says for every order when a client ends up right.
- The grace window of a screen share is armed in a section of its own. A resume that comes between a peer's removal
  and the arming leaves the window running for a session that has its owner back
  (`ScreenOwnership.GraceCanMeetAnOwner`). `ScreenOwnership.OwnedGraceExactly` says just when an owned session has its
  window running: the arming section found the owner there. With handlers as whole steps it cannot
  (`ScreenShareRuns.GraceIsForOrphans`).
- An encoder nobody watches is told to pause when its last viewer leaves and at the first packet, but not by a
  resume, which drops all viewers: `ScreenEffects.PausedExactly` says exactly when it is pausing, and
  `ScreenEffects.ReturnsAwake` is a run where it never is.

## Modelling choices

- Floating point is exact: `real` in the denoiser, the adapter and the token bucket. Sine and cosine enter as
  tables that run through the powers of a root of unity.
- Peer ids, session ids and tokens are numbers; random ones are fresh by assumption. Times are numbers.
- Connections are identities with a closed flag; what a call into the WebRTC library answers (an offer could be
  made, an answer was accepted) is a parameter. Messages to a client are a reliable queue in order.
- 16-bit frame numbers, 32-bit timestamps and the 8-bit words of the ring wrap as they do in the code; or-ing in a
  bit that is clear is written as adding it, shifting by k as multiplying or dividing by 2^k.
- A hash map gives its entries in some order: the order is a parameter of the step, or a set.
- One long C or Rust function may be several methods here; each has its own contract.

## Model
| member | source | states |
|---|---|---|
| Glob.GlobMatch | backend/src/http/ws.rs:93-119 | the loop terminates and is true exactly when the pattern means the subject, `*` standing for any run without a slash and `?` for one byte that is not a slash |
| Glob.ConcatMeans | backend/src/http/ws.rs:92-119 | a pattern in two parts means exactly the subjects in two parts that those mean; with the next two this fixes the meaning of every pattern |
| Glob.StarMeans | backend/src/http/ws.rs:92-119 | a star alone means exactly the subjects without a slash |
| Glob.StarFreeMeans | backend/src/http/ws.rs:92-119 | a pattern without stars means exactly the subjects of its length that have its bytes, and no slash where it has a question mark |
| Glob.NewerStarSuffices | backend/src/http/ws.rs:101-103 | forgetting an older star when a newer one is met loses no match: whatever the older star could still reach, the newer one reaches |
| Glob.SlashFreeBetween | backend/src/http/ws.rs:104-110 | when the segment between two stars matches at two places, no slash lies between them if the first star can run that far |
| Glob.NoLaterAtEnd | backend/src/http/ws.rs:115-118 | once the subject is used up, a longer run of the last star cannot lead to a match |
| FftInPlace.ReverseBits | frontend/wasm/fastenhancer/fastenhancer.c:456-459 | or-ing bit b in at position width - 1 - b gives the bit reversal of the index |
| FftInPlace.BitReversalTable | frontend/wasm/fastenhancer/fastenhancer.c:453-460 | for n a power of two the table holds the reversal of every index |
| FftInPlace.TwiddleTables | frontend/wasm/fastenhancer/fastenhancer.c:447-452 | the two tables hold the first n/2 powers of the root of unity |
| Fft.RevInvolution | frontend/wasm/fastenhancer/fastenhancer.c:453-460 | the bit-reversal table is an involution on the indices |
| FftInPlace.Denoiser.Permute | frontend/wasm/fastenhancer/fastenhancer.c:79-85 | the conditional swaps leave every entry holding the one at its reversed index |
| Fft.FullySplit | frontend/wasm/fastenhancer/fastenhancer.c:79-85 | the bit-reversed order is what splitting into even and odd entries leads to when it is carried to single points |
| FftInPlace.ApplyButterfly | frontend/wasm/fastenhancer/fastenhancer.c:93-96 | one butterfly replaces a pair by the sum and the difference with the twiddled second entry, and touches nothing else |
| Fft.Butterfly | frontend/wasm/fastenhancer/fastenhancer.c:87-97 | with a root whose middle power is -1, one butterfly takes its pair from the transforms of one stage to those of the next, for every block of every stage |
| FftInPlace.Denoiser.RunStages | frontend/wasm/fastenhancer/fastenhancer.c:86-99 | all passes together turn the reordered points into the transform of the whole |
| Fft.DftEntry | frontend/wasm/fastenhancer/fastenhancer.c:77-100 | entry k of the transform is the sum over j of x[j] times the root to the power j*k |
| FftInPlace.Denoiser.Transform | frontend/wasm/fastenhancer/fastenhancer.c:77-100 | for every power of two and every input the arrays end up holding exactly the discrete Fourier sums, with the conjugate root when inverse is asked for |
| FftInPlace.ConjugateInverts | frontend/wasm/fastenhancer/fastenhancer.c:91 | negating the imaginary tables gives the powers of the inverse root |
| FftInPlace.ForwardThenInverse | frontend/wasm/fastenhancer/fastenhancer.c:77-100 | the inverse transform of the forward transform is n times the input |
| Convolution.SumTile | frontend/wasm/fastenhancer/fastenhancer.c:114-131 | the 4 x 8 accumulators end up with the convolution sums of their channels and positions |
| Convolution.StoreTile | frontend/wasm/fastenhancer/fastenhancer.c:132 | copying a tile out makes exactly its entries right and spoils none that were |
| Convolution.Conv | frontend/wasm/fastenhancer/fastenhancer.c:109-141 | tiles and remainder together give every output channel and position its bias plus the sum over channels and taps |
| Convolution.Conv1x1 | frontend/wasm/fastenhancer/fastenhancer.c:143-146 | the same with one tap |
| Convolution.Conv3 | frontend/wasm/fastenhancer/fastenhancer.c:149-158 | three taps over the input padded by a zero on each side, also when the output is the input itself |
| Convolution.ThreeTaps | frontend/wasm/fastenhancer/fastenhancer.c:149-158 | a channel adds its weights times the position and its two neighbours, as far as the row has them |
| Convolution.PaddedRows | frontend/wasm/fastenhancer/fastenhancer.c:151-156 | the sum over the scratch rows is the sum over the zero-padded rows |
| Euclid.Bezout | frontend/src/audio/denoisers/frame-adapter.ts:10-12 | the gcd is a combination of its arguments |
| Schedule.SmallestDelay | frontend/src/audio/denoisers/frame-adapter.ts:3-6 | a constant delay never underruns exactly when it is at least the computed number of quanta |
| Schedule.PartialFrameBound | frontend/src/audio/denoisers/frame-adapter.ts:4-5 | after any number of quanta at most F - gcd samples are in an unfinished frame |
| Schedule.PartialFrameReached | frontend/src/audio/denoisers/frame-adapter.ts:4-5 | and exactly that many are, again and again |
| Reblocking.FrameAdapter.Push | frontend/src/audio/denoisers/frame-adapter.ts:56-63 | with room for them, the samples join the end of the ring's queue in at most two pieces and none waiting is lost |
| Reblocking.FrameAdapter.Pop | frontend/src/audio/denoisers/frame-adapter.ts:65-77 | the oldest 128 samples leave the queue; with fewer waiting, silence is given and none is taken |
| Reblocking.FrameAdapter.TakeIn | frontend/src/audio/denoisers/frame-adapter.ts:35-46 | one quantum of input goes into frames, each processed once when full, in the order of the input |
| Reblocking.FrameAdapter.GiveOut | frontend/src/audio/denoisers/frame-adapter.ts:48-53 | silence while the delay lasts, then the next processed samples; there are always enough |
| Reblocking.FrameAdapter.Process | frontend/src/audio/denoisers/frame-adapter.ts:34-54 | on every run the output so far is the priming silence followed by the processed consecutive frames of the input, without gap or repetition |
| Reblocking.FrameAdapter.PendingIsScheduled | frontend/src/audio/denoisers/frame-adapter.ts:65-70 | the ring holds what the arithmetic of the delay says, so the branch for too few samples is never reached |
| AudioTrackModel.AudioTrack.Shift | backend/src/sfu/audio.rs:161-166 | the number, marker and new state of a forwarded packet; an owner-marked packet leaves the resumed flag as it is |
| AudioTrackModel.AudioTrack.Skip | backend/src/sfu/audio.rs:170-182 | a packet behind a forwarded one is not dropped; otherwise the last 64 drops are kept and the older ones counted |
| AudioTrackModel.AudioTrack.OnPacket | backend/src/sfu/audio.rs:365-368 | a silent packet is dropped if it can be, anything else is forwarded |
| AudioTrackModel.DroppedExactly | backend/src/sfu/audio.rs:170-182 | on every run a packet is dropped exactly when it is silence and no packet forwarded before it has a higher number |
| AudioTrackModel.Remembers | backend/src/sfu/audio.rs:34-36 | at any time the kept drops are the last 64 of the run and the counter is the number of the others |
| AudioTrackModel.ShiftCountsAllDrops | backend/src/sfu/audio.rs:161-166 | a forwarded packet's number is its sequence number less all drops below it in the whole run exactly when it does not trail a forgotten drop (or all lower numbers were dropped) |
| AudioTrackModel.TrailingMisnumbered | backend/src/sfu/audio.rs:161-182 | a packet behind 65 or more drops does trail a forgotten one and gets the wrong number |
| AudioTrackModel.ForwardedNumbers | backend/src/sfu/audio.rs:44-46 | forwarded numbers keep the order of the packets and differ by the numbers not dropped in between |
| AudioTrackModel.DropsLeaveNoGap | backend/src/sfu/audio.rs:44-46 | where everything between two forwarded packets was dropped, their numbers are consecutive |
| AudioTrackModel.MarkedTwice | backend/src/sfu/audio.rs:159-166 | a run on which an owner-marked packet leaves the mark of a drop to the next packet |
| AudioTrackModel.MarkedExactly | backend/src/sfu/audio.rs:159-166 | a forwarded packet is marked exactly when its owner marked it or it follows a drop with only owner-marked packets in between |
| SlotStreamModel.Sub.Map | backend/src/sfu/audio.rs:90-112 | the slot base, the last packet of the slot and the rewritten packet |
| SlotStreamModel.OwnerNumber | backend/src/sfu/audio.rs:105 | relative to the owner's first packet, numbers keep their distance; packets older than it are left out |
| SlotStreamModel.OwnerStart | backend/src/sfu/audio.rs:93-104 | a new owner starts marked, one past everything written before, and at least one 960-sample frame later |
| SlotStreamModel.LaterOwnerStarts | backend/src/sfu/audio.rs:93-104 | the first output of a later owner comes one number after the highest written before it, and after that output by 48 samples for every whole millisecond passed since, 960 at least and 2^32 - 1 at most (if fewer than 2^32 milliseconds have passed; 960 at least in any case) |
| SlotStreamModel.FirstOwnerStarts | backend/src/sfu/audio.rs:102-104 | the first owner of a slot starts at number 1 and time 0, marked |
| SlotStreamModel.OwnerSpacing | backend/src/sfu/audio.rs:106 | timestamps keep the owner's spacing modulo 2^32 |
| SlotStreamModel.SlotNumbersDistinct | backend/src/sfu/audio.rs:70-72 | over any succession of owners no number is written into a slot twice, and later owners' numbers are higher |
| SlotStreamModel.SentIsReceived | backend/src/sfu/audio.rs:138-152 | every packet a track forwards after a slot has joined it reaches the splicing, with its own timestamp and time of arrival |
| SlotStreamModel.SlotNeverRepeats | backend/src/sfu/audio.rs:138-152 | the same from the microphones on, through dropping, reordering and splicing |
| SlotPool.SlotNameInjective | backend/src/sfu/audio.rs:328 | different slots have different names |
| SlotPool.AudioPeer.FreeDeparted | backend/src/sfu/audio.rs:286-293 | exactly the slots of tracks no longer wanted are freed, unsubscribed and noted in slot order |
| SlotPool.AudioPeer.FillEmpty | backend/src/sfu/audio.rs:298-305 | new tracks go into the empty slots in order until either runs out, and each is noted |
| SlotPool.AudioPeer.AddSubs | backend/src/sfu/audio.rs:312-314 | after the announcement every track in a slot is subscribed with exactly that slot |
| SlotPool.FilledOneSlotEach | backend/src/sfu/audio.rs:294-305 | no owner gets a second slot |
| SlotPool.AudioPeer.Allocate | backend/src/sfu/audio.rs:286-315 | one pass of freeing and filling: state, message, and how many tracks have found no slot |
| SlotPool.AudioPeer.Reconcile | backend/src/sfu/audio.rs:277-344 | keeps the pool's invariant; announces just the allocation made; afterwards the slots hold tracks the room has, none of them the peer's own, and every other peer's track has a slot or all earlier slots are in use; a slot whose track the room still has is left as it is; an offer is pending exactly when it could be made and there were no slots or somebody waits, and it adds just the slots due |
| SlotPool.AllocatedFromRoom | backend/src/sfu/audio.rs:283-293 | after an allocation the slots hold tracks the room has for their owners, and none of the peer's own |
| SlotPool.ServedBy | backend/src/sfu/audio.rs:294-318 | the tracks that found no slot are exactly those counted as waiting, and then no slot is empty |
| SlotPool.GrowthIsLeast | backend/src/sfu/audio.rs:317-318 | the slots an offer adds are the fewest that suffice: at least eight at first, later a multiple of four |
| SlotPool.AudioPeer.Sync | backend/src/sfu/audio.rs:246-251 | does nothing while an offer is in flight, otherwise reconciles |
| SlotPool.AudioPeer.AcceptAnswer | backend/src/sfu/audio.rs:254-272 | opens or takes back the offered slots and reconciles; without a pending offer nothing changes |
| SlotPool.AudioPeer.Close | backend/src/sfu/audio.rs:239-241 | leaves no subscription of this connection behind |
| SlotPool.RetainOpen | backend/src/sfu/audio.rs:335-337 | taking back an offer that could not be made restores the slots |
| SlotPool.OpenOnesPrefix | backend/src/sfu/audio.rs:268 | the slots kept after a refused answer are a prefix |
| SlotReplication.AudioClient.AssignSlots | frontend/src/sfu/client.ts:172-180 | the owners map and the net effect of the callbacks after one message |
| SlotReplication.AudioClient.BindSlot | frontend/src/sfu/client.ts:166-170 | a slot with an owner and a stream is reported |
| SlotReplication.AudioClient.TrackArrives | frontend/src/sfu/client.ts:187-192 | a stream that arrives is kept and reported for its owner |
| SlotReplication.AssignAllExact | frontend/src/sfu/client.ts:172-180 | a message that never gives a peer two slots at once leaves exactly the owners with a stream bound, each to its own |
| SlotReplication.ArriveExact | frontend/src/sfu/client.ts:187-192 | so does a stream that arrives |
| SlotReplication.AllocationMirrors | backend/src/sfu/audio.rs:284-311 | the entries of one allocation, applied in order, turn the owners before into the owners after, also for a slot freed and refilled in one message |
| SlotReplication.StepKeeps | backend/src/sfu/audio.rs:277-344 | every step of server, connection and client keeps the client exact and on the way to the server's slots |
| SlotReplication.HeardExactly | frontend/src/sfu/client.ts:161-180 | on every run, whenever no message is on its way, peer p is bound to stream m exactly when some slot carries p's track and m is the stream that arrived last under that slot's name |
| SlotReplication.NeverItself | backend/src/sfu/audio.rs:283 | in every state of every run neither the slots nor the client's bindings carry the peer's own voice |
| SlotReplication.SyncedFromRoom | backend/src/sfu/audio.rs:277-293 | after a sync with the room the slots hold its present tracks and no others |
| Presence.Hub.Push | backend/src/presence.rs:87-104 | every subscriber's queue gets the frame, or a fresh snapshot in place of its backlog when it is full; no queue exceeds 8 |
| Presence.Hub.Subscribe | backend/src/presence.rs:108-115 | a new subscriber starts with a snapshot under an id never used before |
| Presence.Hub.Unsubscribe | backend/src/presence.rs:59-63 | dropping the stream removes just that subscriber |
| Presence.Subscriber.Next | backend/src/presence.rs:41-50 | frames leave in order |
| PresenceJson.ParseSnapshot | frontend/src/hooks/useRoomPeers.ts:22-35 | for any JSON value: nothing if it is no snapshot, otherwise a list for each room from the peers that can be read |
| PresenceJson.PeersReadExactly | frontend/src/hooks/useRoomPeers.ts:11-19 | of any items just the objects with a text for an id are listed, in their order |
| PresenceJson.SnapshotReadExactly | frontend/src/hooks/useRoomPeers.ts:22-25 | a snapshot counts exactly when it has rooms that are an object or an array |
| PresenceJson.OthersIgnored | frontend/src/hooks/useRoomPeers.ts:38-53 | whatever comes in, an event that is no snapshot changes only the room it names, and that only if it is a departure with an id or brings a peer |
| PresenceJson.PrintedIsMerged | frontend/src/hooks/useRoomPeers.ts:78-105 | the client merges each event the server prints as the frame it stands for: snapshot, join, update or departure |
| PresenceRuns.MergedShown | frontend/src/hooks/useRoomPeers.ts:78-105 | merging a change replaces the word on its peer and on nobody else |
| PresenceRuns.ListedShown | backend/src/presence.rs:117-121 | a snapshot read room by room, with the changes not yet pushed, says what is so |
| PresenceRuns.StepKeeps | backend/src/presence.rs:87-121 | every step keeps the agreement: room changes, pushes subscriber by subscriber, snapshots in between, subscriptions, writes and merges |
| PresenceRuns.WatcherAgrees | backend/src/presence.rs:87-115 | with the changes of each peer pushed in order: in every reachable state, merging what is queued for a client and then the changes it has not been offered gives each peer as it now is; its queue never exceeds 8 |
| PresenceRuns.ListsExactly | frontend/src/hooks/useRoomPeers.ts:78-105 | once everything is pushed and read, a client lists exactly the peers of each room, each once |
| Presence.JsSpaceIs | frontend/src/hooks/useRoomPeers.ts:18 | what trimming removes is the white space of Unicode, less the next-line character and with the byte order mark |
| Presence.ShownName | frontend/src/hooks/useRoomPeers.ts:16-21 | a peer is shown by its name from the first to the last character that is no space, and by its id if there is none |
| PresenceOrders.AgreesExactly | backend/src/presence.rs:83-115 | in whatever order the changes of a peer are pushed, once nothing is under way for it a client shows it as it is exactly when the room list of the last snapshot was read after the last push of the peer began, or that push told what the last change made tells |
| PresenceOrders.QueueBounded | backend/src/presence.rs:87-104 | no queue exceeds 8, whatever the order |
| PresenceOrders.LateUpdateStays | backend/src/presence.rs:79-85 | a run that fails: join, update and departure of any peer, the departure pushed before the update; settled, the client still shows the peer |
| ScreenShare.Room.RemoveScreenSub | backend/src/sfu/screen.rs:739-771 | through all re-entry by closing, a removal is: the entry and the place are gone, their connections closed, and the encoder paused if nobody is left |
| ScreenShare.Room.ClosePc | backend/src/sfu/screen.rs:219-224 | a connection closes once and takes its subscription with it |
| ScreenShare.TwoHalves | backend/src/sfu/screen.rs:739-771 | the viewer's half and the session's half of a removal compose to the whole |
| ScreenShare.Room.HandleStart | backend/src/sfu/screen.rs:394-424 | a peer without a session gets the new one, registered under its token; any other is refused |
| ScreenShare.Room.EndSession | backend/src/sfu/screen.rs:550-600 | an end closes the session once, drops all its viewers' entries and connections, and unregisters it |
| ScreenShare.Room.HandleStop | backend/src/sfu/screen.rs:541-546 | ends the session the peer owns, if any |
| ScreenShare.Room.HandleSubscribe | backend/src/sfu/screen.rs:628-716 | both maps get the connection, the first viewer wakes the encoder, a viewer gone meanwhile loses it again; an unknown publisher, a second subscription and a closed session change nothing |
| ScreenShare.Room.HandleResume | backend/src/sfu/screen.rs:798-849 | a granted resume rebinds and empties the session and drops the entries under the former id; a refused one changes nothing |
| ScreenShare.Room.FirstScreenVideo | backend/src/sfu/screen.rs:503-523 | the first packet pauses the encoder of a present publisher nobody watches |
| ScreenShare.Room.AddPeer | backend/src/sfu/mod.rs:281-321 | a peer that was there stays exactly when the new one has no client name or another one; the screen connections that close are just those of the peers that go, and the state is otherwise the old one with the new peer |
| ScreenShare.Room.EvictClient | backend/src/sfu/mod.rs:286-295 | a peer stays exactly when the client is unnamed or not its own |
| ScreenShare.Room.RemovePeer | backend/src/sfu/mod.rs:334-348 | a peer that leaves takes its subscriptions along and its session waits |
| ScreenShareRuns.ClosedKeeps | backend/src/sfu/screen.rs:739-771 | closing any connection keeps ownership, both maps and the encoder rule |
| ScreenShareRuns.EndedKeeps | backend/src/sfu/screen.rs:550-600 | so does ending a session |
| ScreenShareRuns.ResumedKeeps | backend/src/sfu/screen.rs:798-849 | so does a resume |
| ScreenShareRuns.JoinedKeeps | backend/src/sfu/mod.rs:281-321 | so does a join with evictions |
| ScreenShareRuns.LeftKeeps | backend/src/sfu/mod.rs:334-348 | so does leaving |
| ScreenShareRuns.SubscribedKeeps | backend/src/sfu/screen.rs:628-716 | so does subscribing |
| ScreenShareRuns.UnsubscribedIs | backend/src/sfu/screen.rs:736-771 | in these states an unsubscribe is the closing of the connection in the viewer's entry, and nothing without one |
| ScreenShareRuns.FirstVideoKeeps | backend/src/sfu/screen.rs:503-523 | so does the first packet |
| ScreenShareRuns.StartedKeeps | backend/src/sfu/screen.rs:405-415 | so does a start |
| ScreenShareRuns.OneOwner | backend/src/sfu/screen.rs:394-424 | over any run of whole handlers: an owned session is live, names its owner as publisher, is found by its token and has no second owner |
| ScreenShareRuns.MapsAgree | backend/src/sfu/screen.rs:628-771 | a present viewer's entry is its place in the live session its key names, and in the session of a present publisher nobody else has a place |
| ScreenShareRuns.EncoderAwake | backend/src/sfu/screen.rs:509-523 | while a present publisher's session has a viewer, the last its encoder heard is to send |
| ScreenShareRuns.GraceIsForOrphans | backend/src/sfu/screen.rs:775-794 | with whole handlers a grace window only runs for a live session nobody owns |
| ScreenShareRuns.ResumeExactly | backend/src/sfu/screen.rs:798-826 | a resume is granted exactly when the token is a live session's, the peer is present and owns no other, and no other peer owns it |
| ScreenShareRuns.RunLinked | backend/src/sfu/screen.rs:739-771 | the methods of the room can be called in every state of a run |
| ScreenEffects.ClosedCuts | backend/src/sfu/screen.rs:739-771 | a closing connection loses its entry and, with a present publisher, its place; the publisher is paused exactly when that was its last viewer; nothing else is different |
| ScreenEffects.CloseAllCuts | backend/src/sfu/screen.rs:739-771 | closing several connections one after the other has the effect of closing them at once, whatever their order |
| ScreenEffects.EndedEnds | backend/src/sfu/screen.rs:550-600 | an end closes the session and exactly its connections, takes every entry under its publisher, the owner and the token away, and leaves other sessions alone; a second end does nothing |
| ScreenEffects.ResumedResumes | backend/src/sfu/screen.rs:828-849 | a granted resume gives the session without viewers to the peer and takes every entry under the former id away; a refused one changes nothing |
| ScreenEffects.SubscribedSubscribes | backend/src/sfu/screen.rs:628-716 | a subscription enters both maps and wakes the encoder exactly when nobody watched; a viewer gone meanwhile leaves a closed connection and a pause; an unknown publisher or a second subscription changes nothing |
| ScreenEffects.FirstVideoArrives | backend/src/sfu/screen.rs:509-523 | the first packet, and no later one, pauses the owner exactly when nobody watches |
| ScreenEffects.LeftLeaves | backend/src/sfu/mod.rs:334-348 | a peer that leaves takes along exactly its connections, entries and places with present publishers; the session it owned, and no other, starts to wait |
| ScreenEffects.JoinedJoins | backend/src/sfu/mod.rs:281-321 | over whole steps: a join removes exactly the peers of its named client and closes exactly their connections; no grace window is armed |
| ScreenEffects.StepEffect | backend/src/sfu/screen.rs:394-849 | on every run every step has exactly its effect, stated without the order in which connections close and re-enter |
| ScreenEffects.NoneLeftOpen | backend/src/sfu/screen.rs:550-771 | on every run an open viewer connection has a present viewer and a live session that both list it, so none outlives either |
| ScreenEffects.PausedExactly | backend/src/sfu/screen.rs:509-523 | the last that the encoder of an unwatched publisher heard is to pause exactly when it lost its last viewer, or began unwatched, otherwise than by a resume, or was pausing already, or a viewer that had gone subscribed since |
| ScreenEffects.ResumeLeavesAwake | backend/src/sfu/screen.rs:828-849 | after a watched publisher claims its own session again nobody watches and its encoder still sends |
| ScreenEffects.ReturnsAwake | backend/src/sfu/screen.rs:828-849 | a run in which a publisher comes back under a new id and is never told to pause |
| ScreenOwnership.StepKeeps | backend/src/sfu/screen.rs:394-424 | each locked section of join, removal, start, resume and end keeps the ownership invariant, however they interleave |
| ScreenOwnership.OneOwner | backend/src/sfu/screen.rs:550-600 | in every such interleaving a session has one present owner at most, the peer it names, and its token finds it |
| ScreenOwnership.NeverClaimedAgain | backend/src/sfu/screen.rs:820-832 | a closed session stays closed, keeps its publisher and gets no new owner |
| ScreenOwnership.PeersGoExactly | backend/src/sfu/mod.rs:286-295 | in every section a present peer goes exactly by its own removal or by a join for its named client |
| ScreenOwnership.RegisteredOnce | backend/src/sfu/screen.rs:404-419 | a session is registered at most once, also when its registration finds the peer gone or busy |
| ScreenOwnership.EndedForGood | backend/src/sfu/screen.rs:550-560 | from the first section of its end on a session is over and no resume gets it |
| ScreenOwnership.ResumeExactly | backend/src/sfu/screen.rs:800-838 | the claim section grants exactly the resumes of live sessions that nobody else owns, and otherwise changes nothing |
| ScreenOwnership.OwnedGraceExactly | backend/src/sfu/screen.rs:775-794 | in every interleaving, the window of a session that has its owner runs exactly when the arming section ran while that owner had it and it was live, and nobody has claimed or closed it since |
| ScreenOwnership.GraceCanMeetAnOwner | backend/src/sfu/mod.rs:345-348 | arming the window is a section of its own: after a resume in between it runs for a session that has its owner back |
| LayerControl.LayerCtl.EvalAutoDowngrade | backend/src/sfu/screen.rs:894-940 | one evaluation of the last loss sample |
| LayerControl.Clocks | backend/src/sfu/screen.rs:900-940 | at most one streak clock runs, and it runs from the first evaluation of an unbroken streak |
| LayerControl.TargetInRange | backend/src/sfu/screen.rs:894-940 | the target stays within 0 to 2 and moves by one; a step down stays at or above the floor |
| LayerControl.CountsChanges | backend/src/sfu/screen.rs:894-940 | the chain generation is the number of changes made, and the target is the start plus the steps up less the steps down |
| LayerControl.ChangesExactly | backend/src/sfu/screen.rs:894-940 | the layer changes just at the end of an unbroken streak of evaluations due for that change, with none in between, that spans the window of the mode then in force |
| LayerControl.ChangeTakes | backend/src/sfu/screen.rs:37-63 | a step down takes 5% loss for 2 s, with motion 12% for 3 s and never below layer 1; a step up takes at most 1% for 4 s, with motion 3% for 7 s; all evaluations of that time have seen it and changed nothing |
| LayerControl.ChangesApart | backend/src/sfu/screen.rs:35-37 | any two changes are at least two seconds apart |
| Utf8.DecodeExactly | backend/src/http/upload.rs:268 | bytes decode to a string exactly when they are its encoding, and to none otherwise |
| PercentCoding.PathEscape | backend/src/http/mod.rs:174-185 | kept bytes stand for themselves, others become `%` and two capital digits |
| PercentCoding.UnchangedExactly | backend/src/http/mod.rs:174-185 | escaping leaves a text alone exactly when it is made of letters, digits and -_.~$&+=:@, and makes any other longer |
| PercentCoding.HexValIs | backend/src/http/mod.rs:164-172 | a digit stands for v exactly when it is the v-th hexadecimal digit in either case |
| PercentCoding.PercentDecode | backend/src/http/mod.rs:146-162 | every percent sign must be followed by two hexadecimal digits, of either case; anything else fails |
| PercentCoding.EscapeRoundTrip | backend/src/http/mod.rs:146-185 | decoding the escaped text gives the bytes back, for all byte strings |
| HeaderSplit.SplitParams | backend/src/http/upload.rs:213-242 | the loop with its two flags computes the split |
| HeaderSplit.SplitExactly | backend/src/http/upload.rs:213-242 | the split is the only way to write the text as parts without a semicolon outside quotes and with all quotes closed; it fails exactly when there is none |
| HeaderSplit.QuotedWhole | backend/src/http/upload.rs:219-236 | whatever is quoted stays within one part |
| HeaderSplit.GoQuote | backend/src/http/handlers.rs:442-458 | the quoted form of any text |
| HeaderSplit.GoQuoteExact | backend/src/http/handlers.rs:442-458 | a reader who knows Go's escapes gets every text back, control characters included, and none of those is written |
| HeaderSplit.UnescapeQuoted | backend/src/http/upload.rs:244-258 | a backslash gives way to the character after it |
| HeaderSplit.QuoteRoundTrip | backend/src/http/handlers.rs:442-458 | unescaping the quoted form gives the text back exactly when it has no control characters |
| ContentDispositions.ParseParams | backend/src/http/upload.rs:185-211 | the loop over the parts, with its early failures, computes the parameters; the extended form wins |
| ContentDispositions.LowerIs | backend/src/http/upload.rs:199 | keys and charsets lose the case of the 26 letters of ASCII and nothing else |
| ContentDispositions.QuotedParamRead | backend/src/http/upload.rs:193-206 | white space around key and value does not matter and the key is read in lower case; the value is the unescaped text |
| ContentDispositions.ExtParamRead | backend/src/http/upload.rs:203-205 | an extended parameter gives any text back, in any spelling of the accepted charsets and with any language |
| ContentDispositions.ExtParamRefused | backend/src/http/upload.rs:261-271 | an extended parameter in another charset spoils the header |
| ContentDispositions.MalformedRefused | backend/src/http/upload.rs:185-205 | a header with a blank first part, or with a part that is not blank and has no equals sign, gives no name |
| ContentDispositions.BlankIgnored | backend/src/http/upload.rs:193-197 | a blank part between or after the others changes nothing |
| ContentDispositions.PrintedParts | backend/src/http/upload.rs:170-177 | the printed header splits into the disposition and its two parameters |
| ContentDispositions.PrintParse | backend/src/http/upload.rs:170-183 | every name printed into a header is read back from it |
| ContentDispositions.DownloadRoundTrip | backend/src/http/upload.rs:151-153 | so for the two dispositions in use |
| ContentDispositions.PrintedVisible | backend/src/http/upload.rs:170-177 | everything printed is visible ASCII, as the reader of the header demands |
| ContentDispositions.DesktopRoundTrip | backend/src/http/handlers.rs:436 | the header with the quoted form alone gives the name back exactly when it has no control characters |
| ContentDispositions.FallbackName | backend/src/http/upload.rs:174-176 | who reads the quoted part alone gets a name of the same length: the characters of the name that are printable ASCII and neither quote nor backslash, and underscores for just the others |
| BitStrings.ShiftMask | backend/src/sfu/dd.rs:62-66 | shifting and masking a byte gives the value of its bits in between |
| BitReading.BitReader.Read | backend/src/sfu/dd.rs:54-72 | reading in chunks, a byte at a time, gives the big-endian value of the next n bits, or fails without moving when there are fewer |
| BitReading.BitReader.Bool | backend/src/sfu/dd.rs:74-76 | one bit |
| BitReading.BitReader.Ns | backend/src/sfu/dd.rs:79-91 | the non-symmetric code, and a value below n |
| BitReading.NsExactly | backend/src/sfu/dd.rs:79-91 | the reader finds v exactly when the bits start with the code of v and v is below n |
| BitReading.NsPrefixFree | backend/src/sfu/dd.rs:79-91 | no code is the start of another |
| DdParsing.ReadLayers | backend/src/sfu/dd.rs:186-205 | the loop over the layer codes, with the limit of 64 templates and the stop at the end of the bits |
| DdParsing.ReadFdiffs | backend/src/sfu/dd.rs:210-214 | frame differences until a clear bit |
| DdParsing.ReadSized | backend/src/sfu/dd.rs:146-156 | a packet's own frame differences are counted |
| DdParsing.ReadChains | backend/src/sfu/dd.rs:215-225 | number of chains, protectors, and every template's differences |
| DdParsing.ParseStructure | backend/src/sfu/dd.rs:182-232 | the whole structure, or the first error |
| DdParsing.ReadHeader | backend/src/sfu/dd.rs:119-132 | the fixed fields, and flags and structure in an extension of more than three bytes |
| DdParsing.ReadBody | backend/src/sfu/dd.rs:138-172 | the template found by its id, and what the packet overrides |
| DdParsing.Parser.Parse | backend/src/sfu/dd.rs:114-178 | the result and the structure kept: a structure that arrives complete stays even if the rest of the packet fails |
| DependencyDescriptors.ParsedInRange | backend/src/sfu/dd.rs:158-162 | whatever the bytes, frame number and chain differences of a descriptor have their widths |
| DependencyDescriptors.NeedsTemplate | backend/src/sfu/dd.rs:114-144 | for any bytes that attach no structure: the structure kept stays; with the three fixed bytes there, the answer is "no structure" exactly when none has been kept, "invalid template" exactly when the kept one has no template of that number (and the targets can be read), and a descriptor only with a known template and the frame number sent |
| DescriptorRoundTrip.LayersBack | backend/src/sfu/dd.rs:190-205 | template layers written as steps are read back |
| DescriptorRoundTrip.StructureBack | backend/src/sfu/dd.rs:182-232 | a structure written as appendix A has it is read back |
| DescriptorRoundTrip.BodyBack | backend/src/sfu/dd.rs:138-172 | so are a packet's own dependencies |
| DescriptorRoundTrip.PacketBack | backend/src/sfu/dd.rs:114-178 | one encoded packet yields the frame number, temporal layer, no-dependency flag and chain differences it was made from, and its structure is kept |
| DescriptorRoundTrip.StreamBack | backend/src/sfu/dd.rs:4-6 | so does every packet of any stream, with structures replaced on the way and packets without the extension in between |
| DescriptorRoundTrip.AttachedIsKept | backend/src/sfu/dd.rs:132-144 | an attached structure is kept whatever follows it and whatever was kept before, also if the packet is refused |
| DescriptorRoundTrip.CanEncode | backend/src/sfu/dd.rs:114-178 | every well-formed packet has an encoding |
| ChainIntegrity.ChainTracker.Mark | backend/src/sfu/codec.rs:138-143 | clears the bit half a ring away and sets the packet's |
| ChainIntegrity.ChainTracker.WasSeen | backend/src/sfu/codec.rs:145-148 | reads the packet's bit |
| ChainIntegrity.ChainTracker.Allow | backend/src/sfu/codec.rs:109-136 | the gate: reset, bootstrap, refusal after a missed link, and marking |
| ChainIntegrity.ChainTracker.SetChain | backend/src/sfu/codec.rs:95-100 | another chain resets, the same one does nothing |
| ChainIntegrity.RecordedIsSetLast | backend/src/sfu/codec.rs:138-148 | a bit is set exactly when the last mark that touched its residue or the opposite one set it |
| ChainIntegrity.MarkedIsFound | backend/src/sfu/codec.rs:80-81 | on in-order runs a marked predecessor at most 128 back is found, except one exactly 128 back that a packet of the same frame has cleared |
| ChainIntegrity.RingAnswersLikeSet | backend/src/sfu/codec.rs:138-148 | when every mark is followed by one 128 later before the run moves on, the ring answers like the set of marked numbers, less those whose opposite is marked too |
| ChainIntegrity.FixedStepSweeps | backend/src/sfu/codec.rs:138-148 | marks that advance by a fixed step dividing 128 are such a run |
| ChainIntegrity.PassesExactly | backend/src/sfu/codec.rs:106-149 | on any run from a keyframe to the next: a described packet passes exactly when its own link and every one before it, back to the keyframe, lead to a residue modulo 256 that some forwarded frame has and no later forwarded one the opposite of |
| ChainIntegrity.PassesIfForwarded | backend/src/sfu/codec.rs:82-86 | where frames come in order and forwarded ones sweep: exactly when all these links lead to frames that were forwarded and have not expired |
| ChainIntegrity.StaleBitPasses | backend/src/sfu/codec.rs:138-149 | a run that advances by 12, where a packet passes whose predecessor was never forwarded |
| ChainIntegrity.ShortLink | backend/src/sfu/codec.rs:121-128 | a predecessor less than 128 back never expires: the link holds exactly when it was forwarded |
| ChainIntegrity.RefusedUntilKeyframe | backend/src/sfu/codec.rs:120-126 | after a refusal no packet with a descriptor passes until a keyframe |
| ChainIntegrity.BrokenExactly | backend/src/sfu/codec.rs:111-134 | on every run the tracker is broken exactly when it has refused a packet since the last keyframe or change to another chain |
| ChainIntegrity.RetargetRefuses | backend/src/sfu/codec.rs:94-123 | after a change to another chain no described packet passes until the next keyframe |
| ChainIntegrity.StructureRefuses | backend/src/sfu/codec.rs:111-123 | nor from a packet on that attaches a structure without being a keyframe |
| ChainIntegrity.NothingBeforeKeyframe | backend/src/sfu/codec.rs:119-123 | nor before the first keyframe of all |
| ChainIntegrity.AlwaysPass | backend/src/sfu/codec.rs:109-118 | a keyframe passes, and so does a packet without layer information |
| ChainIntegrity.NoDifference | backend/src/sfu/codec.rs:95-100 | taking a change to the chain already targeted, or a packet without layer information, out of a run changes no later answer |
| RateLimiting.Limiter.AllowAt | backend/src/ratelimit.rs:47-64 | one call: eviction at the cap, refill, token or time to wait |
| RateLimiting.Limiter.Evict | backend/src/ratelimit.rs:69-78 | idle buckets go; if there is none, an oldest one |
| RateLimiting.SizeBounded | backend/src/ratelimit.rs:49-52 | the map never exceeds the cap |
| RateLimiting.EvictionInvisible | backend/src/ratelimit.rs:67-78 | when a bucket idle past the ttl would be full, every answer to a key not forced out is the one without any eviction |
| RateLimiting.SpanBoundHolds | backend/src/ratelimit.rs:53-58 | then such a key gets at most burst plus rate times the span in any span |
| RateLimiting.OveruseBreaksBound | backend/src/ratelimit.rs:71 | otherwise a legal run lets twice the burst through within the time to refill less than one |
| RateLimiting.SpanBoundExactly | backend/src/ratelimit.rs:47-78 | the bound holds on all runs exactly when rate times ttl is at least the burst |
| RateLimiting.LateCallRefills | backend/src/ratelimit.rs:43-55 | a run of three calls in which a late one puts the bucket's time back and two events pass at one moment with a burst of one |
| RateLimiting.RetryWorks | backend/src/ratelimit.rs:60-63 | after a refusal the next use of the key succeeds once the time answered is over |
| RateLimiting.RetryNoSooner | backend/src/ratelimit.rs:60-63 | no sooner either: with its bucket still there, the next use of the key is refused until just that time is over, and for good without a refill |

## Left out

- Sockets, tasks and timers, ICE and SDP, JSON, cookies, password hashing, the React components and the desktop shell.
- The neural network's semantics and the windows of analysis and synthesis; `dn_create` is modelled only for the
  tables of the transform, written once.
- The VP9 payload parser, the origin policy around the matcher and its case folding, `filestore.rs`,
  `auth/limiter.rs`, `connpass.rs` and `reconnect.ts` are not modelled.
- FftInPlace.Denoiser.Transform: exact complex numbers, so nothing is said about rounding.
- Convolution.Conv: exact reals and unbounded indices; the register tiles are an array here.
- Reblocking.FrameAdapter.Process: `processFrame` is any step function over a state that keeps the frame size; what
  the denoiser computes is not part of this model.
- AudioTrackModel.AudioTrack.Shift: sequence numbers are unbounded, as the extended 64-bit ones of the library are
  taken to be.
- SlotPool.AudioPeer.Reconcile: media lines, the receiving line of the first offer and the answer's contents are not
  part of this model; whether an offer could be made is a parameter.
- SlotPool.AudioPeer.Sync: subscriptions are exactly the assigned slots while the connection is open; forwarding drops
  the subscribers it finds closed, which is not part of this model.
- SlotReplication.HeardExactly: one connection without reconnects; the callbacks count by their net effect, which
  peer is bound to which stream.
- PresenceRuns.WatcherAgrees: for runs that push the changes of one peer in their order (those of different peers in
  any); `PresenceOrders.AgreesExactly` has the others.
- PresenceJson.PrintedIsMerged: from parsed JSON values on; which other fields the server prints is left open.
- ScreenShareRuns.MapsAgree: handlers are whole steps; the two locked sections of a subscribe and the race of the
  grace timer are not interleaved, and for a session without its publisher stale places may remain until a resume.
- ScreenOwnership.StepKeeps: an end may be asked for at any time for any registered session, which covers stop, grace
  expiry and a closed publisher connection without telling them apart.
- LayerControl.ChangesApart: the clock is positive and does not go back, as 0 stands for no streak in the code.
- BitReading.BitReader.Ns: n below 2^31, where the shift of the code does not overflow.
- DescriptorRoundTrip.StreamBack: packets of the encoder; for other bytes there are
  `DependencyDescriptors.NeedsTemplate` and `DdParsing.Parser.Parse`. What the parser skips (decode target
  indications, render sizes) is not compared.
- ChainIntegrity.RingAnswersLikeSet: for runs that sweep the ring; `ChainIntegrity.RecordedIsSetLast` says what a bit
  means on any run.
- RateLimiting.Limiter.AllowAt: exact reals, times from 0 on, and the burst a whole number as in the constructor.
- RateLimiting.SpanBoundExactly: for runs whose calls come in order of time; `RateLimiting.LateCallRefills` is one
  where they do not.
- Utf8.DecodeExactly: well-formed UTF-8 as RFC 3629 has it stands for the library's conversion.
- ContentDispositions.PrintParse: the disposition is more than space, closes its quotes and has no semicolon outside
  them, as the two in use are.
