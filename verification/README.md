# Feeder daemon: a verified model

This project models the feeder daemon under `server/src` and proves properties of it.  NDJSON
adapters feed an aircraft tracker; the tracker feeds batch windows; windows are chunked into sighting
records; published sightings are indexed by aircraft so that a departing aircraft's flight record can
cite them; what cannot be published waits in a retry queue.  Raw radio bytes take a second path
through a binary envelope (ATRX), and live updates go out over an event stream.

Everything that runs between two awaits runs to completion, and the steps of different callbacks and
timers interleave freely.  An await-free segment is one step or a few: reading a message, taking the
refs of one departed aircraft and ending its record are steps of their own, although the code goes on
from one to the next at once when it has nothing to await.  So every schedule of the code is a run of
the model, and what is proved of all runs holds of all schedules.  Where a schedule is exhibited, it is
one that the code can take: `DaemonModel.AsWritten` says that every step happens and that what goes on
without an await goes on next.  A step that is not enabled does nothing, so every list of events is a
run.

| file | what it holds |
|---|---|
| `Wrappers.dfy`, `Records.dfy`, `Backoff.dfy` | shared datatypes, the published records, capped doubling |
| `Tracker.dfy`, `TrackerHistory.dfy`, `TrackerClass.dfy` | the tracker as a function, as a summary of history, and as mutable objects |
| `Batch.dfy`, `Blobs.dfy` | the batch window in JavaScript key order, and its chunking |
| `Queue.dfy`, `QueueClass.dfy` | the retry queue under overlapping drains, and as an object |
| `DaemonModel.dfy` | the daemon core as a transition system, with a history kept only for stating properties |
| `Frames.dfy`, `Conservation.dfy`, `Sessions.dfy` | what each step leaves alone, what becomes of every position, and the sessions of an aircraft |
| `Provenance.dfy`, `Handover.dfy`, `Citation.dfy` | which departure takes which sighting, and when what it takes is exactly its session |
| `Exactness.dfy`, `Scenarios.dfy` | runs that are timely for an aircraft, and four schedules of the code |
| `Captures.dfy`, `SightingRecords.dfy` | what becomes of every raw capture, and what sighting records carry and say |
| `Observed.dfy`, `FlightRecords.dfy`, `DaemonQueue.dfy` | from messages to positions and departures, when a flight record is made and what it says, and the daemon's retry queue |
| `DaemonTheorems.dfy` | the main results about the daemon, over every run |
| `DaemonClass.dfy` | the same steps as methods of an object that owns a tracker and a queue |
| `Beast.dfy`, `Atrx.dfy`, `AtrxSplit.dfy`, `RawCapture.dfy` | frame counting, the envelope, uploads, and the capture path end to end |
| `Stream.dfy`, `StreamClass.dfy` | the subscriber loop with its hand-rolled wakeup, and the broadcaster |
| `AdapterServer.dfy`, `Framing.dfy`, `Cutting.dfy`, `Registry.dfy`, `Routing.dfy`, `AdapterServerClass.dfy` | line framing, independence of cuts, the connection registry, what is routed, and the server as an object |
| `Stats.dfy`, `Reporting.dfy` | statistics polling and accumulation, alone and together with the daemon |

Code that updates fields in place is a class whose methods are proved equal to a specification
function of the old state; the theorems are about those functions.  `dafny verify dfyconfig.toml`
checks the project.

## What is not interpreted

zstd and CBOR are function values with an inverse (`Codec.Inverts`) where a property needs one; the
compressed size of a window is any function, monotone only where a property says so; trimming, JSON
parsing and validation of a line are one function; distance is a function of two reals.  Dates are
whole milliseconds, converted from seconds by truncation toward zero.  Connections, flushes,
departures and drains are named by numbers.  The repository is assumed never to hand out the same
strong ref twice and to keep nothing of a call that fails, and a destroyed socket to deliver no more data.
The sessions of an aircraft are counted, so that two that begin at the same time are two.  A blob stands
for its content, and an uploaded one is found again under the record that cites it.

## What the proofs brought out

- A departure takes the sightings that flushes published for its aircraft since the aircraft's previous
  departure was reached, which need not be those of its own session.  `DaemonTheorems.TakingIsExactExactlyWhen`
  says when they are, for every run, and `DaemonTheorems.DepartureIsExactExactlyWhen` says it by what the index
  and the flushes hold when the departure is reached.
- A sighting that was refused and that a drain publishes later is never cited by any flight record:
  `drainQueue` does not touch the index.  `Scenarios.RetriedSightingIsNeverCited` is such a run, and
  `DaemonTheorems.SightingsAreHandedOutOnce` says it of every run.
- A daemon that keeps up with an aircraft cites its sessions exactly (`DaemonTheorems.ProvenanceIsExact`):
  message timestamps do not go back, every position is published within 60 s of message time, nothing
  fails that concerns the aircraft, and a departure of it is reached before it is published or departs
  again.  Two more schedules in `Scenarios.dfy` show what happens otherwise: a window that outlives a
  departure misplaces its sighting, and a waiting departure that is overtaken loses its refs even when
  publication was prompt.
- Raw captures are taken off their list at every tick, so those of an empty window are never uploaded;
  `DaemonTheorems.DroppedExactlyWhen` gives every step that drops one.  A blob that is uploaded is cited by the
  record of the first chunk alone, so when the upload of that chunk fails the captures in it are in no
  record; see `DaemonTheorems.CaptureIsRecordedExactlyWhen`.
- A subscriber that a frame has woken and that is aborted before it runs again ends with its queue
  undelivered; see `Stream.AbortDeliversExactlyWhen`.
- Framing depends on the cut in one case: a connection that greets again under a source it already
  holds destroys its own socket while its loop reads on.  `Cutting.CutsAreUnseenExactlyWhen` gives the
  exact condition.
- A connection that greets under two sources is cleaned up only under the first; see
  `Registry.CleanupIsCompleteExactlyWhen`.  Even so the registry never names anybody but the last greeter
  of a source, and one open connection at most speaks for it.
- A Retry-After header that is not a number makes the rescheduling throw, and the rest of that drain
  is given up (`Unusable` in `Queue.dfy`).
- If signing a frame throws, all departures of that message are dropped (`DropDepartures` in
  `DaemonModel.dfy`).
- `docs/verification-path.md:33` gives the envelope version as 1; the code writes version 2 with a
  payload length and accepts version 1 only as the last section.  The model follows the code.

## Model

| member | source | states |
|---|---|---|
| `TrackerHistory.TrackerRefinesHistory` | server/src/tracker.ts:111-239 | After any list of updates, duplicates inside one update included, an aircraft is tracked exactly when its session is not empty, and its entry is the declarative summary of that session: latest callsign, category, squawk and pressure setting, first and latest state that an observation gave, freshest fix, widest range over all located observations, and a track whose k-th report has the coordinates, the time, the source and the state of the k-th fix, the fixes being the strict left-to-right minima of seenPos; positionCount is its length |
| `TrackerHistory.AbsorbSummarises` | server/src/tracker.ts:125-182 | One more observation of a tracked aircraft keeps every field the summary of one more observation |
| `TrackerHistory.OpenSummarises` | server/src/tracker.ts:183-238 | A new entry is the summary of its first observation |
| `TrackerHistory.DepartureIsExact` | server/src/tracker.ts:111-258 | With timestamps that never go back, an aircraft departs at a message if and only if it has a session and every message that mentioned it, this one included, is at least 60 s old; it departs once, and the reported entry is the summary of its whole session |
| `TrackerHistory.NoStaleEntry` | server/src/tracker.ts:241-255 | After a message, a live aircraft it did not mention was seen less than 60 s before |
| `TrackerHistory.SessionsAreConserved` | server/src/tracker.ts:241-255 | Sessions opened equal sessions departed plus sessions live, for every aircraft, in every run |
| `TrackerHistory.CyclePositions` | server/src/tracker.ts:146-169 | What one message adds to the emitted positions of an aircraft is exactly what it appends to that aircraft's track |
| `TrackerHistory.UpdateDeparts` | server/src/tracker.ts:241-257 | An update reports an aircraft once if it is tracked, unmentioned and overdue, else not at all, and keeps exactly the others and the mentioned ones |
| `TrackerHistory.UpdateDeparted` | server/src/tracker.ts:241-257 | The departed list holds exactly the overdue absent entries, unchanged, each aircraft once |
| `TrackerHistory.UpdateMentioned` | server/src/tracker.ts:121-239 | A mentioned aircraft is live afterwards, in its old session or in one opened now, with its new reports at the end of its track |
| `TrackerHistory.UpdateUnmentioned` | server/src/tracker.ts:241-257 | An unmentioned aircraft adds no position and is untouched unless it departs |
| `Tracker.UpdateWf` | server/src/tracker.ts:103-258 | An update keeps the map well formed: distinct keys, one entry under each, every entry under its own hex |
| `Tracker.ReportDescribes` | server/src/tracker.ts:152-161 | A report has the latitude, longitude and source of its observation, the time of message less age of the fix in whole milliseconds, an altitude only when it is numeric, and its speed, track and vertical rate |
| `Tracker.CallsignIsTrimmed` | server/src/tracker.ts:130-132 | A callsign is the flight without the white space around it; there is none only without a flight or if it is all white space |
| `Tracker.DateIsCut` | server/src/tracker.ts:115 | A date is the one number of whole milliseconds that the instant gives when its fraction is cut toward zero |
| `TrackerClass.TrackedAircraft.constructor` | server/src/tracker.ts:183-238 | The object created for a new aircraft holds the value of a freshly opened entry |
| `TrackerClass.TrackedAircraft.Observe` | server/src/tracker.ts:125-182 | Updating an entry in place gives the absorbed entry, and returns a report exactly when the observation was a new fix, with the coordinates, the time, the source and the state of that observation |
| `TrackerClass.AircraftTracker.Update` | server/src/tracker.ts:111-258 | The in-place update over mutable entry objects computes the new state, the departed list and the positions of the specification, for every valid tracker |
| `TrackerClass.AircraftTracker.AbsorbEach` | server/src/tracker.ts:121-239 | The update loop equals the fold of the observations |
| `TrackerClass.AircraftTracker.RemoveDeparted` | server/src/tracker.ts:241-255 | The departure loop and the deletions after it |
| `TrackerClass.AircraftTracker.GetCurrentMaxRange` | server/src/tracker.ts:268-276 | The result is at least zero, bounds every live range, and is zero or attained |
| `Batch.WindowKeepsArrivals` | server/src/batch.ts:17-28 | A window keeps every position, in arrival order under its aircraft, has a key exactly for the aircraft that had one, and keeps JavaScript key order |
| `Batch.AddGet` | server/src/batch.ts:17-28 | Adding a position appends it under its aircraft and changes no other |
| `Batch.AddKeepsOrder` | server/src/batch.ts:17-28 | Adding a position keeps JavaScript key order (digit-only hexes first, ascending) |
| `Batch.CollectSources` | server/src/batch.ts:55-63 | The list holds each source of the window once, in ascending string order, and no other |
| `Batch.BeforeIsByCodeUnit` | server/src/batch.ts:62 | The order that the sort uses is that of UTF-16 code units, for characters above the basic plane too |
| `Batch.AscendingIsUnique` | server/src/batch.ts:62 | A set of strings has one ascending list only, so what the sort returns is determined |
| `Batch.ManifestListsTheAircraft` | server/src/batch.ts:65-67 | The manifest names every aircraft of the window once, and no other |
| `Blobs.ChunksPartition` | server/src/blobs.ts:35-73 | On success the chunks concatenate in key order to the window, none is empty, and each obeys both limits |
| `Blobs.ChunkingFailsExactly` | server/src/blobs.ts:52-56 | When compressed size never grows by dropping aircraft and a manifest may hold one entry, chunking throws if and only if some single aircraft alone is over the byte limit |
| `Blobs.FailureNamesFirst` | server/src/blobs.ts:52-56 | The error names the first aircraft that is too large on its own |
| `Blobs.CompressionsBounded` | server/src/blobs.ts:39-72 | At most 2n-1 compressions for n aircraft |
| `Blobs.ChunkCount` | server/src/blobs.ts:44-49 | When only the manifest limit L binds and n exceeds it, c chunks satisfy c * ceil(L/2) <= n <= c * L |
| `Blobs.SplitHalves` | server/src/blobs.ts:58-67 | The two fresh objects filled by the loop are the two halves of the key order |
| `DaemonTheorems.PositionsAreConserved` | server/src/daemon.ts:225-234 | In every reachable state, for every aircraft, the reports emitted so far are the reports in the chunks of the windows swapped out followed by those in the current window, in order; and no two chunks of a window share an aircraft |
| `DaemonTheorems.ChunksAreInFlightOrSettled` | server/src/daemon.ts:415-535 | In every reachable state every chunk of a window that was swapped out is either still held by its flush or has met its fate, never both |
| `DaemonTheorems.ChunksReachTheirFate` | server/src/daemon.ts:493-535 | A settled chunk is where its fate says: in a sighting published by its flush, or in the retry queue until some publish of it is acknowledged |
| `DaemonTheorems.DiscardedExactlyWhen` | server/src/daemon.ts:429-536 | A step discards a chunk if and only if it is a failed upload and the flush still held the chunk, the one uploaded or any later one, or a tick whose window cannot be chunked, and then the chunk is the whole window |
| `DaemonTheorems.EachAttemptSettlesOneChunk` | server/src/daemon.ts:493-531 | Each publication or refusal settles the next chunk of its flush and no other: as a sighting under the new ref with the positions of its window, or as a record in the books of the queue under a new id |
| `Conservation.RunInv` | server/src/daemon.ts:222-536 | Every interleaving of callbacks and timers keeps the conservation invariant |
| `DaemonTheorems.SessionsDepartOnce` | server/src/tracker.ts:111-258 | In every run, also when message times go back or two sessions of an aircraft begin at the same time: sessions being numbered per aircraft, each departs once at most and after its last position, its entry's track is the list of all its positions and positionCount their number, and a session that is live now began later |
| `DaemonTheorems.PositionsAreTheFixes` | server/src/daemon.ts:225-234 | In every run, told from the messages alone: the positions emitted of a departed session are exactly the fixes of the session that departed, one report for each in order, with what the observation gave |
| `DaemonTheorems.LivePositionsAreTheFixes` | server/src/daemon.ts:225-234 | The same of a session that is live |
| `Observed.TrackerIsReplay` | server/src/daemon.ts:222-234 | However callbacks, timers and failures interleave, the daemon's tracker is the replay of the messages alone |
| `DaemonTheorems.DeparturesAreReachedInOrder` | server/src/daemon.ts:257-322 | In every run the entries that depart at a message are, in order, those its callback has reached followed by those that wait there; they are given up only when signing a frame fails |
| `DaemonTheorems.SightingRecordsTellTheirChunk` | server/src/batch.ts:30-53 | In every run the record of a chunk that was not lost, published or queued, holds exactly that chunk, lists its aircraft once each and its sources in ascending order, and names the window from the tick before to the tick that swapped it out |
| `DaemonTheorems.FlightsCiteTheirSightings` | server/src/daemon.ts:257-322 | With no timing assumption: every flight record, published or queued, has a non-empty list of distinct refs, each naming a published sighting whose manifest contains the aircraft; a queued one stays queued until acknowledged |
| `DaemonTheorems.FlightIsMadeExactlyWhen` | server/src/daemon.ts:266-322 | In every run a departure that was reached has a flight record, and one only, if and only if its session has positions, it took a ref, and its publication ended with an identity; the record has the times, counts, callsign, squawk, states and range of the entry, messages never below zero, cites exactly the refs taken, names the identity, and is queued exactly if it was refused; until then a departure with positions is in hand |
| `DaemonTheorems.FlightsTellTheirSession` | server/src/records.ts:55-96 | From observations to the record, in every run: what a flight record says of its aircraft sums up the observations of the session that departed |
| `Provenance.PublishedIndex` | server/src/daemon.ts:513-522 | Publishing appends the ref to the list of exactly the aircraft in the manifest |
| `Provenance.RunProv` | server/src/daemon.ts:222-536 | Every interleaving keeps the provenance invariant |
| `DaemonTheorems.EverySightingIsHandedOutOrHeld` | server/src/daemon.ts:257-263 | In every run, for every aircraft: of everything the repository accepted that lists it, what flushes published is, in order, what was handed to its departures followed by what the index holds; what drains published is beside both |
| `DaemonTheorems.SightingsAreHandedOutOnce` | server/src/daemon.ts:257-263 | In every run a sighting that a flush published and that lists an aircraft is in the index for it if and only if no departure of the aircraft was handed it; a sighting that a drain published is in no index and handed to no departure; a sighting is handed to one departure at most, and cited by one flight record of the aircraft at most |
| `DaemonTheorems.DeparturesTakeTheirTurn` | server/src/daemon.ts:257-263 | In every run a departure takes exactly the sightings that flushes published and that listed its aircraft since the aircraft's previous departure was reached |
| `DaemonTheorems.TakingIsExactExactlyWhen` | server/src/daemon.ts:257-322 | In every run, with no assumption on timing or failures: a departure's refs are those of everything the repository accepted, from flushes and from drains, that holds its session, and every position of the session is in a cited sighting, if and only if none of the session is still in the window, every chunk that holds it was published by its flush in the departure's turn, so that none is queued, lost or pending, and no other chunk that lists the aircraft was |
| `DaemonTheorems.DepartureIsExactExactlyWhen` | server/src/daemon.ts:257-322 | The same decided before the refs are read: whatever the run was and however it goes on, the departure cites its session exactly if and only if, when it is reached, the window holds nothing of the session, every chunk that holds the session is in the index for the aircraft, and no other chunk is |
| `Citation.InTurnForever` | server/src/daemon.ts:222-536 | Whatever happens later, drains included, a taking stays and the condition for its exactness keeps its value |
| `DaemonTheorems.ProvenanceIsExact` | server/src/daemon.ts:257-322 | In every run that is timely for the aircraft, whatever happens to others, a departure of it cites exactly what the repository accepted of its session, none twice, with every position of the session; no drain has published anything of the session; and what it cites holds no other session of the aircraft |
| `DaemonTheorems.FlightIsExactExactlyWhen` | server/src/daemon.ts:306-322 | In every run a flight record, published or queued, cites exactly what the repository accepted of its session, with every position of it, and counts those positions, if and only if its session's chunks, and no other of the aircraft, were published in turn |
| `DaemonTheorems.FlightsAreExact` | server/src/daemon.ts:306-322 | In a run that is timely for its aircraft every flight record, published or queued, is exact in that sense |
| `Exactness.RunExact` | server/src/daemon.ts:222-536 | The invariant of one aircraft behind it holds in every run that is timely for that aircraft |
| `Exactness.TakeKeepsExact` | server/src/daemon.ts:257-263 | Taking and clearing refs, of this aircraft or another, keeps the invariant; no timing is needed |
| `Exactness.PublishKeepsExact` | server/src/daemon.ts:513-522 | Publishing a sighting keeps the invariant when no departure of the aircraft waits behind it |
| `Exactness.LossKeepsExact` | server/src/daemon.ts:493-536 | A failed upload or a refused sighting of other aircraft keeps the invariant |
| `Scenarios.InTimeTakesItsSighting` | server/src/daemon.ts:222-536 | There are such runs, timely for every aircraft and possible in the code: for every aircraft, position, ref and schedule within the minute the departure takes its one sighting |
| `Scenarios.LateFlushMisplacesTheSighting` | server/src/daemon.ts:415-424 | A schedule of the code: if the window outlives the departure, the session departs with no ref and the aircraft's next session, even one that begins at the same time, takes the ref of a sighting that holds none of its positions |
| `Scenarios.OvertakenDepartureLosesItsSighting` | server/src/daemon.ts:236-263 | A schedule of the code: two aircraft depart at one message, the second waits while the record of the first is awaited, a later session of the second without positions departs meanwhile and takes its ref, and the waiting one takes nothing |
| `Scenarios.RetriedSightingIsNeverCited` | server/src/daemon.ts:59-78 | A schedule of the code, for every aircraft, position and times: the sighting is refused, a drain publishes it before the departure, and the departure takes no ref although the repository holds its only position |
| `DaemonTheorems.CapturesAreConserved` | server/src/daemon.ts:415-478 | In every run each captured path has one fate: in report order, those on the list are the daemon's list, those with a flush are what it holds before its first chunk, and the blob of a flush joins exactly the sections of the captures in it |
| `DaemonTheorems.EveryCaptureIsKept` | server/src/daemon.ts:365-371 | In every run the captures that have a fate are those that the adapters reported, in order |
| `DaemonTheorems.RecordsCarryTheirCaptures` | server/src/daemon.ts:493-531 | In every run the record of a settled chunk, published or queued, carries the blob of exactly the captures in the blob of its flush if the chunk is the first, else none; a lost chunk has no record |
| `DaemonTheorems.CaptureIsRecordedExactlyWhen` | server/src/daemon.ts:442-536 | A capture that is in the blob of its flush can be split out of a published or queued record of that flush if and only if the first chunk has been attempted and was not lost to a failed upload |
| `DaemonTheorems.EveryRecordIsStamped` | server/src/daemon.ts:444-506 | Whatever the capture files hold, the raw capture of every record published or queued splits, every section parses, and each bears the receiver and the window of that record |
| `DaemonTheorems.DroppedExactlyWhen` | server/src/daemon.ts:415-486 | A step gives up a captured path if and only if it is the tick that takes it off the list and finds an empty window, one that cannot be chunked, or captures switched off; the upload of its flush and its own file could not be read or parsed; or the first chunk of its flush attempted without a blob |
| `DaemonClass.Daemon.OnAircraft` | server/src/daemon.ts:225-234 | The callback up to its first await: tracker updated, positions fed into the window, departures left waiting, as the step of the transition system says |
| `DaemonClass.Daemon.FeedWindow` | server/src/daemon.ts:231-234 | The nested loops add every position of the cycle in order |
| `DaemonClass.Daemon.TakeRefs` | server/src/daemon.ts:257-266 | Refs taken and removed for one departure; one without positions goes no further |
| `DaemonClass.Daemon.FlightDone` | server/src/daemon.ts:306-322 | The end of one departure: a record is handed to the repository exactly if there are positions, refs and an identity, it tells the entry and cites the refs, and it is enqueued when refused |
| `DaemonClass.Daemon.FlushTick` | server/src/daemon.ts:415-442 | Window and captures swapped out, then the window chunked; an empty one starts nothing and its captures are dropped |
| `DaemonClass.Daemon.RawUploaded` | server/src/daemon.ts:442-486 | The files of a flush are run through the capture loop, and the flush holds the joined blob exactly if some file came through and the upload went well |
| `DaemonClass.Daemon.OnRawCapture` | server/src/daemon.ts:365-371 | The path goes to the end of the list |
| `DaemonClass.Daemon.SightingPublished` | server/src/daemon.ts:508-522 | The index loop of a published sighting, then the next chunk |
| `DaemonClass.Daemon.SightingRefused` | server/src/daemon.ts:523-531 | The record enqueued, then the next chunk |
| `DaemonClass.Daemon.BeginDrain` | server/src/daemon.ts:59-66 | A drain reads the due rows |
| `DaemonClass.Daemon.DrainAcked` | server/src/daemon.ts:68-78 | An acknowledged entry is deleted by its id |
| `DaemonClass.Daemon.DrainRejected` | server/src/daemon.ts:79-97 | A refused entry is rescheduled by its id; a retry time that is not a number gives up the drain |
| `Queue.NothingIsLost` | server/src/queue.ts:76-137 | Under any overlap of drains, every record put is in the table under its id until some publish of it was acknowledged, and drains publish only what was put under the id they settle |
| `Queue.LateSettlementIsHarmless` | server/src/queue.ts:110-137 | Settling an id whose row is gone changes nothing; the id is below the next one, which never falls however the run goes on, and a row under it, now or later, holds the record the drain read |
| `Queue.IdsAreNotReused` | server/src/queue.ts:76-82 | However a run goes on, the next id never falls and what was put under an id stays what it was |
| `Queue.RetryDelayIsCappedDoubling` | server/src/queue.ts:130-133 | The delay after a failures is a+1 capped doublings of 5 s, is monotone in a and stays between 10 s and 300 s |
| `Queue.RowsTellTheirFailures` | server/src/queue.ts:76-137 | In every run of overlapping drains, told from the steps alone: a row is in the table exactly from its put until a publish of it is acknowledged; it holds what was put and when; its attempts are the failed publishes that settled its id; and it is due 5 s after its put, or after its last failure by the seconds that failure asked for, else by as many capped doublings of 5 s as there were failures |
| `Queue.DrainsGoInOrder` | server/src/daemon.ts:55-100 | In every run each drain settles the entries of the list it read one after the other, and settles none after an answer whose retry time is not a number |
| `DaemonTheorems.QueueRunsOnItsOwn` | server/src/daemon.ts:55-100 | In every run the daemon's queue is the queue of the records refused, put when they were refused, and of the drains, so the same holds of its rows |
| `QueueClass.PublishQueue.Enqueue` | server/src/queue.ts:76-82 | A row is added under the next id |
| `QueueClass.PublishQueue.GetReady` | server/src/queue.ts:84-108 | The due rows, each exactly once, oldest first, none left out |
| `QueueClass.PublishQueue.MarkDone` | server/src/queue.ts:110-112 | The row with the id is gone, the others stay |
| `QueueClass.PublishQueue.MarkFailed` | server/src/queue.ts:114-137 | The row is rescheduled by the given delay, else by capped backoff, and counts one attempt more; a missing row changes nothing |
| `Backoff.IteratedClosedForm` | server/src/adapters/readsb-mapping.ts:58-63 | Iterating the capped doubling n times equals one cap on 2^n times the start |
| `Backoff.IteratedMonotone` | server/src/adapters/readsb-mapping.ts:58-63 | The iterated delay never falls and never passes the cap |
| `Backoff.Reconnector.ScheduleReconnect` | server/src/beast-client.ts:65-87 | Each scheduled retry waits the current delay and steps it |
| `Backoff.Reconnector.OnConnect` | server/src/beast-client.ts:45-48 | A connection resets the delay |
| `Atrx.BuildParse` | server/src/atrx.ts:55-156 | Given inverse codecs, what is built parses back to the same metadata and frames exactly when the declared frame count is right, and fails with a count mismatch otherwise; the count is the automaton's for BEAST, and for every other protocol the number of lines that begin with a sign |
| `Atrx.ParseSound` | server/src/atrx.ts:85-156 | What parses is a well-framed section, or a version 1 one, whose declared frame count is right in that sense |
| `Atrx.EnvelopeFields` | server/src/atrx.ts:55-83 | Where every field of a built envelope lies |
| `Atrx.BuildAtrxBlob` | server/src/atrx.ts:55-83 | The buffers filled byte by byte are the envelope, or the length is rejected |
| `Atrx.U32RoundTrip` | server/src/atrx.ts:55-83 | Reading four big-endian bytes gives back the number written |
| `AtrxSplit.SplitConcat` | server/src/atrx.ts:192-237 | Splitting undoes concatenation for every list of well-framed version 2 sections, optionally ended by one version 1 section, whatever the payload bytes |
| `AtrxSplit.ConcatSplit` | server/src/atrx.ts:196-237 | Concatenating what an accepted upload was split into gives the upload back, and the sections are well framed |
| `AtrxSplit.UploadsDecomposeUniquely` | server/src/atrx.ts:192-237 | An upload is accepted if and only if it is a concatenation of sections, and then in one way only |
| `AtrxSplit.SectionsArePrefixFree` | server/src/atrx.ts:196-237 | No version 2 section is a proper prefix of another |
| `AtrxSplit.SplitAtrxBlobs` | server/src/atrx.ts:196-237 | The offset loop computes the recursive split, errors and their offsets included |
| `Beast.CountBeastFrames` | server/src/atrx.ts:158-178 | The skipping loop counts what a two-state automaton counts |
| `Beast.CountConcat` | server/src/atrx.ts:158-178 | Counts add up exactly when the second part is started in the mode the first one ends in |
| `Beast.CutCostsAtMostOneFrame` | server/src/atrx.ts:158-178 | For every cut the two counts differ from the whole by at most one, and by nothing when the cut is not inside an escape pair |
| `Beast.FlushesCostAtMostOneFrameEach` | server/src/beast-client.ts:89-93 | A stream flushed in n pieces is miscounted by at most n-1 frames in all |
| `Beast.CountingUndoesEscaping` | server/src/atrx.ts:158-178 | For every list of messages with arbitrary bodies, written with each 0x1a doubled, the count is the number of types 0x31 to 0x33 |
| `Beast.CountUatFrames` | server/src/atrx.ts:180-190 | The loop counts the lines that carry a sign in front |
| `Beast.LinesAreLineSigns` | server/src/atrx.ts:180-190 | Counting over the bytes equals counting lines |
| `Beast.UatCountsAdd` | server/src/atrx.ts:180-190 | Counts add up exactly at cuts after a newline |
| `RawCapture.CapturesRoundTrip` | server/src/adapters/readsb.ts:213-245 | End to end: for every list of captures that contain a counted frame, building, parsing, restamping and concatenating gives an upload that splits and parses to exactly those bytes in order, with protocol, count and the new stamp; no step fails |
| `RawCapture.RestampedParses` | server/src/daemon.ts:444-466 | Restamping keeps the frames, their count, the clock source, the protocol and the decoder, puts in the station and the window, and drops the optional fields |
| `RawCapture.CaptureBlobTells` | server/src/adapters/readsb.ts:232-246 | There is a blob exactly when a frame is counted, and what is built parses to the bytes of the window with its source, its bounds and its count |
| `RawCapture.UploadAlwaysReadable` | server/src/daemon.ts:436-486 | Whatever the files hold, the upload splits into exactly the restamped sections, and each of them parses |
| `RawCapture.ProcessCaptures` | server/src/daemon.ts:436-486 | The capture loop skips a file that fails and keeps the others in order |
| `RawCapture.ReadsbAdapter.FlushBatchWindow` | server/src/adapters/readsb.ts:213-245 | Up to the file write: nothing without a client or an open window; else the client is emptied into a window, every byte received is in one window or still held, there is a blob exactly when a frame is counted, and without one the next window starts |
| `RawCapture.ReadsbAdapter.FileWritten` | server/src/adapters/readsb.ts:247-274 | After the file write: the message goes out if the file was written and the socket is open, and the next window starts either way |
| `RawCapture.BeastClient.OnData` | server/src/beast-client.ts:50-52 | A chunk is added at the end of what is held |
| `RawCapture.BeastClient.Flush` | server/src/beast-client.ts:89-93 | Everything held is returned and nothing is kept |
| `Stream.NoLostWakeup` | server/src/stream.ts:119-159 | In every interleaving of frames, pulls, resumptions and abort: the frames sent, told from the emit steps alone, are while the subscriber lives exactly those yielded followed by the queue, and always begin with those yielded; a blocked subscriber has an empty queue, is not aborted and can be woken |
| `Stream.QueuedFramesAreDelivered` | server/src/stream.ts:141-153 | At every point of a run a live subscriber gives its consumer all frames sent so far, in order, within one request more than are queued, and then sleeps; n requests before that give n frames more |
| `Stream.AbortDrainsThenEnds` | server/src/stream.ts:129-159 | After an abort at a yield, the consumer is given every frame sent so far, then the stream ends |
| `Stream.AbortDeliversExactlyWhen` | server/src/stream.ts:133-158 | At every point of a run of an unfinished subscriber, an abort ends the stream, and every frame sent has then been given to the consumer if and only if the subscriber was not one already woken with frames in its queue |
| `Stream.NumbersAreUnique` | server/src/stream.ts:86-104 | However signings overlap, fail or finish out of order, no sequence number is emitted twice |
| `Stream.FramesSayWhatWasCalled` | server/src/stream.ts:69-113 | However signings overlap, the frame with number n, emitted or still being signed, holds the operations of the n-th message that took a number, and an info frame says what was called |
| `Stream.UnsignedFramesAreExact` | server/src/stream.ts:69-84 | Without signing the frames emitted are those of the calls, in order, each with its number and its own operations |
| `Stream.UnsignedNumbersAreConsecutive` | server/src/stream.ts:69-84 | Without signing the emitted numbers are 1, 2, 3, ... with no gap |
| `StreamClass.Subscription.OnFrame` | server/src/stream.ts:124-131 | The frame handler pushes every frame at the end of the queue and wakes as the step says |
| `StreamClass.Subscription.OnAbort` | server/src/stream.ts:133-142 | The abort handler wakes as the step says |
| `StreamClass.Subscription.OnPull` | server/src/stream.ts:144-153 | One pull of the generator; what it returns is what the consumer has been given |
| `StreamClass.Subscription.OnResume` | server/src/stream.ts:144-153 | The generator after its promise resolves; what it returns is what the consumer has been given |
| `StreamClass.StreamBroadcaster.Broadcast` | server/src/stream.ts:69-84 | A broadcast takes the next number and reaches every subscriber once, as the call in the theorems on numbers does; without operations it does nothing |
| `StreamClass.StreamBroadcaster.BroadcastInfo` | server/src/stream.ts:106-113 | An info frame reaches every subscriber once and takes no number |
| `StreamClass.StreamBroadcaster.EmitFrame` | server/src/stream.ts:102-104 | A signed frame reaches every subscriber once and joins what was emitted |
| `StreamClass.StreamBroadcaster.BuildEventMessage` | server/src/stream.ts:86-100 | The next number is taken and nothing is emitted yet |
| `Cutting.CutsAreUnseenExactlyWhen` | server/src/adapter-server.ts:151-219 | For every open connection and every text: all ways of cutting it into data events leave the same server (messages, greetings, registry, destruction, leftover buffer of a live connection) if and only if no line that counts follows a handshake that repeats a source the connection already holds |
| `Cutting.OneGreetingHidesCuts` | server/src/adapter-server.ts:151-219 | A connection that greets once is never affected by the cut |
| `Cutting.RepeatedGreetingShowsTheCut` | server/src/adapter-server.ts:221-256 | A text whose last message is delivered or lost depending on the cut |
| `Framing.ProcessAppend` | server/src/adapter-server.ts:166-219 | Reading a text in two parts is reading it at once, from what the first part left |
| `Framing.NoRepeat` | server/src/adapter-server.ts:166-219 | Without a repeated greeting a connection stays open unless it breaks the protocol |
| `Framing.RepeatOrphans` | server/src/adapter-server.ts:242-252 | With a repeated greeting the connection destroys itself and the loop reads on |
| `Registry.RegistryIsExact` | server/src/adapter-server.ts:221-313 | In every run in which no connection greets twice: a source is registered to a connection if and only if that one greeted last under it and is not gone; pending are exactly the known connections that neither greeted nor went; and what is gone is registered nowhere |
| `Registry.OneVoicePerSource` | server/src/adapter-server.ts:221-256 | In every run, however often connections greet: keys are distinct, pending and registered connections are apart, and at most one open connection speaks for a source |
| `Registry.RegistryIsSafe` | server/src/adapter-server.ts:221-313 | In every run: a source is registered to nobody but its last greeter, and to that one unless it is gone; pending are exactly the known connections that neither greeted nor went; only those have a timer; a connection that may deliver is the one registered for its source |
| `Registry.DeliveriesAreTheHolders` | server/src/adapter-server.ts:258-290 | In every run, what a data event routes, it routes under sources that its connection is registered for |
| `Registry.StaleCloseKeepsReplacement` | server/src/adapter-server.ts:292-313 | In every state, an error or close event of one connection keeps every binding of another and every other pending one; of a replaced connection it leaves the registry as it is |
| `Registry.RepeatedCloseIsNothing` | server/src/adapter-server.ts:292-313 | In runs with single greetings, a repeated error or close event changes nothing at all |
| `Registry.StopLeavesNothingOpen` | server/src/adapter-server.ts:79-97 | In every run, stopping destroys every connection |
| `Registry.CleanupIsCompleteExactlyWhen` | server/src/adapter-server.ts:304-312 | With any number of greetings: cleaning up removes every trace of a connection if and only if at most one source was registered to it |
| `Registry.SecondGreetingLeavesStaleKey` | server/src/adapter-server.ts:221-256 | Greeting under two sources and one cleanup leaves the second source registered to a destroyed connection |
| `Registry.OpenConnectionsAreLive` | server/src/adapter-server.ts:166-172 | In every run, however often connections greet, an open connection holds no unread complete line |
| `Registry.SilentConnectionsTimeOut` | server/src/adapter-server.ts:134-149 | In every run the handshake timeout destroys a connection that has not greeted, and touches neither one that has nor any other |
| `Routing.MessagesAreRoutedAsSaid` | server/src/adapter-server.ts:166-290 | In every run, for every connection: what was routed at its data events is the list, told from the parser and the text read of it alone, of the messages of its complete data lines, whole and in order, each under the source of its latest handshake line, up to a line that breaks the protocol |
| `Routing.OneEventRoutes` | server/src/adapter-server.ts:151-290 | In every run a data event of an open connection routes the messages and records the greetings of exactly the lines it completes, from where the text read so far had come to; nothing else routes or greets |
| `Routing.DataIsRouted` | server/src/adapter-server.ts:151-219 | The same of any state in which the connection is open between two data events |
| `AdapterServerClass.AdapterServer.ProcessBuffer` | server/src/adapter-server.ts:166-219 | The buffer loop, with its early returns, drains the buffer as specified |
| `AdapterServerClass.AdapterServer.HandleData` | server/src/adapter-server.ts:151-154 | One data event |
| `AdapterServerClass.AdapterServer.HandleNewConnection` | server/src/adapter-server.ts:134-164 | A new connection waits with a timer |
| `AdapterServerClass.AdapterServer.HandleHandshake` | server/src/adapter-server.ts:221-256 | A handshake clears the timer, leaves the pending set, destroys the previous holder and registers the new one |
| `AdapterServerClass.AdapterServer.RouteMessage` | server/src/adapter-server.ts:258-290 | The message itself is routed under the source of its connection |
| `AdapterServerClass.AdapterServer.CleanupConnection` | server/src/adapter-server.ts:292-313 | The loop over the registry removes the first entry of the connection |
| `AdapterServerClass.AdapterServer.Stop` | server/src/adapter-server.ts:79-97 | Both loops destroy every waiting and registered connection and empty the collections |
| `AdapterServerClass.IndexOfNewline` | server/src/adapter-server.ts:168-171 | The index is that of the first newline |
| `Stats.StatsAreConserved` | server/src/daemon.ts:347-411 | Per protocol, what all records built report plus the live accumulator equals what was received, across any interleaving of ticks and failed publishes |
| `Stats.TotalsAreConserved` | server/src/records.ts:104-106 | The same for the totals of the records |
| `Stats.PositionsReportedAreConserved` | server/src/daemon.ts:324-411 | The positions of departed aircraft are all in the records built or in the running period |
| `Stats.PeriodSumsUp` | server/src/daemon.ts:324-411 | The range of the running period is the widest since the last tick, or zero; its aircraft are exactly those seen since then |
| `Stats.SignalIsLatest` | server/src/daemon.ts:347-358 | The signal figures of a protocol are the last ones reported since the last tick |
| `Stats.TickReportsItsPeriod` | server/src/records.ts:98-125 | In every run the record that a tick builds, published or queued, reports what happened since the tick before: the number of different aircraft seen, the widest range when positive, the positions of the departures when positive, the total, and one entry per protocol heard with its sums and its latest signal |
| `Stats.BuildStatsRecord` | server/src/records.ts:98-125 | The reduce loop computes the sum of the breakdown; the number of aircraft is always given, positions and range only when positive |
| `Stats.WindowsReportedOnce` | server/src/adapters/readsb-mapping.ts:37-56 | Each readsb window is reported at most once if and only if no window comes back after another one |
| `Stats.NonDecreasingStartsReportedOnce` | server/src/adapters/readsb.ts:175-180 | With starts that never go back every polled window is reported exactly once |
| `Reporting.ReportedPositionsAreReached` | server/src/daemon.ts:257-411 | In every run of the daemon together with its statistics, the positions in all statistics records, published or queued, and in the running period are those of the sessions whose departure was reached and identified, each counted once; a session with positions is counted, given up for want of an identity, or still in hand |
| `Stats.StatsPoller.OnStats` | server/src/adapters/readsb.ts:173-180 | One poll reports its window or stays silent, and remembers the start |
| `Stats.StatsState.OnStats` | server/src/daemon.ts:347-358 | A message is added under its protocol, in first-seen order, and its signal figures replace the ones before |
| `Stats.StatsState.OnTick` | server/src/daemon.ts:385-396 | The record of the period, and empty accumulators before anything else can run |
| `Stats.StatsState.OnSeen` | server/src/daemon.ts:332-334 | The aircraft of a message join those seen in the period |
| `Stats.StatsState.OnDeparture` | server/src/daemon.ts:324-328 | A departure adds its positions and may widen the range |
| `Stats.StatsState.OnLiveRange` | server/src/daemon.ts:336-340 | The widest range among tracked aircraft may widen the range |

## Left out

- zstd, CBOR, JSON text and signing are parameters; the sizes and bytes they produce are not modelled.
- Sockets, files, timers and SQLite are events and a table; opening, listening and file removal are not modelled.
- Text is at character level: a multi-byte UTF-8 character split between two data events is not modelled.
- Stream.NumbersAreUnique: on the signed stream the order of numbers is not stated, because a number is taken before signing and the frame goes out after it; the code keeps the order only if signings finish in turn.
- Time fields, the station record, the identity cache and key rotation; a departure's identity step is only its outcome.
- Stats.BuildStatsRecord: the average signal figures of the record are not modelled, because the daemon never samples them; the fallback total of an empty breakdown is zero, because the daemon never sets the counters it subtracts; the range is a number, not its text with one decimal.
- Shutdown: the last flush and drain of a stopping daemon.
- HTTP-date, negative and fractional values of Retry-After; a value is a natural number of seconds, absent, or unusable.
- Object keys that collide with inherited property names; a hex is any other string, and digit-only keys come first as in JavaScript.
- Exactly-once publication and completeness of sightings when uploads fail: the code does not promise them.
- Reconnecting after a failure that raises both an error and a close event: backoff is stated per scheduled retry.
- `validateFlightRecord`, `mapReadsbToNormalized`, configuration, command line and stream payload mapping: field-by-field code.
- TrackerClass.AircraftTracker.Update: departed entries are returned as values, so that later code cannot see them change is not stated.
- AdapterServerClass.AdapterServer.HandleData: connections are values under ids in a map, so two names for one connection object are not modelled.
- Reporting.ReportedPositionsAreReached: a refused statistics record counts as queued; its retries are those of `Queue.dfy` and not part of the joint run.
- DaemonClass.Daemon.OnAircraft: the live broadcast between the update and the first departure is not part of its state, and the statistics it updates are in `Stats.dfy`.
