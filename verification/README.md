# Verified models of the event gateway

A Dafny model of the stateful protocols, codecs and producer/validator pairs of the
gateway (`eufy_event_gateway`) and of its Home Assistant integration
(`custom_components/eufy_event_gateway`). `dafny verify dfyconfig.toml` checks it all.

Each stateful component has three layers: a transition system over values, in which one
step is the code between two awaits (or one synchronous call); theorems over every run
of it; and a class whose methods update their fields in place, are proved to make
exactly those steps and keep the proved invariant. Environment behaviour (I/O outcomes,
clock readings, cancellation, replies) is an argument of the step, so every interleaving
and every failure is covered.

| files | component |
|---|---|
| `RawFrames`, `RawDisk`, `RawOrder`, `RawJournal`, `RawTheorems`, `RawAdmission`, `RawDrain`, `RawDecode`, `RawAge`, `RawRuns`, `RawRetention`, `RawHistory` | the encrypted journal: admission queue, self-restarting writer, segments, retention and the independent decoder |
| `ControlQueue`, `ControlTheorems`, `ControlAnswers`, `CameraControlQueue` | the per-peer serial dispatcher of camera controls |
| `Gateway`, `GatewayTheorems`, `GatewayMemory`, `GatewaySensors`, `GatewayState` | detection flags with clear timers, last detections, name enrichment, stations and sensors |
| `Replica`, `Coordinator`, `Utf8`, `Sse`, `EventStream` | the coordinator's copy, rebuilt from the event stream, from the gateway's steps down to the bytes on the wire |
| `CivilCalendar`, `CloudCalendar` | month windows against a day-by-day Gregorian calendar, and the client's own check |
| `RtcCipher` | base64 (RFC 4648) and the accepted spellings of a ciphertext |
| `StreamProfile`, `JsonText` | the flat JSON scanner against a grammar that prints every spelling, and against the whole grammar of RFC 8259 |
| `Warmup` | the sequential first-image captures with their retry budget |
| `BundleCapture`, `BundleConsent`, `BundleSession` | the diagnostic capture, its archive and the owner's inspector |
| `EventImages`, `EvidenceAnswers` | the failed-image evidence, its archive and the owner's validator |
| `ArchiveSeals` | what the owner's two checks prove about the bytes in an archive |
| `Basics` | options, results and byte strings |

## What the proofs found

The code is modelled as it is. Where a promise does not hold for all inputs, the exact
condition or the failing input is proved.

- The journal writer bounds a frame by `segmentBytes` and a record by the queue limit,
  but the decoder by 16 MiB. A record within both bounds and beyond the decoder's is
  written and never read back; `RawRuns.AlwaysReadsIff` is the exact condition and
  `RawRuns.UnreadableRun` a run. Segments of at most 16 MiB + 4
  bytes or a queue of at most 16 MiB - 28 bytes exclude it (`RawRuns.EitherBoundReads`);
  beyond both it happens (`RawRuns.NeitherBoundLoses`).
- Retention sorts by the time in the file name, and equal times stay in directory order.
  A clock set back once, or two segments of one millisecond, can make it unlink a newer
  record before an older one (`RawRuns.ClockSetBackLosesNewer`, a run); exactly which
  steps keep the order is `RawRetention.SuffixAlwaysIff`.
- A control worker cancelled from outside before its first resumption skips its cleanup,
  also while it is suspended in its opening `sleep(0)`. Exactly such workers leave
  requests unreported until `close` (`ControlTheorems.WorkerUnreportedIff`): those queued
  for it at that moment and those submitted since (`ControlTheorems.UnreportedIff`,
  `ControlTheorems.UnreportedRun`).
- A button timer that fires while its camera has no button support leaves the flag up
  with no timer, until a later supported press or report, because the clear callback
  returns early (`GatewayTheorems.FlagsFollowIff`, `GatewayTheorems.HeldButtonSticks`).
- The client decodes each raw line as UTF-8, and neither `events` nor `_listen_forever`
  catches the decoding error. A body that ends inside a character ends the listening
  task instead of reconnecting (`SseBytes.CutBytes`, `EventStream.CopyIsAPastState`).
- Both capture sessions read the clock again for the time stamp after the expiry test.
  If that reading crosses the limit, the exported archive is refused by its own
  validator (`DiagnosticBundle.LateStampIsRefused`, `EvidenceExport.LateStampIsRefused`);
  apart from the raw size caps nothing else can make it refuse.
- The stream-profile scanner trims and skips the white space of JavaScript's `\s`, which
  is wider than that of RFC 8259 section 2: a no-break space between tokens is accepted
  (`JsonText.NoBreakSpaceAccepted`). An accepted body is a JSON text exactly when its
  white space is that of section 2 (`JsonText.AcceptedIsJsonIff`).

## Model

| member | source | states |
|---|---|---|
| `RawFrames.DecodeRawSegment` | eufy_event_gateway/src/diagnostics/raw-history.ts:258-274 | the offset loop returns exactly what the recursive frame grammar assigns to the bytes: same records, same tail flag, same two errors |
| `RawFrames.DecodeFrame` | eufy_event_gateway/src/diagnostics/raw-history.ts:203-208 | a frame as the writer builds it, followed by anything, is read back as its record and then the rest |
| `RawFrames.DecodeCut` | eufy_event_gateway/src/diagnostics/raw-history.ts:262-265 | a proper nonempty part of one frame yields no record, no error, and an incomplete tail |
| `RawFrames.DecodeFrames` | eufy_event_gateway/src/diagnostics/raw-history.ts:258-274 | whole frames in front of any bytes contribute exactly their records |
| `RawFrames.DecodePrefix` | eufy_event_gateway/src/diagnostics/raw-history.ts:258-274 | a run of frames cut at any byte decodes to exactly the records wholly before the cut; the tail is incomplete exactly when the cut is off a frame boundary |
| `RawFrames.ReadBackIff` | eufy_event_gateway/src/diagnostics/raw-history.ts:209-264 | a frame the writer may emit, with anything after it, is read without an error if and only if it is within the decoder bound of 16 MiB and the rest is |
| `RawFrames.FramesReadIff` | eufy_event_gateway/src/diagnostics/raw-history.ts:261-272 | whole frames in front of any bytes are read without an error if and only if all of them are within the decoder bound and the rest is |
| `RawFrames.PrefixReadIff` | eufy_event_gateway/src/diagnostics/raw-history.ts:258-274 | a run of frames cut at any byte is read without an error if and only if every frame whose length prefix lies before the cut is within the decoder bound |
| `RawDecode.DecodeIff` | eufy_event_gateway/src/diagnostics/raw-history.ts:258-274 | the decoder returns records and no incomplete tail exactly on whole authentic frames, with one exactly when part of a frame follows them, and each of its three errors exactly when that fault is the first thing after them |
| `RawDisk.SweepMakesRoom` | eufy_event_gateway/src/diagnostics/raw-history.ts:242-249 | after an oldest-first pass the directory leaves room for `required` more bytes, and the active segment is spared |
| `RawAge.DoomedIff` | eufy_event_gateway/src/diagnostics/raw-history.ts:242-249 | a pass unlinks exactly the segments, except the active one, before the first that is young enough while what remains leaves the required room |
| `RawAge.NothingOutlives` | eufy_event_gateway/src/diagnostics/raw-history.ts:242-249 | after a pass over segments in creation order nothing but the active segment is older than the age limit, and whatever was unlinked was older or stood in the way of the required room |
| `RawDisk.SweepKeepsDisk` | eufy_event_gateway/src/diagnostics/raw-history.ts:244-249 | a pass that fails after any number of unlinks keeps every storage invariant |
| `RawDisk.OpenKeepsDisk` | eufy_event_gateway/src/diagnostics/raw-history.ts:211-219 | retention, naming and the exclusive open lead to a valid directory with an empty active segment |
| `RawDisk.ChunkKeepsDisk` | eufy_event_gateway/src/diagnostics/raw-history.ts:221-225 | a partial write of any length keeps each segment at whole frames plus at most one torn frame at its end, within both budgets |
| `RawDisk.ChunkProgress` | eufy_event_gateway/src/diagnostics/raw-history.ts:220-226 | a write that reaches the end of its frame completes exactly that record in the active segment |
| `RawOrder.SweepIsOldestFirst` | eufy_event_gateway/src/diagnostics/raw-history.ts:242-249 | with strictly increasing creation times an unlinking pass removes a prefix of the directory |
| `RawOrder.SweepRetains` | eufy_event_gateway/src/diagnostics/raw-history.ts:244-249 | an unlinking pass keeps the survivors a suffix of everything written |
| `RawOrder.CreateRetains` | eufy_event_gateway/src/diagnostics/raw-history.ts:215-218 | a new newest segment keeps the survivors a suffix of everything written |
| `RawOrder.ChunkRetains` | eufy_event_gateway/src/diagnostics/raw-history.ts:220-226 | a write keeps the survivors a suffix of everything written |
| `RawOrder.DecodeSurvivors` | eufy_event_gateway/src/diagnostics/raw-history.ts:258-274 | decoding the segments of this session in order gives exactly their surviving records |
| `RawJournal.LoopHeadCore` | eufy_event_gateway/src/diagnostics/raw-history.ts:189-210 | taking the next record, a checkpoint or the exit keeps the accounting and the storage invariants |
| `RawJournal.WriteCore` | eufy_event_gateway/src/diagnostics/raw-history.ts:221-226 | an accepted chunk of any positive length, up to the whole frame, keeps the accounting and the storage invariants |
| `RawJournal.WritingCore` | eufy_event_gateway/src/diagnostics/raw-history.ts:221-230 | every outcome of one write, complete, partial, short or failed, keeps the accounting and the storage invariants |
| `RawJournal.OpeningCore` | eufy_event_gateway/src/diagnostics/raw-history.ts:211-219 | every outcome of retention and of the open, also a failure half way, keeps the accounting and the storage invariants |
| `RawJournal.CheckpointCore` | eufy_event_gateway/src/diagnostics/raw-history.ts:190-199 | every outcome of a checkpoint keeps the accounting and the storage invariants |
| `RawJournal.AdmitInv` | eufy_event_gateway/src/diagnostics/raw-history.ts:102-119 | admission keeps the invariant, whether it refuses, queues, or also starts the writer |
| `RawJournal.StepInv` | eufy_event_gateway/src/diagnostics/raw-history.ts:102-254 | every step of every caller, of the writer and of its `finally` callback keeps the one class invariant |
| `RawJournal.RunInv` | eufy_event_gateway/src/diagnostics/raw-history.ts:102-254 | the class invariant holds after every interleaving and every failure |
| `RawTheorems.InitializeFits` | eufy_event_gateway/src/diagnostics/raw-history.ts:77-99 | a successful first pass leaves a state the invariant holds in, whatever earlier processes left behind |
| `RawTheorems.QueueAccounting` | eufy_event_gateway/src/diagnostics/raw-history.ts:102-135 | over every run: one drain at most, no lost wake-up, exact byte accounting within the queue limit, `sequence = written + dropped + queued + in flight`, and nothing queued after close |
| `RawTheorems.DrainedIsFinal` | eufy_event_gateway/src/diagnostics/raw-history.ts:176-181 | once close has drained, no later step admits, queues or writes a record |
| `RawTheorems.DirectoryWithinBudget` | eufy_event_gateway/src/diagnostics/raw-history.ts:210-249 | over every run the directory stays within `maximumBytes` and each segment of the session within `segmentBytes` |
| `RawTheorems.PrefixDecodesIff` | eufy_event_gateway/src/diagnostics/raw-history.ts:201-274 | over every run and for every segment size, a cut segment decodes without an error if and only if no frame whose length prefix it contains exceeds 16 MiB |
| `RawTheorems.EveryPrefixDecodes` | eufy_event_gateway/src/diagnostics/raw-history.ts:201-274 | over every run, if segments are at most 16 MiB + 4 bytes or the queue at most 16 MiB - 28 bytes, any byte prefix of any segment decodes without an error to exactly the records wholly inside it, with the exact tail flag; each of them was logged as written, in this order, whatever the clock did |
| `RawTheorems.StepRetains` | eufy_event_gateway/src/diagnostics/raw-history.ts:210-249 | each step keeps the survivors a suffix of everything written while creation times advance |
| `RawTheorems.SurvivorsAreSuffix` | eufy_event_gateway/src/diagnostics/raw-history.ts:210-274 | over every run with advancing creation times, the surviving records are a suffix of the written ones with strictly increasing sequence numbers, and decoding the surviving segments in order gives exactly them under either of those bounds |
| `RawTheorems.RunLogged` | eufy_event_gateway/src/diagnostics/raw-history.ts:201-231 | over every run, whatever the clock does, each segment holds admitted records of the log, in the order they were written |
| `RawAdmission.TakenIff` | eufy_event_gateway/src/diagnostics/raw-history.ts:102-119 | over every run, an open journal takes a record exactly when five seconds have passed since the last failure, the record renders, its payload is at most 4194304 bytes, and the 1.4 estimate and its length are within the queue limit; otherwise it counts one dropped record and changes nothing else |
| `RawAdmission.PauseDrops` | eufy_event_gateway/src/diagnostics/raw-history.ts:104-105 | after a failure at time t, until the next one, every record before t + 5000 is dropped |
| `RawAdmission.PauseOfRun` | eufy_event_gateway/src/diagnostics/raw-history.ts:105-228 | over every run the pause ends five seconds after the last failure |
| `RawAdmission.FlightFate` | eufy_event_gateway/src/diagnostics/raw-history.ts:211-231 | at each resumption an error of the awaited call drops the record in flight, counts it both ways and starts the pause; the last byte puts it in the log; otherwise it stays in flight |
| `RawAdmission.FaultFails` | eufy_event_gateway/src/diagnostics/raw-history.ts:221-229 | a write that reports an error or takes no bytes is such a failure of the run, at its own time |
| `RawDrain.TakesOldest` | eufy_event_gateway/src/diagnostics/raw-history.ts:188-210 | a free writer takes up the oldest record: into the active segment when its frame of 32 bytes more than the text still fits there, into a new one otherwise, and not at all when it fits none; with an empty queue it runs a requested checkpoint, and else it ends |
| `RawDrain.CheckpointFate` | eufy_event_gateway/src/diagnostics/raw-history.ts:190-199 | a checkpoint syncs, retires the active segment exactly when it is older than the age limit, and then runs a pass; an error in it is counted and drops no record |
| `RawDrain.FlushAsks` | eufy_event_gateway/src/diagnostics/raw-history.ts:131-135 | flush and close request a checkpoint and wake an idle writer at once |
| `RawDrain.SettledWakes` | eufy_event_gateway/src/diagnostics/raw-history.ts:183-186 | a returned writer is cleared, and restarted exactly for what arrived meanwhile |
| `RawDrain.ClosedForGood` | eufy_event_gateway/src/diagnostics/raw-history.ts:103-179 | once closed, a journal ignores every record for the rest of the run |
| `RawRuns.WriteOne` | eufy_event_gateway/src/diagnostics/raw-history.ts:102-232 | an idle journal that admits a record, rotates and writes it with every call succeeding ends idle, with that record in a segment of its own |
| `RawRuns.ReachesDisk` | eufy_event_gateway/src/diagnostics/raw-history.ts:102-232 | every record within the queue and segment bounds is written whole by some run |
| `RawRuns.AlwaysReadsIff` | eufy_event_gateway/src/diagnostics/raw-history.ts:105-114 | every cut of every segment of every run decodes if and only if no record within the queue and segment bounds exceeds the decoder bound |
| `RawRuns.UnreadableRun` | eufy_event_gateway/src/diagnostics/raw-history.ts:209-264 | for such a record, a run that leaves a segment the decoder refuses |
| `RawRuns.EitherBoundReads` | eufy_event_gateway/src/diagnostics/raw-history.ts:105-114 | segments of at most 16 MiB + 4 bytes or a queue of at most 16 MiB - 28 bytes are enough |
| `RawRuns.NeitherBoundLoses` | eufy_event_gateway/src/diagnostics/raw-history.ts:105-114 | beyond both bounds, a record whose frame is one byte too long for the decoder is admitted, written and never read back |
| `RawRuns.ClockSetBackLosesNewer` | eufy_event_gateway/src/diagnostics/raw-history.ts:215-249 | a run on any two-segment journal whose clock is set back once, or stands still while the directory lists the newer segment first: the second record is unlinked while the first survives, so the survivors are no suffix |
| `RawRetention.UnlinkIff` | eufy_event_gateway/src/diagnostics/raw-history.ts:244-249 | unlinking keeps the survivors a suffix if and only if no unlinked segment with records lies after a remaining one with records |
| `RawRetention.ChunkIff` | eufy_event_gateway/src/diagnostics/raw-history.ts:220-226 | a write keeps the survivors a suffix if and only if it completes no record in a segment that sorts before another one with records |
| `RawRetention.CreateSurvivors` | eufy_event_gateway/src/diagnostics/raw-history.ts:215-218 | creating a segment changes no survivor, at any time and in any place among equal times |
| `RawRetention.SuffixAlwaysIff` | eufy_event_gateway/src/diagnostics/raw-history.ts:210-249 | on any clock and for any directory order among equal creation times, the survivors are a suffix of the written records at every point of a run if and only if every step unlinks oldest first and completes records in the newest segment only |
| `RawHistoryModule.RawHistory.constructor` | eufy_event_gateway/src/diagnostics/raw-history.ts:64-99 | the object starts in an initial state over the segments that the first pass left |
| `RawHistoryModule.RawHistory.Record` | eufy_event_gateway/src/diagnostics/raw-history.ts:102-119 | admission in place, with the pressure estimate, both size checks and every drop count |
| `RawHistoryModule.RawHistory.Flush` | eufy_event_gateway/src/diagnostics/raw-history.ts:131-135 | a checkpoint request that wakes the writer |
| `RawHistoryModule.RawHistory.Close` | eufy_event_gateway/src/diagnostics/raw-history.ts:176-179 | no admission from here on, and a last checkpoint request |
| `RawHistoryModule.RawHistory.FinishClose` | eufy_event_gateway/src/diagnostics/raw-history.ts:179-180 | the flush of close is over only when no writer is left |
| `RawHistoryModule.RawHistory.ReleaseFile` | eufy_event_gateway/src/diagnostics/raw-history.ts:180 | the last segment is released after the drain |
| `RawHistoryModule.RawHistory.Settled` | eufy_event_gateway/src/diagnostics/raw-history.ts:183-186 | the `finally` callback clears the writer and restarts it for work that arrived meanwhile |
| `RawHistoryModule.RawHistory.NextTask` | eufy_event_gateway/src/diagnostics/raw-history.ts:188-210 | the loop test and the code up to the next await |
| `RawHistoryModule.RawHistory.Caught` | eufy_event_gateway/src/diagnostics/raw-history.ts:227-229 | a failed record is counted, dropped and starts the retry pause |
| `RawHistoryModule.RawHistory.Maintain` | eufy_event_gateway/src/diagnostics/raw-history.ts:234-254 | the pass removes exactly the planned names, or their first `n` when an unlink is refused |
| `RawHistoryModule.RawHistory.Evict` | eufy_event_gateway/src/diagnostics/raw-history.ts:242-249 | the unlinking loop with its early exits removes exactly the planned prefix of names |
| `RawHistoryModule.RawHistory.Write` | eufy_event_gateway/src/diagnostics/raw-history.ts:221-226 | one write call appends its bytes to the active segment alone |
| `RawHistoryModule.RawHistory.Resumed` | eufy_event_gateway/src/diagnostics/raw-history.ts:188-232 | one resumption of a suspended drain is exactly the transition of the model |
| `ControlQueue.SubmitInv` | custom_components/eufy_event_gateway/camera_control_queue.py:63-84 | accepting, refusing or rolling back keeps the invariant |
| `ControlQueue.LoopInv` | custom_components/eufy_event_gateway/camera_control_queue.py:93-126 | the worker loop keeps the invariant through any number of expired heads |
| `ControlQueue.FinishInv` | custom_components/eufy_event_gateway/camera_control_queue.py:106-126 | one terminal callback followed by the rest of the loop keeps the invariant |
| `ControlQueue.CancelInv` | custom_components/eufy_event_gateway/camera_control_queue.py:108-126 | a cancellation at any await of a worker keeps the invariant |
| `ControlQueue.CloseEndInv` | custom_components/eufy_event_gateway/camera_control_queue.py:134-142 | the end of close keeps the invariant and leaves nothing queued |
| `ControlQueue.StepInv` | custom_components/eufy_event_gateway/camera_control_queue.py:58-142 | every step keeps the queue invariant |
| `ControlQueue.RunInv` | custom_components/eufy_event_gateway/camera_control_queue.py:58-142 | the queue invariant holds after every interleaving |
| `ControlTheorems.OneTerminalCallback` | custom_components/eufy_event_gateway/camera_control_queue.py:86-142 | over every run a request has no callback while queued and exactly one afterwards: when its worker has ended, and for all requests when close returns |
| `ControlTheorems.CallbacksAreFinal` | custom_components/eufy_event_gateway/camera_control_queue.py:86-142 | no later step adds, changes or withdraws a callback |
| `ControlTheorems.TruthfulReports` | custom_components/eufy_event_gateway/camera_control_queue.py:93-126 | over every run the client is called at most once for a request; a confirmation follows such a call and is never published after closing; a failure reported as not sent means no call was made |
| `ControlTheorems.SerialPerPeer` | custom_components/eufy_event_gateway/camera_control_queue.py:68-126 | over every run each queued peer has one worker and a nonempty queue, only its head is in flight, operations start in submission order and the load stays within capacity |
| `ControlTheorems.ResolvedByDeadline` | custom_components/eufy_event_gateway/camera_control_queue.py:73-117 | with ideal timers every request is resolved no later than its submission time plus the lifetime, however long the queue in front of it |
| `ControlTheorems.CancelledBeforeStart` | custom_components/eufy_event_gateway/camera_control_queue.py:90-142 | while a worker cancelled before its first resumption stays, its requests stay queued and unreported |
| `ControlTheorems.DeadIff` | custom_components/eufy_event_gateway/camera_control_queue.py:86-142 | over every run a worker that has ended is still registered exactly when it was cancelled before its first resumption |
| `ControlTheorems.WorkerUnreportedIff` | custom_components/eufy_event_gateway/camera_control_queue.py:86-142 | over every run an ended worker leaves some request unreported if and only if it is still registered and was cancelled before its first resumption |
| `ControlTheorems.UnreportedIff` | custom_components/eufy_event_gateway/camera_control_queue.py:86-142 | over every run a request of an ended worker is unreported if and only if, at the moment when that worker was cancelled before its first resumption, the request was queued or not yet submitted |
| `ControlTheorems.UnreportedRun` | custom_components/eufy_event_gateway/camera_control_queue.py:63-142 | such a run: one request accepted, its worker cancelled at once, nothing reported |
| `ControlTheorems.StepTimely` | custom_components/eufy_event_gateway/camera_control_queue.py:93-126 | no step of an ideal run misses a deadline |
| `ControlAnswers.ToldIff` | custom_components/eufy_event_gateway/camera_control_queue.py:86-142 | over every run a request has been told an outcome exactly when some step answered it so: each of the six outcomes is traced to its reply, error, timeout, refused route, passed deadline, cancellation or close |
| `ControlAnswers.StepTold` | custom_components/eufy_event_gateway/camera_control_queue.py:86-142 | one step tells a request exactly the outcome that the queue, its phase, the clock and the reply call for, and leaves every other request as told as it was |
| `ControlAnswers.ConfirmedIff` | custom_components/eufy_event_gateway/camera_control_queue.py:102-120 | over every run a request is confirmed exactly when a reply with its own serial met its call while the queue was open, and reported as failed and possibly sent exactly when another reply or an error met that call |
| `ControlAnswers.PendingIff` | custom_components/eufy_event_gateway/camera_control_queue.py:58-61 | over every run a setting is pending exactly while some accepted request for it awaits its callback |
| `ControlAnswers.FinishedIff` | custom_components/eufy_event_gateway/camera_control_queue.py:128-142 | close has returned exactly when its end ran after every worker had ended, and then every request has had its one callback |
| `ControlAnswers.NextServed` | custom_components/eufy_event_gateway/camera_control_queue.py:93-100 | a worker that comes back to its loop in an open queue starts the first request whose deadline has not passed, or ends when there is none |
| `ControlAnswers.CalledIff` | custom_components/eufy_event_gateway/camera_control_queue.py:99-101 | over every run the client has been called for a request exactly when some step found it served, on its unchanged route and not called yet |
| `CameraControlQueueModule.CameraControlQueue.Outstanding` | custom_components/eufy_event_gateway/camera_control_queue.py:70 | the total over all peers, by a loop over the queues |
| `CameraControlQueueModule.CameraControlQueue.IsPending` | custom_components/eufy_event_gateway/camera_control_queue.py:58-61 | found exactly when some request that is still queued names this setting |
| `CameraControlQueueModule.CameraControlQueue.Submit` | custom_components/eufy_event_gateway/camera_control_queue.py:63-84 | accepted exactly when open, below capacity and a worker exists or can be created; a rejection leaves no trace |
| `CameraControlQueueModule.CameraControlQueue.Launched` | custom_components/eufy_event_gateway/camera_control_queue.py:90-103 | the first resumption of a worker is the transition of the model |
| `CameraControlQueueModule.CameraControlQueue.Serve` | custom_components/eufy_event_gateway/camera_control_queue.py:93-126 | the loop over expired heads ends where the recursive model does |
| `CameraControlQueueModule.CameraControlQueue.SubmitCameraControl` | custom_components/eufy_event_gateway/coordinator.py:69-91 | accepted only for a known camera and one of the two actions, and queued for the peer of its station with its binding captured |
| `CameraControlQueueModule.CameraControlQueue.Execute` | custom_components/eufy_event_gateway/coordinator.py:79-86 | the client is called only while the camera is known, bound to the captured model and station, and capable of the action; otherwise no request is called |
| `CameraControlQueueModule.RefusedCallsNothing` | custom_components/eufy_event_gateway/coordinator.py:79-86 | a dispatch on a changed route calls the client for no request |
| `CameraControlQueueModule.CameraControlQueue.Replied` | custom_components/eufy_event_gateway/camera_control_queue.py:101-107 | a reply for another device fails, a late one is cancelled, any other is confirmed |
| `CameraControlQueueModule.CameraControlQueue.Errored` | custom_components/eufy_event_gateway/camera_control_queue.py:115-116 | an error after the call is reported as possibly sent |
| `CameraControlQueueModule.CameraControlQueue.TimedOutAt` | custom_components/eufy_event_gateway/camera_control_queue.py:113-114 | a timeout is reported as possibly sent |
| `CameraControlQueueModule.CameraControlQueue.CancelledAt` | custom_components/eufy_event_gateway/camera_control_queue.py:108-126 | a cancellation reports the head once, and the rest of its queue as not sent |
| `CameraControlQueueModule.CameraControlQueue.BeginClose` | custom_components/eufy_event_gateway/camera_control_queue.py:130-133 | nothing is accepted or confirmed from here on |
| `CameraControlQueueModule.CameraControlQueue.EndClose` | custom_components/eufy_event_gateway/camera_control_queue.py:134-142 | what is still queued is reported, then everything is cleared |
| `GatewayTheorems.MotionIsAggregate` | eufy_event_gateway/src/domain/gateway-state.ts:286-382 | over every run the general motion flag of every camera is the OR of the nine visual flags |
| `GatewayMemory.MotionIsAnyOfNine` | eufy_event_gateway/src/domain/gateway-state.ts:669-680 | over every run the general motion flag is set exactly while one of the nine named detections is; sounds and the button do not count |
| `GatewayTheorems.ReportCamera` | eufy_event_gateway/src/domain/gateway-state.ts:286-416 | a report changes one flag of one camera and keeps every other camera and all metadata |
| `GatewayTheorems.ReportMoves` | eufy_event_gateway/src/domain/gateway-state.ts:682-699 | a report moves its own flag and its own timer together, and no other flag or timer |
| `GatewayTheorems.FlagsFollowIff` | eufy_event_gateway/src/domain/gateway-state.ts:286-416 | every flag of every camera follows its history at every point of a run if and only if no due button timer fired while its camera had no button |
| `GatewayTheorems.FlagsFollowHistory` | eufy_event_gateway/src/domain/gateway-state.ts:286-416 | over every run a flag is set exactly when its timer is pending, due one hold period after the last notification, a raise; with no overdue timer the flag is set exactly when that raise is less than a hold period old |
| `GatewayTheorems.ButtonClearsIff` | eufy_event_gateway/src/domain/gateway-state.ts:398-401 | an expired button timer clears its flag if and only if the camera supports a button at that moment |
| `GatewayTheorems.HeldButtonSticks` | eufy_event_gateway/src/domain/gateway-state.ts:398-401 | a concrete run that leaves a button flag up with no timer to clear it |
| `GatewayTheorems.RunOwners` | eufy_event_gateway/src/domain/gateway-state.ts:306-416 | over every run a person or button detection that has an owner was recorded with that very event identity |
| `GatewayTheorems.EnrichNamesItsOwn` | eufy_event_gateway/src/domain/gateway-state.ts:333-351 | over every run a name goes only to the unnamed last detection recorded by the call that supplied this identity; only name and recognition change and no detection event is sent |
| `GatewayTheorems.NamedAtMostOnce` | eufy_event_gateway/src/domain/gateway-state.ts:333-351 | over every run no detection is named twice, whoever asks and for whichever camera |
| `GatewayTheorems.StaysDisowned` | eufy_event_gateway/src/domain/gateway-state.ts:286-416 | once no detection numbered below n can be named on a camera, that holds for the rest of the run |
| `GatewayTheorems.NewerRefuses` | eufy_event_gateway/src/domain/gateway-state.ts:286-351 | once a camera has a newer last detection, for the rest of the run no earlier one is named |
| `GatewayTheorems.RebindingRefuses` | eufy_event_gateway/src/domain/gateway-state.ts:125-132 | after a change of station or model, for the rest of the run every name goes to a detection recorded since |
| `GatewayTheorems.AnonymousPressRefuses` | eufy_event_gateway/src/domain/gateway-state.ts:391-416 | after an anonymous button press, for the rest of the run every name goes to a detection recorded since |
| `GatewayTheorems.RunTables` | eufy_event_gateway/src/domain/gateway-state.ts:125-252 | over every run each family is a map in insertion order whose keys are its members' own serials |
| `GatewayTheorems.ReportShows` | eufy_event_gateway/src/domain/gateway-state.ts:286-416 | after an accepted report the flag and its timer are as reported, the motion flag is the OR of the visual flags, and the last event announces this camera |
| `GatewayMemory.LastAfter` | eufy_event_gateway/src/domain/gateway-state.ts:286-416 | over every run, the last detection after a report: motion spares a person seen in the last 10000 milliseconds, an anonymous press a named detection, and any other raise is remembered with its kind, time, name and a number no camera has yet; an unheard report changes nothing |
| `GatewayMemory.ReportAnnounces` | eufy_event_gateway/src/domain/gateway-state.ts:286-416 | a raise announces its own detection, and every report then the whole camera |
| `GatewayMemory.EnrichMemory` | eufy_event_gateway/src/domain/gateway-state.ts:333-351 | an enrichment names the last detection exactly when its kind, owner, text and missing name allow it, and touches no other camera |
| `GatewayMemory.RegisterMemory` | eufy_event_gateway/src/domain/gateway-state.ts:125-132 | re-registration replaces the metadata, drops both owners exactly when station or model change, and keeps the last detection |
| `GatewayMemory.NewCamera` | eufy_event_gateway/src/domain/gateway-state.ts:133-158 | only registration adds a camera, with every flag clear and nothing remembered |
| `GatewayMemory.MediaShown` | eufy_event_gateway/src/domain/gateway-state.ts:418-431 | new media replaces the media of its camera alone, and is announced before the camera exactly when it is an image update |
| `GatewayMemory.FireMemory` | eufy_event_gateway/src/domain/gateway-state.ts:682-699 | an expired timer changes no last detection and no owner |
| `GatewayMemory.PersonHolds` | eufy_event_gateway/src/domain/gateway-state.ts:286-351 | a reported person stays the last detection, with its source, through any other calls, cleared flags, timers, re-registrations of the same binding and motion within ten seconds |
| `GatewayMemory.PersonIsNamed` | eufy_event_gateway/src/domain/gateway-state.ts:333-351 | such a person, when unnamed, takes the first name that its own source supplies |
| `GatewaySensors.Registered` | eufy_event_gateway/src/domain/gateway-state.ts:172-198 | registration shows exactly the observations of the sensor's capabilities, at what the sensor already held, else as supplied, else clear; every other sensor stays |
| `GatewaySensors.ContactShown` | eufy_event_gateway/src/domain/gateway-state.ts:209-213 | a contact report changes the contact alone |
| `GatewaySensors.ObservationShown` | eufy_event_gateway/src/domain/gateway-state.ts:216-252 | a report of one observation a sensor is capable of sets that observation alone and is announced; any other changes nothing |
| `GatewaySensors.ObservationStays` | eufy_event_gateway/src/domain/gateway-state.ts:172-252 | over every run a reported observation stays as reported through other calls and through registrations that keep the capability |
| `GatewayStateModule.GatewayState.RegisterCamera` | eufy_event_gateway/src/domain/gateway-state.ts:125-161 | rebinding disowns, a new camera starts clear, and one update is announced; in place, with the new state and events of the model, and all families valid before and after |
| `GatewayStateModule.GatewayState.ScheduleDetectionClear` | eufy_event_gateway/src/domain/gateway-state.ts:682-699 | the previous timer of the flag is replaced by none or by one a hold period away; in place, with the new state and events of the model |
| `GatewayStateModule.GatewayState.RecordMotion` | eufy_event_gateway/src/domain/gateway-state.ts:286-303 | flag, timer and motion flag are as reported and announced, with a last detection unless a person was just seen; in place, with the new state and events of the model, and all families valid before and after |
| `GatewayStateModule.GatewayState.RecordPerson` | eufy_event_gateway/src/domain/gateway-state.ts:306-325 | flag, timer and motion flag are as reported and announced, with owner and the named or unnamed detection; in place, with the new state and events of the model, and all families valid before and after |
| `GatewayStateModule.GatewayState.RecordDetection` | eufy_event_gateway/src/domain/gateway-state.ts:354-382 | flag, timer and motion flag of one AI kind are as reported and announced; in place, with the new state and events of the model, and all families valid before and after |
| `GatewayStateModule.GatewayState.RecordDoorbell` | eufy_event_gateway/src/domain/gateway-state.ts:391-416 | nothing without button support; otherwise flag and timer are as reported and announced, with owner, and the last detection unless a recognized one is kept; in place, with the new state and events of the model, and all families valid before and after |
| `GatewayStateModule.GatewayState.FireTimer` | eufy_event_gateway/src/domain/gateway-state.ts:689-698 | an expired timer goes, and its flag with it unless the camera has lost its button; in place, with the new state and events of the model, and all families valid before and after |
| `GatewayStateModule.GatewayState.EnrichName` | eufy_event_gateway/src/domain/gateway-state.ts:343-351 | every refusal of the model, in the same order, or the named detection; in place, with the new state and events of the model, and all families valid before and after |
| `GatewayStateModule.GatewayState.UpdateMedia` | eufy_event_gateway/src/domain/gateway-state.ts:419-446 | a media change announces the camera once; in place, with the new state and events of the model, and all families valid before and after |
| `GatewayStateModule.GatewayState.RegisterStation` | eufy_event_gateway/src/domain/gateway-state.ts:164-169 | the station is replaced and announced; in place, with the new state and events of the model, and all families valid before and after |
| `GatewayStateModule.GatewayState.RegisterSensor` | eufy_event_gateway/src/domain/gateway-state.ts:172-196 | held observations win over incoming ones, absent capabilities lose theirs, and the merged sensor is announced; in place, with the new state and events of the model, and all families valid before and after |
| `GatewayStateModule.GatewayState.UpdateSensorContact` | eufy_event_gateway/src/domain/gateway-state.ts:209-213 | a contact report re-registers the stored sensor with the new contact; in place, with the new state and events of the model, and all families valid before and after |
| `GatewayStateModule.GatewayState.RecordSensor` | eufy_event_gateway/src/domain/gateway-state.ts:216-252 | one held observation is written and announced when the sensor has the capability; in place, with the new state and events of the model, and all families valid before and after |
| `Replica.ReadyIsView` | eufy_event_gateway/src/server.ts:1687-1692 | the ready message makes any coordinator show exactly the gateway |
| `Replica.ApplyCarries` | eufy_event_gateway/src/domain/gateway-state.ts:125-453 | each call sends at most two events; the last carries its whole effect on the three families and an earlier one carries none |
| `Replica.MergePrefix` | custom_components/eufy_event_gateway/coordinator.py:220-287 | merging part of a stream of announcements shows the last state whose announcements have all arrived |
| `Replica.ReplicaLags` | custom_components/eufy_event_gateway/coordinator.py:220-287 | after ready and any number of further messages the coordinator equals the gateway after some call since the connection, the last one fully announced; with every message merged it equals the current state |
| `CoordinatorModule.Coordinator.Normalize` | custom_components/eufy_event_gateway/coordinator.py:223-227 | a list is indexed by serial, later entries win, anything without a string serial is skipped |
| `CoordinatorModule.Coordinator.SetCamera` | custom_components/eufy_event_gateway/coordinator.py:172-185 | one camera is replaced and every other entry of every family is kept |
| `CoordinatorModule.Coordinator.SetStation` | custom_components/eufy_event_gateway/coordinator.py:157-170 | one station is replaced and every other entry of every family is kept |
| `CoordinatorModule.Coordinator.ApplyEvent` | custom_components/eufy_event_gateway/coordinator.py:220-287 | the keys of one event are merged in the order of the code, each family untouched by the others |
| `CoordinatorModule.Coordinator.Listen` | custom_components/eufy_event_gateway/coordinator.py:202-209 | the events of a connection are merged in order |
| `Sse.ReadItem` | custom_components/eufy_event_gateway/client.py:704-716 | one whole frame or heartbeat read between events yields its event or nothing and leaves no open data line |
| `Sse.StreamRoundTrip` | eufy_event_gateway/src/server.ts:1687-1699 | the client yields exactly the written events in order, with heartbeats anywhere between them |
| `Sse.CutStream` | custom_components/eufy_event_gateway/client.py:703-716 | a stream broken between any two characters yields exactly the events wholly before the break |
| `Utf8.DecodeEncoded` | custom_components/eufy_event_gateway/client.py:705 | text decodes back, and text followed by part of a character does not decode |
| `Utf8.DecodeIff` | custom_components/eufy_event_gateway/client.py:705 | the client decodes a line exactly when it is the encoding of some text, and to that text |
| `Sse.SpacesAre` | custom_components/eufy_event_gateway/client.py:716 | the space dropped in front of data is exactly the 29 characters of Python's white space |
| `SseBytes.RawEvents` | custom_components/eufy_event_gateway/client.py:703-716 | the loop over raw lines, with its decoding, yields what reading them one by one yields, and raises exactly when a line does not decode |
| `SseBytes.CutBytes` | custom_components/eufy_event_gateway/client.py:703-720 | a stream broken after any byte, by an end or a failure, has yielded exactly the events wholly before the break, and raises a decoding error if and only if the body ended inside a character |
| `EventStream.CopyIsAPastState` | custom_components/eufy_event_gateway/coordinator.py:202-287 | gateway, event text, line reader and coordinator together: break the connection after any byte, and the copy is unchanged or equals a past gateway state, the last fully read one; unbroken it is the current state; the listener survives unless the body ended inside a character |
| `Warmup.StepInv` | eufy_event_gateway/src/startup-snapshot-warmup.ts:36-90 | every call, and every change of the clock or of the images, keeps the schedule, chain, budget and log invariants |
| `Warmup.RunInv` | eufy_event_gateway/src/startup-snapshot-warmup.ts:36-90 | schedule, chain, budget and log invariants hold after every run |
| `Warmup.LinkBegins` | eufy_event_gateway/src/startup-snapshot-warmup.ts:76-82 | a link that begins a capture does so before the stop, without an image, as at most the third attempt and two minutes after the last one |
| `Warmup.CapturesNeverOverlap` | eufy_event_gateway/src/startup-snapshot-warmup.ts:70-90 | over every run a capture begins only after the previous one ended, never after the stop, never for a camera with an image |
| `Warmup.AttemptsAreBounded` | eufy_event_gateway/src/startup-snapshot-warmup.ts:50-56 | over every run a camera is tried at most three times, with starts at least 120 seconds apart |
| `Warmup.ChainIsSchedule` | eufy_event_gateway/src/startup-snapshot-warmup.ts:50-90 | between start and stop the unsettled chain is exactly the scheduled serials, each once, in the order they were added |
| `Warmup.EnqueueIff` | eufy_event_gateway/src/startup-snapshot-warmup.ts:48-56 | over every run a camera is scheduled exactly when not stopped, not scheduled yet, without an image, with fewer than three captures begun and the last of them 120000 milliseconds ago; otherwise nothing changes |
| `Warmup.ChainDrains` | eufy_event_gateway/src/startup-snapshot-warmup.ts:70-90 | left alone, the chain captures its cameras one by one, in order, each exactly once |
| `StartupSnapshotWarmupModule.StartupSnapshotWarmup.Enqueue` | eufy_event_gateway/src/startup-snapshot-warmup.ts:50-56 | every refusal of the model, or one more scheduled serial |
| `StartupSnapshotWarmupModule.StartupSnapshotWarmup.Start` | eufy_event_gateway/src/startup-snapshot-warmup.ts:59-63 | the loop chains every scheduled serial in order |
| `StartupSnapshotWarmupModule.StartupSnapshotWarmup.Stop` | eufy_event_gateway/src/startup-snapshot-warmup.ts:66-69 | nothing stays scheduled |
| `StartupSnapshotWarmupModule.StartupSnapshotWarmup.RunLink` | eufy_event_gateway/src/startup-snapshot-warmup.ts:76-82 | a link checks the stop and the image again just before its capture: it begins one only before the stop, without an image, within three attempts and two minutes after the last |
| `StartupSnapshotWarmupModule.StartupSnapshotWarmup.FinishCapture` | eufy_event_gateway/src/startup-snapshot-warmup.ts:82-88 | a capture that settled either way frees its serial |
| `CivilCalendar.MonthStep` | eufy_event_gateway/src/mega/cloud-calendar.ts:47-48 | consecutive month starts lie exactly a Gregorian month length apart |
| `CivilCalendar.DateAt` | eufy_event_gateway/src/mega/cloud-calendar.ts:47-48 | the UTC day arithmetic reaches every date of the day-by-day calendar |
| `CivilCalendar.DayOf` | eufy_event_gateway/src/mega/cloud-calendar.ts:68 | every day number has one valid date, and that date has this day number |
| `CivilCalendar.InMonthIff` | eufy_event_gateway/src/mega/cloud-calendar.ts:67-68 | a day number lies in a month exactly when the month's window of day numbers holds it |
| `CloudCalendar.SameQueries` | custom_components/eufy_event_gateway/client.py:22-30 | the gateway and the client admit the same months and offsets |
| `CloudCalendar.ValidQueryIff` | eufy_event_gateway/src/mega/cloud-calendar.ts:36-41 | a query is valid exactly when it spells a month of 2000 to 2100 and its offset is a whole number of minutes within 50400 seconds, and it is read as that month |
| `CloudCalendar.GuardIdle` | eufy_event_gateway/src/mega/cloud-calendar.ts:49-50 | the guard on the window's shape never fires for a valid query |
| `CloudCalendar.WindowIsMonth` | eufy_event_gateway/src/mega/cloud-calendar.ts:44-52 | for every valid query the window is exactly one Gregorian month, starting at local midnight of its first day |
| `CloudCalendar.InWindowIff` | eufy_event_gateway/src/mega/cloud-calendar.ts:67-68 | a row is in the window if and only if its local civil date lies in the queried month |
| `CloudCalendar.DayOfRow` | eufy_event_gateway/src/mega/cloud-calendar.ts:67-68 | a row gives a day exactly when it is in the window, and then its day of the local month |
| `CloudCalendar.CollectDays` | eufy_event_gateway/src/mega/cloud-calendar.ts:59-69 | the row loop succeeds exactly when every row is well bound, and then the days are those some row falls on and every row is counted |
| `CloudCalendar.SpoiledIff` | eufy_event_gateway/src/mega/cloud-calendar.ts:58-66 | a payload is refused exactly when it is no list, has more than 1000 rows, or has a row that is malformed, has a date outside 0 to 2^53 - 1, or names another camera or station |
| `CloudCalendar.ProjectCloudCalendar` | eufy_event_gateway/src/mega/cloud-calendar.ts:55-71 | a day is returned if and only if some row falls on it; dropped plus in-window rows are all rows; the client accepts every result; each error arises exactly for its cause |
| `CloudCalendar.CheckDays` | custom_components/eufy_event_gateway/client.py:92-107 | the client's loop accepts exactly the strictly increasing day lists within the month |
| `Base64.DecodeUnpadded` | eufy_event_gateway/src/mega/general-rtc-identity.ts:108 | decoding inverts encoding on every byte string |
| `Base64.DecodeStrictEncode` | eufy_event_gateway/scripts/diagnostic-bundle.py:117 | the strict decoder of the inspectors recovers every padded encoding |
| `RtcCipher.AcceptedIff` | eufy_event_gateway/src/mega/general-rtc-identity.ts:105-111 | a ciphertext yields given bytes if and only if it is within the limit and spells their one canonical encoding, in either alphabet, with exact padding or none, and they are whole blocks |
| `RtcCipher.SpellingIsUnique` | eufy_event_gateway/src/mega/general-rtc-identity.ts:107-111 | no text spells two byte strings |
| `RtcCipher.DecryptInverts` | eufy_event_gateway/src/mega/general-rtc-identity.ts:101-115 | every plaintext up to 65536 bytes encrypts to at most 87404 characters, and every accepted spelling of that text decrypts to the plaintext |
| `RtcCipher.EncryptIff` | eufy_event_gateway/src/mega/general-rtc-identity.ts:100-104 | a plaintext is encrypted exactly when it has at most 65536 bytes |
| `StreamProfile.ScanFields` | eufy_event_gateway/src/server.ts:1853-1865 | the offset loop ends, and decides what the recursive scan decides |
| `StreamProfile.ScanPrintedLiteral` | eufy_event_gateway/src/server.ts:1847-1861 | a string literal under any choice of escapes is scanned to what it means |
| `StreamProfile.ScanPrintedMembers` | eufy_event_gateway/src/server.ts:1853-1865 | printed members are scanned to what they say, and refused exactly when two keys mean the same |
| `StreamProfile.MembersScanned` | eufy_event_gateway/src/server.ts:1853-1865 | whatever is scanned without failure is a printed list of members |
| `StreamProfile.PrintedIsRead` | eufy_event_gateway/src/server.ts:1833-1870 | every spelling of an object of strings is read as what it selects |
| `StreamProfile.ReadIsPrinted` | eufy_event_gateway/src/server.ts:1833-1870 | whatever is read without failure is a spelling of an object of strings |
| `StreamProfile.SelectedIff` | eufy_event_gateway/src/server.ts:1833-1870 | a body within 16384 bytes selects the native profile if and only if it spells an object with the one member `profile` and the value `native`, the compatible one if and only if that value is `compatible`, and the default if and only if it spells an empty object |
| `StreamProfile.ShortMeans` | eufy_event_gateway/src/server.ts:1847-1861 | the short escapes are exactly the eight of RFC 8259 section 7, each with its meaning there |
| `StreamProfile.SpacesAre` | eufy_event_gateway/src/server.ts:1847-1852 | the space that is skipped is the white space and the line terminators of ECMA-262, 25 code units |
| `StreamProfile.HexMeans` | eufy_event_gateway/src/server.ts:1847-1861 | four hexadecimal digits, in either letter case, mean exactly the code unit whose digits by division they are |
| `JsonText.PrintedIsJsonIff` | eufy_event_gateway/src/server.ts:1833-1870 | a spelling of an object of strings is a JSON text of RFC 8259 if and only if its white space is that of section 2 |
| `JsonText.BodiesSelect` | eufy_event_gateway/src/server.ts:1833-1870 | the bytes of `{"profile":"native"}` select the native profile, and those of `{"profile":"compatible"}` the compatible one |
| `JsonText.AcceptedIsJsonIff` | eufy_event_gateway/src/server.ts:1833-1870 | a body that is read without failure spells a document, and is a JSON text of RFC 8259 if and only if every space unit outside its literals is one of the four of section 2 |
| `JsonText.JsonIsRead` | eufy_event_gateway/src/server.ts:1833-1870 | every such JSON text within the limit is read as what it selects, so the scanner only ever accepts more |
| `JsonText.NoBreakSpaceAccepted` | eufy_event_gateway/src/server.ts:1833-1870 | a concrete body with a no-break space selects the native profile and is no JSON text |
| `StreamProfile.DuplicatesRefused` | eufy_event_gateway/src/server.ts:1859-1861 | a repeated key is refused under every pair of spellings |
| `BundleCapture.StepInv` | eufy_event_gateway/src/diagnostics/bundle-capture.ts:82-280 | every call keeps the counts, the byte total, the order of times and the pseudonyms |
| `BundleCapture.RunInv` | eufy_event_gateway/src/diagnostics/bundle-capture.ts:82-280 | the session invariant holds after every run on a clock that does not run backwards |
| `BundleCapture.IdentifyKeeps` | eufy_event_gateway/src/diagnostics/bundle-capture.ts:266-270 | a new pseudonym differs from all others |
| `BundleCapture.PseudonymsStay` | eufy_event_gateway/src/diagnostics/bundle-capture.ts:266-270 | a device keeps its pseudonym until the evidence is erased |
| `BundleConsent.NothingUnasked` | eufy_event_gateway/src/diagnostics/bundle-capture.ts:84-264 | over every run, on any clock: without consent there is no media in the session or in an export, and every pseudonym beside kept evidence stands for a selected device |
| `BundleConsent.MediaKeptIff` | eufy_event_gateway/src/diagnostics/bundle-capture.ts:213-221 | a chunk is kept exactly with consent, while the capture runs, for a selected device, when not empty and within 67108864 bytes and 20000 entries; one that meets a limit is dropped and ends the capture |
| `BundleConsent.RecordKeptIff` | eufy_event_gateway/src/diagnostics/bundle-capture.ts:168-173 | an event is kept exactly while the capture runs, for no device or a selected one, below 20000 entries; at the limit it is dropped and ends the capture |
| `BundleConsent.TransportKeptIff` | eufy_event_gateway/src/diagnostics/bundle-capture.ts:176-210 | a source observation is kept like an event, and at the limit ends the capture without counting as dropped |
| `BundleConsent.ExpiryErases` | eufy_event_gateway/src/diagnostics/bundle-capture.ts:274-278 | everything is erased once 600000 milliseconds are over and only then, and the capture ends with its chosen seconds |
| `BundleConsent.StopKeepsClearErases` | eufy_event_gateway/src/diagnostics/bundle-capture.ts:223-239 | stopping ends an active capture and keeps its evidence; clearing erases all of it, pseudonyms and selection included |
| `BundleConsent.ElapsedIs` | eufy_event_gateway/src/diagnostics/bundle-capture.ts:272 | times are milliseconds since the start, rounded half up, and none before it |
| `DiagnosticBundle.InspectTiming` | eufy_event_gateway/scripts/diagnostic-bundle.py:105-111 | accepts exactly the times within the minute that never decrease |
| `DiagnosticBundle.InspectMedia` | eufy_event_gateway/scripts/diagnostic-bundle.py:112-123 | accepts exactly the intact rows within the limit, and counts every kind |
| `DiagnosticBundle.Inspect` | eufy_event_gateway/scripts/diagnostic-bundle.py:90-130 | accepts exactly the acceptable archives and reports their totals and kinds |
| `BundleSeal.SealedIff` | eufy_event_gateway/scripts/diagnostic-bundle.py:90-130 | the inspector accepts an archive exactly when it carries some media bodies whole, with their lengths, checksums and closed vocabularies, with times of the minute in order, within 20000 entries and 67108864 bytes |
| `BundleSeal.ExportShows` | eufy_event_gateway/src/diagnostics/bundle-capture.ts:251-264 | there is an export exactly while the evidence is not gone, and it shows exactly the records and chunks then held, with time, device, formats and every body recoverable byte for byte |
| `BundleSeal.TamperEvident` | eufy_event_gateway/scripts/diagnostic-bundle.py:112-123 | two accepted archives with the same checksums carry the same media bodies |
| `DiagnosticBundle.ExportAcceptedIff` | eufy_event_gateway/src/diagnostics/bundle-capture.ts:251-264 | after every run the inspector accepts an export if and only if every call that kept evidence read the clock for its stamp within 60000 milliseconds, or the evidence expired while the archive was built |
| `DiagnosticBundle.ExportAccepted` | eufy_event_gateway/src/diagnostics/bundle-capture.ts:251-280 | with one clock reading in each call the inspector accepts every export of every run |
| `DiagnosticBundle.LateStampIsRefused` | eufy_event_gateway/src/diagnostics/bundle-capture.ts:168-280 | a concrete session whose stamp crosses the minute after the expiry test, and whose export is refused |
| `BundleSession.BundleCapture.Id` | eufy_event_gateway/src/diagnostics/bundle-capture.ts:266-270 | in place, exactly the transition of the model with the session invariant kept: pseudonyms are numbered in the order of first use |
| `BundleSession.BundleCapture.Record` | eufy_event_gateway/src/diagnostics/bundle-capture.ts:168-173 | in place, exactly the transition of the model with the session invariant kept: a record is kept, ignored, or dropped at the record limit |
| `BundleSession.BundleCapture.Transport` | eufy_event_gateway/src/diagnostics/bundle-capture.ts:176-210 | in place, exactly the transition of the model with the session invariant kept: a source observation is kept or ends the capture at the record limit |
| `BundleSession.BundleCapture.Media` | eufy_event_gateway/src/diagnostics/bundle-capture.ts:213-220 | in place, exactly the transition of the model with the session invariant kept: media needs consent, and is kept or dropped at the byte or record limit |
| `BundleSession.BundleCapture.Stop` | eufy_event_gateway/src/diagnostics/bundle-capture.ts:223-226 | in place, exactly the transition of the model with the session invariant kept: only an active capture stops |
| `BundleSession.BundleCapture.Clear` | eufy_event_gateway/src/diagnostics/bundle-capture.ts:229-239 | in place, exactly the transition of the model with the session invariant kept: all evidence and all pseudonyms are erased |
| `BundleSession.BundleCapture.Expire` | eufy_event_gateway/src/diagnostics/bundle-capture.ts:274-278 | in place, exactly the transition of the model with the session invariant kept: retention is checked before the capture time, each with its own reading |
| `BundleSession.BundleCapture.Archive` | eufy_event_gateway/src/diagnostics/bundle-capture.ts:251-264 | in place, exactly the transition of the model with the session invariant kept: nothing once the evidence is gone; otherwise stopped, summarized and archived, and the inspector accepts the archive if and only if no kept stamp lies beyond the minute |
| `EventImageCapture.StepInv` | eufy_event_gateway/src/diagnostics/event-image-capture.ts:92-239 | every call keeps at most four bounded bodies of different families and contents, and at most sixteen different receipts with admissible fields |
| `EventImageCapture.RunInv` | eufy_event_gateway/src/diagnostics/event-image-capture.ts:92-239 | the session invariant holds after every run |
| `EventImageCapture.TokensAreOk` | eufy_event_gateway/src/diagnostics/event-image-capture.ts:162-168 | reference tokens are named by domain and are 64 hexadecimal digits |
| `EvidenceAnswers.ReferencesAre` | eufy_event_gateway/src/diagnostics/event-image-capture.ts:162-168 | exactly the values of 1 to 2048 characters have a token, the keyed hash of their domain and that very value |
| `EvidenceAnswers.SameTokenIff` | eufy_event_gateway/src/diagnostics/event-image-capture.ts:150-168 | with a keyed hash that tells values apart, two receipts of a session have the same token of a domain if and only if they are about the same value |
| `EvidenceAnswers.BodyKeptIff` | eufy_event_gateway/src/diagnostics/event-image-capture.ts:114-148 | a body is kept exactly in an open session when within 2097152 bytes, new, first of its family and within four bodies of 6291456 bytes; each refusal is ignored or counted as in the code |
| `EvidenceAnswers.ReceiptKeptIff` | eufy_event_gateway/src/diagnostics/event-image-capture.ts:156-184 | a receipt is kept exactly in an open session for a status of 400 to 599 and 1 to 5 attempts, once, and up to sixteen |
| `EvidenceAnswers.KeptIs` | eufy_event_gateway/src/diagnostics/event-image-capture.ts:118-121 | a claimed model, device type or topology is kept exactly when it is admissible |
| `EvidenceAnswers.MinuteIs` | eufy_event_gateway/src/diagnostics/event-image-capture.ts:140-222 | a stamp is the number of whole minutes of the later of the two clocks |
| `EvidenceAnswers.RunTraced` | eufy_event_gateway/src/diagnostics/event-image-capture.ts:92-239 | over every run, whatever is retained is evidence of some call of the run, with the references of its values under the session's own salt |
| `EvidenceExport.ValidateDownloadFailures` | eufy_event_gateway/scripts/export-event-image-capture.py:128-167 | accepts exactly the admissible receipts |
| `EvidenceExport.ValidateArchive` | eufy_event_gateway/scripts/export-event-image-capture.py:105-126 | accepts exactly the acceptable archives |
| `EvidenceSeal.SealedIff` | eufy_event_gateway/scripts/export-event-image-capture.py:105-167 | the export tool accepts an archive exactly when it carries some bodies whole, with their lengths and checksums, and genuine receipts under a salt in version 2, within four bodies of 2097152 bytes each and 6291456 together |
| `EvidenceSeal.ExportShows` | eufy_event_gateway/src/diagnostics/event-image-capture.ts:199-213 | there is an export exactly while the session is active and not empty; it has version 2 and the salt exactly when there are receipts, and shows exactly what is held |
| `EvidenceSeal.TamperEvident` | eufy_event_gateway/scripts/export-event-image-capture.py:114-124 | two accepted archives with the same checksums carry the same bodies |
| `EvidenceExport.ExportAcceptedIff` | eufy_event_gateway/src/diagnostics/event-image-capture.ts:199-213 | after every run the validator accepts an export if and only if every call that kept a receipt read the clock for its stamp within thirty minutes |
| `EvidenceExport.ExportAccepted` | eufy_event_gateway/src/diagnostics/event-image-capture.ts:199-225 | with one clock reading in each call the validator accepts every export of every run |
| `EvidenceExport.LateStampIsRefused` | eufy_event_gateway/src/diagnostics/event-image-capture.ts:156-184 | a concrete session whose receipt is stamped in minute 30, and whose export is refused |
| `EventImageSession.EventImageCapture.Capture` | eufy_event_gateway/src/diagnostics/event-image-capture.ts:114-148 | in place, exactly the transition of the model: oversize, duplicate, taken family and full session are each refused and counted as the code does |
| `EventImageSession.EventImageCapture.CaptureDownloadFailure` | eufy_event_gateway/src/diagnostics/event-image-capture.ts:156-184 | in place, exactly the transition of the model: only typed errors in range are kept, once, up to sixteen |
| `EventImageSession.EventImageCapture.Archive` | eufy_event_gateway/src/diagnostics/event-image-capture.ts:199-213 | in place, exactly the transition of the model: nothing once ended or empty; version 2 exactly when there are receipts; the validator accepts it if and only if no receipt lies outside the capture window |
| `EventImageSession.EventImageCapture.End` | eufy_event_gateway/src/diagnostics/event-image-capture.ts:231-239 | in place, exactly the transition of the model: bodies, receipts and salt are erased |
| `EventImageSession.EventImageCapture.Accepting` | eufy_event_gateway/src/diagnostics/event-image-capture.ts:222-225 | in place, exactly the transition of the model: the expiry test and then the capture window |

## Left out

- HTTP routing, the authentication page, stream tokens, trial endpoints and the entity platforms: thin wrappers.
- AES-GCM, AES-CBC, HMAC and SHA-256: functions with the laws of NIST SP 800-38D section 5 and of padding (opening inverts sealing, known lengths); their strength is not modelled.
- JSON text on the event stream and in the journal: a writer and a parser that agree, one line starting with a brace; non-JSON lines cannot arise from this writer.
- Files: permissions, symbolic links and `status.json` are not modelled; segments of equal creation times are listed in any order, which does not change between passes; a refused reserve check is a failed open.
- Calls to `record` before `initialize` has finished, and the `accepted`, `evictedFiles` and `evictedBytes` counters.
- `RawTheorems.SurvivorsAreSuffix`: assumes that every new segment is created later than all segments present; the exact condition is `RawRetention.SuffixAlwaysIff`.
- `GatewayTheorems.FlagsFollowHistory`: assumes the condition that `GatewayTheorems.FlagsFollowIff` shows to be exact.
- `GatewayStateModule.GatewayState.UpdateMedia`: snapshot, event image and stream fields are one opaque token.
- `GatewayStateModule.GatewayState.RecordSensor`: does not model the hold timers, two families of which write the same motion field; a report is one step whoever makes it.
- `ControlTheorems.ResolvedByDeadline`: assumes ideal timers, prompt workers and no cancellation from outside, because a late event loop can miss any deadline.
- `ControlQueue.StepInv`: callbacks neither throw nor re-enter; the route comparison is one boolean of the step, computed by `CameraControlQueueModule.CameraControlQueue.Execute`.
- `Replica.ReplicaLags`: does not model recovery polls and command responses, which may apply an older snapshot, nor locks, which are masked by read time.
- `Sse.CutStream`: is the character-level half; bytes are `SseBytes.CutBytes`.
- `CoordinatorModule.Coordinator.ApplyEvent`: does not model the locks of an event, which are masked by the time they are read.
- `CoordinatorModule.Coordinator.Listen`: is one connection; the reconnection delays are not modelled.
- `Warmup.AttemptsAreBounded`: assumes a clock that does not run backwards and a failure reporter that does not throw.
- `BundleSession.BundleCapture.Transport`: does not model the counters, frame kinds and source attempts of a record.
- `BundleSession.BundleCapture.Archive`: does not model the summary beyond the pseudonyms it assigns.
- `DiagnosticBundle.Inspect`: works on the decoded archive; compression and the raw size caps are not modelled.
- `EvidenceExport.ValidateArchive`: works on the decoded archive; response metadata of a sample is not modelled, and HTTP failures are the typed ones.
- `EvidenceAnswers.SameTokenIff`: assumes that the keyed hash tells the values of one domain apart.
- `BundleSeal.TamperEvident`: assumes that SHA-256 tells byte strings apart.
- `EvidenceSeal.TamperEvident`: assumes that SHA-256 tells byte strings apart.
- `RtcCipher.DecryptInverts`: is stated on bytes, because the text decoder drops a leading byte order mark.
- `close` of the gateway state, which cancels the timers at shutdown: runs are those before it.
- Detection identifiers are numbers that never repeat, name normalization is an arbitrary function, an unknown camera (an exception) is a step that changes nothing, and camera fields no rule reads are one opaque token.
- Image cache, raw network, RTC and crypto instrumentation, catalogue and inventory projections.
