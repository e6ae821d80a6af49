# LocalDrop: a verified model

LocalDrop is a small program that discovers peers on a local network, pairs with them, and sends
and receives files over HTTP. This project models the parts of it that keep state and proves what
they guarantee:

- **The transfer queue.** A table of 128 jobs, a ring buffer of pending slots, and one worker that
  sends with the lock released while enqueuers prune and reuse slots. `TransferQueue` is the code;
  `QueueSystem` interleaves its critical sections with the condition variable, the shutdown and the
  clock. Proved over every run: ring and table describe the same set of jobs, jobs are sent in the
  order they were accepted and at most once, no wakeup is lost, a shutdown drains the ring, an
  accepted job waits at most 38400 seconds, and what the worker reads without the lock is stable.
- **Staged files.** Any number of requests, the queue and the two directories, interleaved callback
  by callback (`Storage`, `Requests`, `Staging`). Proved over every run: each staged file has exactly
  one owner, a finished request leaves no file behind, only an authorized request without error
  keeps a file, and that file is the request's body whatever the chunking: in the downloads, in the
  queue, and while it is being sent (`SentFiles`).
- **The bounded tables.** The rate limiter (64 windows), the pairing tokens (64 endpoints) and the
  administrative sessions (32 slots), each an array that is scanned and lazily emptied. Each scan is
  proved to act on the map the array stands for; over runs, the limiter has an exact sliding-window
  bound, readers of the token table see the last token stored, and sessions do not disturb each
  other. Two nodes that exchange tokens in any order hold the same one.
- **Text.** The growable buffer, the JSON escaper, the hand-written readers that search for the
  first match of a key, and the two list endpoints, against a reference parser for RFC 8259 (strings
  as in its section 7). Proved: the pairing reply delivers its token and expiry whatever the message
  says, and the rendered lists parse back to exactly the records they came from.
- **Forms, names and targets.** Chunked form fields, sanitized file names, the peer registry, and the
  check of a send's target.

State that the program updates in place is held in classes and arrays with the program's fields; each
method is tied to a function or a relation on sequences, and the theorems are about those. A *run* is
a finite sequence of states and events from the initial state, one event per critical section or
callback, in any order the program allows.

## How it is laid out

| files | part of the program |
|---|---|
| `Text`, `Json`, `JsonBuffer`, `JsonRecords`, `JsonLists`, `ListEndpoints`, `ListReading` | `src/json_utils.c` and the list renderers |
| `PairResponse` | the pairing reply in `src/server.c` and its readers in `src/transfer.c` |
| `RateLimiter`, `RateLimiterRuns`, `PeerTokens`, `PeerTokenRuns`, `PairingCodes`, `UiSessions`, `Pairing` | `src/auth.c` |
| `Ring`, `TransferQueue`, `QueueSystem`, `QueueGuarantees`, `QueueTiming`, `QueueLifetimes`, `QueueRecords`, `Worker` | `src/transfer_queue.c` |
| `Files`, `Storage` | `src/storage.c` |
| `FormFields`, `Requests`, `RequestGuarantees`, `Authorization`, `TargetPeers` | `src/server.c` |
| `Staging`, `StagingGuarantees`, `StagingTiming`, `RequestVerdicts`, `SentFiles`, `FailedSends`, `UnnamedParts` | requests, queue and directories together |
| `PeerRegistry` | `src/peer_registry.c` |

## Where the code does less than one would expect

Each of these is a theorem with its exact condition, and a run that shows it where that says more.

- The repository's README.md:85 has outgoing files cleaned up after completion or failure. A job that
  ends gives up its file exactly when it was sent (`FinishedFileGoneIff`); a failed job's file stays
  (`FailedSendKeepsFile`) until an enqueue 3600 seconds later or more (`EnqueueDropsOldFiles`).
- Storing a token never looks at expiry times, so a full table of expired tokens refuses a new one
  (`StoreMeetsExpectationIff`, `ExpiredGrantsBlockStore`).
- The initiator of a pairing ignores whether it could store the token, so the nodes agree afterwards
  exactly when it had room (`ExchangeAgreesIff`).
- An enqueue that is accepted after the worker has left is never sent (`StrandedIff`,
  `StrandedForGood`, `LateEnqueueIsStranded`). The shutdown order of `src/main.c` avoids it.
- Unlocking again does not always replace the old session (`OldTokenSurvivesIff`,
  `TwoSessionsAccepted`).
- File bytes that come before the first file part with a name are passed over without an error
  (`CommittedFileIsTheBody`, `SealedFileIsTheBody`, `UnnamedBytesAreDropped`).
- The reply's message is read without undoing the escapes, so exactly the messages that need none
  come back as they were (`MessageRoundTripIff`). No reply of this program meets the failing case:
  its one message (src/server.c:636) is a constant without such characters (`PairedMessageIsRead`).

## Model

| member | source | states |
|---|---|---|
| `QueueGuarantees.RingMatchesTable` | src/transfer_queue.c:80-137 | in every reachable state the tail follows the head by the count, the ring holds each queued slot once and nothing else, and a slot is in progress exactly when the worker holds it |
| `QueueGuarantees.DefensiveExitsAreDead` | src/transfer_queue.c:203-223 | in every reachable state the worker finds its slot in use before and after the send, and a full ring means a table that pruning cannot help |
| `QueueGuarantees.SendsFollowAcceptance` | src/transfer_queue.c:183-217 | the sends are a prefix of the acceptances, no id is sent twice, and what remains is exactly what the ring holds, in its order |
| `QueueGuarantees.HistoriesGrow` | src/transfer_queue.c:183-217 | over a run neither history is ever shortened or reordered |
| `QueueGuarantees.AcceptedIff` | src/transfer_queue.c:105-115 | an enqueue is accepted if and only if an id could be made and some slot is free or was finished 3600 seconds ago |
| `QueueGuarantees.NoLostWakeup` | src/transfer_queue.c:188-191 | a worker asleep with no signal under way implies the queue is running and empty |
| `QueueGuarantees.DrainBound` | src/transfer_queue.c:193-200 | after a shutdown and without enqueues, every step of the worker's own uses up part of a fixed budget |
| `QueueGuarantees.ShutdownDrains` | src/transfer_queue.c:275-289 | from then on the worker leaves within 386 steps of its own; until it has left it is at its loop, sending, or asleep with a signal under way, so it has a step that is no spurious wakeup; and it leaves no job queued or in progress and everything accepted sent |
| `QueueGuarantees.StrandedIff` | src/transfer_queue.c:193-196 | once the worker has left, the jobs accepted after that, and only those, are in the ring and unsent, in their order; so some job is queued if and only if there was one |
| `QueueGuarantees.StrandedForGood` | src/transfer_queue.c:193-196 | a worker that has left stays away and nothing is sent from then on |
| `QueueGuarantees.LateEnqueueIsStranded` | src/transfer_queue.c:315-319 | a run of three steps that strands a job |
| `QueueSystem.StepInv` | src/transfer_queue.c:180-241 | every critical section of every thread keeps the invariant that links ring, table, worker, histories and job ids |
| `QueueSystem.RunInv` | src/transfer_queue.c:180-241 | so the invariant holds in every state of every run |
| `QueueTiming.ResponseTime` | src/transfer_queue.c:188-217 | with sends of at most 300 seconds and a prompt worker, and no job accepted after the worker had left, a job still queued or being sent was accepted at most 38400 seconds ago |
| `QueueTiming.SweepSparesActiveJobs` | src/storage.c:281-283 | the 86400-second sweep leaves the file of such a job if it was written less than 48000 seconds before the job was accepted |
| `QueueLifetimes.SendReadsStableJob` | src/transfer_queue.c:202-217 | from the start of a send to its end no step of any thread changes the job's id, file, target or token, or gives its slot away |
| `QueueLifetimes.JobKeepsSlot` | src/transfer_queue.c:139-158 | a job keeps its slot, target and token, its status only moves forward, and a finished job is left alone until it is pruned |
| `QueueLifetimes.LookupFinds` | src/transfer_queue.c:338-344 | a status query for an id in use answers with that very slot |
| `QueueLifetimes.AcceptedIdIsAnswerable` | src/transfer_queue.c:88-91 | an accepted id is answerable at every later time, with its target, until some enqueue finds its job finished and last updated 3600 seconds ago or more |
| `QueueRecords.SlotShowsReport` | src/transfer_queue.c:139-158 | in every run a slot shows, for its job, the status, error, byte counts and time that the last step about that job gave it: acceptance, start, progress report or finish |
| `QueueRecords.FinishedJobIsDated` | src/transfer_queue.c:225-236 | a finished job was finished by a step of the worker, at the time it shows, and is completed if and only if that send succeeded |
| `QueueRecords.AnswerableForAnHour` | src/transfer_queue.c:88-91 | so an accepted id is answerable until 3600 seconds after its own finish |
| `TransferQueue.TransferQueue.constructor` | src/transfer_queue.c:257-261 | the queue starts empty and running |
| `TransferQueue.TransferQueue.PruneTerminalJobs` | src/transfer_queue.c:80-93 | exactly the finished jobs of 3600 seconds or more are zeroed, and exactly their files deleted |
| `TransferQueue.TransferQueue.TransferEnqueue` | src/transfer_queue.c:291-322 | the sweep without the lock, then the new table, ring and counters, the slot given, the files deleted and the one signal, on acceptance and on both refusals |
| `TransferQueue.TransferQueue.EnqueueLocked` | src/transfer_queue.c:305-321 | the part of it that runs with the lock held |
| `TransferQueue.TransferQueue.WorkerTake` | src/transfer_queue.c:188-210 | the head of the ring is taken and marked in progress, or the worker waits, leaves or skips |
| `TransferQueue.TransferQueue.JobProgress` | src/transfer_queue.c:139-158 | the counters of a slot in use are set and nothing else |
| `TransferQueue.TransferQueue.WorkerFinish` | src/transfer_queue.c:219-237 | the job ends completed without its file or failed with it, and only a sent file is deleted |
| `TransferQueue.TransferQueue.Shutdown` | src/transfer_queue.c:280-283 | the running flag is cleared, the condition variable signalled once, and nothing else changes |
| `TransferQueue.TransferQueue.StatusGet` | src/transfer_queue.c:338-344 | the first slot in use with the id, or nothing if there is none |
| `Ring.PushAppends` | src/transfer_queue.c:315-317 | read as a sequence, the ring gains the slot at its end |
| `Ring.PopDropsFirst` | src/transfer_queue.c:198-200 | and loses its first |
| `Worker.TurnSendsFirst` | src/transfer_queue.c:198-237 | one turn of the loop on a ring at rest sends the first pending job, whatever the send's outcome, and leaves the ring at rest with the others |
| `Worker.TakeTurn` | src/transfer_queue.c:188-237 | a turn hands the network the id, file, target and token of the first pending job, or leaves if there is none |
| `Worker.RunAfterShutdown` | src/transfer_queue.c:183-240 | run alone after a shutdown, the loop hands the network exactly what the pending jobs say, in order, one turn each, and leaves none queued or in progress |
| `StagingGuarantees.EveryStagedFileHasOneOwner` | src/server.c:434-458 | in every reachable state of requests, queue and disk each staged file has exactly one owner: an unfinished request, or a job that is queued, in progress or failed |
| `StagingGuarantees.EnqueueSettlesFile` | src/server.c:809-813 | an enqueue hands the request's file to one queued job that alone owns it, or deletes it |
| `StagingGuarantees.EndedRequestLeavesNothing` | src/server.c:452-454 | a request that ends without having saved its file has it unlinked; one that committed has moved it to the downloads; one that keeps a path has handed it to a job |
| `StagingGuarantees.FinishedFileGoneIff` | src/transfer_queue.c:225-236 | when a job ends, its staged file goes if and only if it was sent |
| `StagingGuarantees.EnqueueDropsOldFiles` | src/transfer_queue.c:88-91 | the file of a job finished 3600 seconds ago goes with the next enqueue, accepted or not |
| `FailedSends.FailedSendKeepsFile` | src/transfer_queue.c:233-236 | a run in which a send fails and its file is still staged afterwards |
| `StagingGuarantees.RunFollows` | src/server.c:370-432 | in every run a request's authorization, progress and bytes are what its callbacks so far add up to |
| `RequestVerdicts.StatusIsVerdict` | src/server.c:370-432 | in every run the status of a request is what its callbacks make it, so it is below 400 if and only if none was at fault: no check refused, every open had a token and a file, every chunk was written whole, the named bytes stay within 104857600, and no processing failed |
| `RequestVerdicts.VerdictIffFaultless` | src/server.c:385-412 | the status as the first fault gives it is below 400 exactly when no callback since the beginning was at fault |
| `RequestVerdicts.UploadSavedIff` | src/server.c:685-697 | an upload ends saved if and only if no callback was at fault, a named part had begun, and the file could be flushed, closed and renamed from where it was staged; and its status otherwise |
| `RequestVerdicts.SendSealedIff` | src/server.c:788-807 | a send is sealed if and only if no callback was at fault, a named part had begun, the target was not refused, and the file could be flushed and closed; and its status otherwise |
| `RequestVerdicts.DownloadIsNamed` | src/storage.c:205-210 | a saved download is named after the second of its commit and the stored form of the name on its first named part |
| `RequestVerdicts.ChunkDatesFile` | src/storage.c:153 | a chunk that is taken leaves the staged file dated at that time |
| `StagingGuarantees.CommittedFileIsTheBody` | src/server.c:668-698 | a download comes only from a request whose one check granted it and that has no error, has at most 100 MiB, and is the request's file bytes if and only if none came before the first named part |
| `StagingGuarantees.SealedFileIsTheBody` | src/server.c:771-813 | the same for the staged file a send hands to the queue, unless a sweep has removed it |
| `UnnamedParts.UnnamedBytesAreDropped` | src/server.c:389-414 | a run in which a request is sent "ab", "a" of it before the first named part, and its download holds "b" |
| `SentFiles.JobFileIsTheBody` | src/server.c:796-815 | in every run the job in a slot was made by an accepted enqueue of an authorized request, and its file, while staged, holds that request's file bytes; in a timely run a file that was recent on acceptance stays while the job is queued or being sent |
| `SentFiles.ActiveJobHasFile` | src/transfer_queue.c:202-236 | a job that is queued or being sent has its file name |
| `SentFiles.SendCarriesTheBody` | src/transfer_queue.c:212-217 | so throughout every send the staged file holds the file bytes of the authorized request the job came from, and in a timely run it is there to be read |
| `SentFiles.OriginIsUnique` | src/transfer_queue.c:113-124 | no two enqueues of a run made jobs with one id, so that request is determined |
| `StagingGuarantees.ErrorsStay` | src/server.c:385-387 | an error status stays an error until the request ends |
| `Staging.StepInv` | src/storage.c:101-240 | every step of every thread keeps the ownership invariant |
| `Staging.RunInv` | src/storage.c:101-240 | so it holds in every state of every run |
| `StagingTiming.SweepSparesQueuedFiles` | src/transfer_queue.c:303 | while the worker is there, a sweep, whenever it comes, leaves the staged file of a job that is queued or being sent, written less than 48000 seconds before the job was accepted |
| `StagingTiming.SweptIff` | src/storage.c:281-283 | a sweep takes a staged file if and only if it was last written 86400 seconds ago or more |
| `Storage.SanitizeFilename` | src/storage.c:47-84 | the buffer ends up holding the base name, cut to 255 bytes, with every byte outside the safe set replaced, or the default name |
| `Storage.SafeNameIdempotent` | src/storage.c:61-78 | a sanitized name is its own sanitized form, so it holds no separator |
| `Storage.NameIsStored` | src/storage.c:61-83 | directories are dropped up to the last slash, or up to the last backslash if there is no slash, and the rest is stored character by character, cut at 255, or replaced if empty |
| `Storage.PortableNameIsKept` | src/storage.c:61-78 | a name of portable characters after any path is stored unchanged, and its download ends in it |
| `Storage.StagingNamesDiffer` | src/storage.c:119-125 | staging names with different tokens never meet |
| `Storage.DownloadNamesMeetIff` | src/storage.c:205-210 | download names meet if and only if the same name is committed in the same second |
| `Storage.UploadStage.OpenFile` | src/storage.c:101-135 | the stage and the directories after an open, in its three outcomes |
| `Storage.UploadStage.WriteChunk` | src/storage.c:137-160 | a chunk is appended and counted, or refused as too large or short with what that leaves behind |
| `Storage.UploadStage.SealFile` | src/storage.c:162-191 | sealing closes the file once; a failed close leaves no handle |
| `Storage.UploadStage.CommitFile` | src/storage.c:193-223 | the sealed file moves to the downloads under its final name and the stage forgets it, or nothing moves |
| `Storage.UploadStage.AbortFile` | src/storage.c:225-240 | the staged file is unlinked and the stage cleared |
| `Files.FileStore.Delete` | src/storage.c:242-248 | exactly the named staging file goes, and an empty name is refused |
| `Files.FileStore.CleanupExpiredStagingFiles` | src/storage.c:250-287 | in whatever order the directory is read, exactly the files older than the limit go |
| `Requests.Connection.AuthorizeRequest` | src/server.c:304-333 | the first outcome is kept for the request's life, with its status |
| `Requests.Connection.IteratePostData` | src/server.c:370-432 | one form callback: nothing after an error; a file chunk goes to the stage, any other to the one field its key names |
| `Requests.Connection.IterateFilePart` | src/server.c:389-414 | a file chunk: one open per named part that finds none open, a write with its two error statuses |
| `Requests.Connection.AnswerUpload` | src/server.c:685-697 | the final callback of an upload: the commit, the state after it, and the status answered |
| `Requests.Connection.SealUploadedStage` | src/server.c:788-807 | the final callback of a send up to the enqueue |
| `Requests.Connection.AfterEnqueue` | src/server.c:809-815 | the file is the job's, or is aborted |
| `Requests.Connection.RequestCompleted` | src/server.c:434-458 | the stage is aborted unless the file was saved |
| `RequestGuarantees.IteratePostOk` | src/server.c:389-414 | a form callback keeps the request's invariant, touches no file but its own, and while no error is set accounts for every file byte |
| `RequestGuarantees.FinishUploadOk` | src/server.c:685-697 | an upload saves a file only when authorized and without error, then exactly the bytes received, and changes no other download |
| `RequestGuarantees.SealForSendOk` | src/server.c:788-807 | a send is ready only when authorized and without error, with its staged file unchanged |
| `RequestGuarantees.SendEnqueuedOk` | src/server.c:809-815 | after the enqueue the file is the job's or is gone |
| `Authorization.AuthorizeUiRequest` | src/server.c:278-302 | a request is checked once; the limiter first, the session only if it allows; authorized if and only if both do, else 429 or 401; both tables after it |
| `Authorization.AuthorizeUploadRequest` | src/server.c:304-333 | the same with a session or, only without one, a pairing token, within 20 calls of "upload" in 60 seconds; a table that is not consulted does not change |
| `Authorization.UploadAuthorizedIff` | src/server.c:304-333 | over any histories of the tables that were looked up, an upload is authorized if and only if the limiter allowed it and it shows a live session of its address or a non-empty token last stored for an endpoint there and unexpired; the session was issued to the address in the last 43200 seconds |
| `Authorization.UiAuthorizedIff` | src/server.c:284-301 | over any history of the sessions, an administrative request is authorized if and only if the limiter allowed it and a non-empty token of a live session of its address was shown; that token was issued to the address, against the right code, in the last 43200 seconds |
| `TargetPeers.PortFormAccepted` | src/server.c:345-349 | a port field of optional space, an optional plus and digits is accepted exactly when the number is 1 to 65535, with that value |
| `TargetPeers.PortHasForm` | src/server.c:345-349 | and nothing of any other form is |
| `TargetPeers.PortRoundTrip` | src/server.c:345-349 | a port printed in decimal is read back |
| `TargetPeers.ValidateTargetPeer` | src/server.c:335-368 | the decision, its status and the token given, and that the token table loses nothing but expired entries |
| `TargetPeers.TargetAcceptedIff` | src/server.c:335-368 | over any histories, a target is accepted if and only if address and port are well formed, it was discovered and its name not marked inactive since, pairing was last set for it, and the last token stored for it is unexpired; that is the token the job carries |
| `TargetPeers.RefusalStatus` | src/server.c:340-364 | a malformed address or port is refused with 400 and everything else with 403 |
| `TargetPeers.AcceptedTargetAuthorizes` | src/server.c:361-367 | after any run of exchanges, the token an accepted target gives the job is one the other node accepts |
| `RateLimiter.Limiter.constructor` | src/auth.c:83 | all slots start inactive |
| `RateLimiter.Limiter.Scan` | src/auth.c:403-433 | the loop stops at the key's unexpired window or has passed every slot, switching off what had expired and noting a reusable slot if there is one |
| `RateLimiter.Limiter.Allow` | src/auth.c:385-447 | a call acts on the unexpired windows as on an unbounded map, except that a new key is refused exactly when 64 other keys hold unexpired windows |
| `RateLimiter.FullTable` | src/auth.c:435-438 | the map has 64 keys if and only if no slot can be reused |
| `RateLimiter.SweepKeepsLive` | src/auth.c:411-417 | switching off expired slots in any prefix of the table changes no unexpired window |
| `RateLimiterRuns.SlidingWindowBound` | src/auth.c:419-431 | over any run of mixed keys, any interval of one window length sees at most 2 * limit - 1 allowed calls of a key |
| `RateLimiterRuns.SlidingWindowBoundIsReached` | src/auth.c:411-431 | for every limit and every window of two seconds or more, a run attains that bound |
| `RateLimiterRuns.WindowGrantsAtMostLimit` | src/auth.c:421-429 | over any run, an open window has counted exactly the calls it allowed since its start, and never more than the limit |
| `RateLimiterRuns.CallAllowedIff` | src/auth.c:395-446 | in every run a call is allowed if and only if limit and window are positive and its open window, as the calls so far amount to, has room or, if it has none, fewer than 64 keys have one open |
| `PeerTokens.PeerAuth.EnsurePairingCode` | src/auth.c:57-70 | a good code stays; otherwise a fresh one is good for 300 seconds |
| `PeerTokens.PeerAuth.GetPairingCode` | src/auth.c:197-218 | the code in force with its expiry, or nothing |
| `PeerTokens.PeerAuth.FindSlot` | src/auth.c:228-241 | the endpoint's active slot, or that there is none and whether some slot is inactive |
| `PeerTokens.PeerAuth.Upsert` | src/auth.c:220-254 | the map gains exactly the grant, or the store is refused and nothing changes; refused exactly when the endpoint is absent and every slot is active |
| `PeerTokens.PeerAuth.IssuePairToken` | src/auth.c:256-296 | the code, the table and the token after an issue, granted or refused |
| `PairingCodes.TokenIssuedIff` | src/auth.c:275-291 | in every run a token is issued if and only if the provided code is the last generated one, less than 300 seconds old, a token can be generated and there is room; it is good for 604800 seconds |
| `PairingCodes.CodeShownIff` | src/auth.c:57-70 | a code is shown with the end of its 300 seconds, or not at all when they are over and no new one could be generated |
| `PeerTokens.PeerAuth.GetPeerToken` | src/auth.c:318-350 | the unexpired token of the endpoint, if any; the scan forgets nothing but expired entries |
| `PeerTokens.PeerAuth.ValidatePeerToken` | src/auth.c:352-383 | accepted if and only if non-empty and the unexpired token of some endpoint at the address |
| `PeerTokenRuns.RunAgrees` | src/auth.c:220-383 | before every operation of every run, readers see exactly the unexpired part of what was last stored |
| `PeerTokenRuns.GetReturnsLastStored` | src/auth.c:330-346 | in every run a lookup returns the last token stored for the endpoint exactly while it is unexpired |
| `PeerTokenRuns.ValidateAcceptsLastStored` | src/auth.c:364-379 | in every run a token is accepted exactly when it is the unexpired last token of some endpoint there |
| `PeerTokenRuns.StoreSucceeds` | src/auth.c:228-245 | in every run a store succeeds if its endpoint's last token is unexpired or fewer than 64 endpoints were ever given one |
| `PeerTokenRuns.StoreMeetsExpectationIff` | src/auth.c:238-245 | a store is refused only for want of room among unexpired tokens if and only if it found room anyway or nothing stored has expired |
| `PeerTokenRuns.ExpiredGrantsBlockStore` | src/auth.c:238-245 | a run in which 64 endpoints with valid ports are given tokens for seven days and a store at that moment is refused though no stored token is unexpired |
| `Pairing.ReplyDelivers` | src/transfer.c:359-371 | what the initiator reads from the reply is the token and expiry the receiver stored |
| `Pairing.ExchangeIsPossible` | src/auth.c:280-292 | whenever the receiver has room, an exchange can take place with any message and token |
| `Pairing.ExchangeAgreesIff` | src/server.c:745-766 | after a delivered exchange the nodes hold the same token and expiry if and only if the initiator had room for it |
| `Pairing.RunShows` | src/auth.c:220-316 | after every event of every run of exchanges in both directions, each with room at its initiator, stores for others and lookups, both nodes hold the last exchange's token until it expires and none after |
| `Pairing.PairedNodesAuthorize` | src/auth.c:318-383 | so at any later moment a lookup at either node succeeds exactly while that token is good, and the other node accepts what it returns |
| `UiSessions.UiAuth.CreateUiSession` | src/auth.c:126-162 | with the right code the first reusable slot takes the fresh token; otherwise nothing changes |
| `UiSessions.UiAuth.ValidateUiSession` | src/auth.c:164-195 | accepted if and only if some live session of the address has the token; only expired sessions are cleared |
| `UiSessions.UnlockIssuesIff` | src/auth.c:138-157 | in every run an unlock issues its fresh token if and only if the code was right, a token could be generated and some of the 32 slots is free, expired or the address's own |
| `UiSessions.CheckAcceptsIff` | src/auth.c:176-191 | in every run a token is accepted if and only if it is not empty and a live session of the address carries it |
| `UiSessions.IssuedTokenIsAccepted` | src/auth.c:143-157 | in every run an issued token is accepted from its address at every time before its expiry until that address unlocks again, whatever others do |
| `UiSessions.AcceptedTokenWasIssued` | src/auth.c:186-190 | in every run an accepted token was issued to that very address, against the right code, less than 43200 seconds ago |
| `UiSessions.OldTokenSurvivesIff` | src/auth.c:144-145 | after an address unlocks again its old token is still accepted if and only if some slot before its own was reusable |
| `UiSessions.TwoSessionsAccepted` | src/auth.c:144-145 | a run in which two tokens of one address are accepted at the same moment |
| `JsonBuffer.Buffer.constructor` | src/server.c:229-231 | an empty, unallocated buffer |
| `JsonBuffer.Buffer.EnsureCapacity` | src/json_utils.c:8-33 | room for the text and a terminator, contents kept, at most twice what is needed, and all bytes ever moved by growth fit the present capacity |
| `JsonBuffer.Buffer.Append` | src/json_utils.c:35-51 | the contents gain exactly the text, terminated, within the growth bound |
| `JsonBuffer.Buffer.Appendf` | src/json_utils.c:53-80 | the formatted text is never cut |
| `JsonBuffer.Buffer.AppendEscaped` | src/json_utils.c:82-151 | the contents gain exactly the escaped text |
| `JsonBuffer.Buffer.AppendEscapedChar` | src/json_utils.c:95-146 | one character's escape, by cases |
| `Json.EscapedQuotes` | src/json_utils.c:101-105 | every quote in escaped text follows a backslash |
| `Json.ParseEscapedText` | src/json_utils.c:82-151 | by the grammar of RFC 8259 section 7, escaped text in quotes reads back as the text |
| `Json.ParsePrint` | src/json_utils.c:82-151 | every printable value in compact form parses back to itself |
| `PairResponse.ExtractJsonStringField` | src/transfer.c:109-141 | the text between the first match of the key and the next quote, cut to the destination, or an empty destination and failure |
| `PairResponse.ExtractJsonLongField` | src/transfer.c:143-160 | the number after the first match of the key, or failure |
| `PairResponse.FieldTextIff` | src/transfer.c:119-140 | on any text the reader finds exactly the value between the first match of the quoted key and the next quote |
| `PairResponse.PrintPairResponse` | src/server.c:225-243 | the reply's text |
| `PairResponse.NoMatchInQuoted` | src/transfer.c:119-120 | no match of a key starts inside a quoted escaped value, even one that contains the key or ends with part of it |
| `PairResponse.TokenRoundTrip` | src/transfer.c:359-362 | for every message, a token that needs no escaping is read back |
| `PairResponse.ExpiryRoundTrip` | src/transfer.c:364-371 | for every message and token, every 64-bit expiry is read back |
| `PairResponse.StrToLongRoundTrip` | src/transfer.c:158 | strtol reads every printed 64-bit number back, whatever follows its digits |
| `PairResponse.MessageRoundTripIff` | src/transfer.c:373-377 | the message is read back if and only if it needs no escaping; otherwise what is read is its escaped form up to the first quote |
| `PairResponse.PairedMessageIsRead` | src/server.c:636 | the program's own message is read back |
| `PairResponse.ReadPairReply` | src/transfer.c:359-371 | the client requires the token and takes a missing expiry as 0 |
| `PairResponse.DeliverReply` | src/transfer.c:359-371 | printing and reading back delivers token and expiry into the caller's buffers |
| `JsonLists.RenderPeerIsPrint` | src/peer_registry.c:201-209 | the pieces printed for a peer are the compact form of its object |
| `JsonLists.RenderJobIsPrint` | src/transfer_queue.c:160-178 | the same for a job |
| `ListEndpoints.AppendPeer` | src/peer_registry.c:201-209 | the buffer gains one peer's text |
| `ListEndpoints.RenderPeers` | src/peer_registry.c:189-222 | the peers in order, separated by commas |
| `ListEndpoints.PeerRegistrySnapshotJson` | src/peer_registry.c:175-226 | the same for the registry as it stands |
| `ListEndpoints.AppendJobJson` | src/transfer_queue.c:160-178 | the buffer gains one job's text |
| `ListEndpoints.CommaRule` | src/transfer_queue.c:376-378 | the last byte written is an open bracket exactly while no job has been printed, whatever the jobs say |
| `ListEndpoints.RenderJobs` | src/transfer_queue.c:370-382 | the jobs in use in slot order, separated by commas |
| `ListEndpoints.TransferStatusListJson` | src/transfer_queue.c:357-388 | the same for the table as it stands |
| `ListEndpoints.TransferStatusGet` | src/transfer_queue.c:324-355 | the text of the job asked for, or nothing for an unknown id |
| `ListReading.PeerListInvertible` | src/peer_registry.c:175-226 | for every registry, parsing the rendered list gives exactly the peers, in order |
| `ListReading.JobListInvertible` | src/transfer_queue.c:357-388 | for every table, parsing the rendered list gives exactly the jobs in use, in order |
| `ListReading.JobListShowsSlots` | src/transfer_queue.c:370-382 | read by a client, the list has one record for each slot in use, in slot order, with every field of the slot |
| `ListReading.StatusReplyInvertible` | src/transfer_queue.c:338-344 | parsing a status answer gives back the job |
| `FormFields.CopyFormValue` | src/server.c:59-73 | the buffer after one chunk, byte for byte |
| `FormFields.AssembledFieldHoldsValue` | src/server.c:415-429 | however a value is cut into chunks and whatever the field held, it ends up holding the value's first `size - 1` bytes, terminated |
| `FormFields.ChunkingIsInvisible` | src/server.c:415-429 | two ways of cutting one value leave the same field |
| `FormFields.Form.constructor` | src/server.c:477 | every field starts empty, in a buffer of its own |
| `FormFields.Form.CopyField` | src/server.c:415-429 | a chunk changes exactly the field its key names, and none if it names none |
| `FormFields.KeysNameFields` | src/server.c:415-429 | a chunk finds the field whose key it carries and no other |
| `FormFields.LastValueStays` | src/server.c:415-429 | over the parts of a form, a key that repeats leaves in its field only its last value, whatever other parts come around it |
| `PeerRegistry.Registry.constructor` | src/peer_registry.c:23-37 | the registry starts empty |
| `PeerRegistry.Registry.AddOrUpdatePeer` | src/peer_registry.c:47-83 | a known endpoint is refreshed in place, a new one appended unpaired, and a full table refuses |
| `PeerRegistry.Registry.MarkPeerInactive` | src/peer_registry.c:85-106 | every peer of that name and no other becomes inactive; success if there was one |
| `PeerRegistry.Registry.SetPeerPaired` | src/peer_registry.c:108-129 | the endpoint's flag is set, or the call fails |
| `PeerRegistry.Registry.FindByEndpoint` | src/peer_registry.c:131-155 | the only peer at the endpoint, or that there is none |
| `PeerRegistry.ApplyKeeps` | src/peer_registry.c:47-129 | every operation keeps endpoints unique, places fixed and the table within its 50 entries |
| `PeerRegistry.PairingOnlySetExplicitly` | src/peer_registry.c:108-129 | only a set-paired for the endpoint changes its pairing flag |
| `PeerRegistry.RegistryHistory` | src/peer_registry.c:47-129 | over any history the table holds the first 50 endpoints discovered, in order; an entry's name and time are those of its last discovery, it is active if and only if that name was not marked inactive since, and its flag is the last one set |
| `PeerRegistry.SucceedsIff` | src/peer_registry.c:47-129 | over any history, when each operation reports success |

## Left out

Assumed of what surrounds the model:

- Time: each critical section reads the clock once, and the clock does not go back in lock order. The
  rate limiter reads it just before taking the lock (src/auth.c:393); its bound needs those readings
  to be in lock order. All callers of one limiter use one window length (60 seconds in the program).
- Randomness: tokens, job ids and staging names are fresh. Codes and tokens are arguments, `None` when
  the generator fails; a token's shape (64 hexadecimal digits) is that of src/crypto.c.
- Memory: allocation succeeds and `size_t` does not overflow. Strings copied by snprintf into the
  fixed fields of tables and jobs are taken to fit; the cuts of form fields, file names and the two
  readers are modelled.
- Files: the directories are maps from path to content and time; unlink removes what is there. What
  buffered writes leave in a file between fwrite and a failed fflush is not modelled. That a download
  never replaces another is not claimed: names meet exactly as `DownloadNamesMeetIff` says.
- Calls: required arguments are not NULL, the modules have been initialized, and mutexes do
  not fail.

Not modelled:

- libmicrohttpd, libcurl, Avahi, OpenSSL and the QR code, `src/ui.c`, `src/discovery.c`, `src/crypto.c`
  and the bootstrap in `src/main.c`: their outcomes are arguments or events. A form callback that the
  post-processor makes while it is destroyed is not an event here.
- Response wording and the JSON printers other than the pairing reply, the lists and the status answer.
- Address parsing: whether `inet_pton` accepts the target is an argument of `ValidateTargetPeer`. In
  `Requests` and `Staging` the check's outcome is one refusal status.
- Lost or overlapping pairing exchanges, changing addresses, and clocks that differ: agreement is
  stated for delivered exchanges, one at a time, between two nodes at stable addresses with one clock.
- Fractions and exponents in the reference JSON grammar: the program prints neither. A lone surrogate
  escape, which stands for no character, is refused.
- Form fields shorter than two bytes: the program's have 16 or more.
- Structs in arrays are records that a method replaces as a whole; the loops of the limiter's scan and
  of the token table's upsert and the locked half of the enqueue are methods of their own, and the list renderers read the table once at
  the start, since both hold the lock throughout.
- `peer_registry_copy_snapshot` and the getters of single values: they copy what they are asked for.

Stated weaker, or for part of the inputs, on purpose:

- PairResponse.TokenRoundTrip: holds for tokens that need no escaping, because the reader does not undo
  escapes; the program's tokens are hexadecimal.
- ListReading.PeerListInvertible: names and addresses hold no NUL character, as C strings.
- ListReading.JobListInvertible: ids, addresses and error messages hold no NUL character, as C strings.
- StagingGuarantees.SealedFileIsTheBody: says nothing of a file that a sweep removed while the body was
  arriving; src/storage.c:281-283 can remove one that has not been written for 86400 seconds.
- QueueLifetimes.AcceptedIdIsAnswerable: names the moment from which the id may be gone, when its job has
  been finished for 3600 seconds; it does not say when an enqueue will come to prune it.
- RateLimiterRuns.SlidingWindowBound: the key's callers use one limit, as they do in src/server.c.
- PeerTokenRuns.StoreSucceeds: one direction only, since which expired entries still hold a slot depends
  on how far earlier scans got; the exact condition on the table is in `PeerAuth.Upsert`.
