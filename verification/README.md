# Vault P2P: transfer, chunking, queue and relay

A Dafny model of the Go backend of Vault P2P, with proofs of what its four core components promise together: a file
cut into content-defined chunks, sent by parallel workers over connections that break, resumed any number of times,
or left on a relay in pieces, arrives byte for byte; operations queued for an offline peer are neither lost nor
repeated without bound; chunks stored by concurrent writers are what their names say.

`dafny verify dfyconfig.toml` checks the whole project.

| files | component |
|---|---|
| Hasher, Chunker | the rolling hash and the incremental chunker of cdc.go, refining a pure cut of the content |
| Wire | packets and chunk protection |
| Sender, SenderControl, SenderData | the sending goroutines as an interleaving transition system: control, then data |
| Receiver, Resume, Handshake, EndToEnd | the receiver over files and sidecars, sessions with faults, the opening of a session, and sender and receiver together |
| Decimal, Bolt, Wal | numerals and keys, an ordered bucket, the write-ahead log |
| Coordinator, QueueRuns, AttemptBound, AttemptCap, CrashRecovery | one coordinator goroutine, then concurrent runs with store failures and crashes |
| RelayInbox, RelayTransfer, RelayReassembly, RelayEndToEnd | the relay's inboxes, file transfer over them, and both together |
| ChunkStore | the content-addressed store under concurrent writers |

Code that updates state is a class whose methods are proved against functions on values (`Next` against `CutLen`,
`ProcessPacket` against `Process`, `ReceiveFile` against `Outcome`); goroutines are transition systems with one label
for each atomic action. Calls into the outside (reads, disk, store transactions, encryption, the network, clocks,
random ids) are parameters that may fail at every point. Of the cipher and the JSON codec only that they invert is
used, of the hash nothing but, where stated, that the data at hand does not collide.

## Where the code and its comments differ

The model follows the code; each point is a lemma.

- The hash window is documented as 64 bytes. A byte leaving the window is XORed in a second time rather than
  cancelled, so the hash depends on the last 117 bytes (`WindowedIff`, `ReachIsTight`).
- A chunk is written before its sidecar, and resuming appends. A failure in between does harm: the next session that
  processes `end` leaves a file that is longer by exactly what was left behind (`FaultMakesSlack`,
  `HarmDoublesData`). Over any number of sessions the completed file is the content if and only if no session did harm
  since the record was last missing (`ResumedTransferIsExact`); which faults can do harm is `HarmNeedsAChunk`.
- A receive with Resume off, or of another version of the file, truncates the output. With Resume off, or when it
  stores nothing, the old sidecar stays, and the next resumed session trusts it (`StaleSidecarLosesData` with the exact
  condition; `CompletesIffKeptPartIsRight` for any directory).
- The receive loop returns nil on a clean end of stream without `end`, also when chunks are missing
  (`NilWithoutEnd`, `ReceiveSession.Run`).
- When the sender resumes and the receiver does not, each waits for the other and neither has an enabled step
  (`HandshakeStalls`); only something outside, such as an idle timeout of the QUIC library, ends that.
- An entry past the retry cap is logged as given up and becomes pending again (`NeverTerminallyFailed`,
  `GiveUpMeansPending`).
- A failure that is not recorded leaves the retries as they were, so that an entry can be attempted `MaxRetries` times
  by each drain (`CapIsReached`), but never more often (`AttemptsAreCapped`).
- Entries that were in flight at a crash are never attempted again (`CrashStrandsInFlight`; `ACrashStrands` reaches
  one).
- Without a session key the receiver opens pieces with a space key that the sender never used (`SpaceKeyIsAnother`
  with the exact condition, `UnknownSpaceLosesFile`).
- Keys of ten digits keep the order of sequence numbers only below 10^10 (`KeyOrderIsFifo`, `OrderBreaks`).

## Model

| member | source | states |
|---|---|---|
| `Hasher.TableFits` | apps/backend/internal/chunk/cdc.go:38-47 | every table entry is below 2^54 and the entry of byte 0 is 0 |
| `Hasher.TableIsLinear` | apps/backend/internal/chunk/cdc.go:38-47 | the entry of a XOR of bytes is the XOR of their entries |
| `Hasher.TableIsInjective` | apps/backend/internal/chunk/cdc.go:38-47 | different bytes have different entries |
| `Hasher.TableHalves` | apps/backend/internal/chunk/cdc.go:41-45 | the entry of b < 128 is that of 2b shifted right once and reduced by the polynomial 0x3DA3358B4DC173 if that was odd |
| `Hasher.ClosedForm` | apps/backend/internal/chunk/cdc.go:51-58 | after any number of slides the hash is the XOR of T(b) >> k for ages k = 0..53 and of T(b) >> (k - 63) for ages 64..116, over the zero-padded history |
| `Hasher.SlideIs` | apps/backend/internal/chunk/cdc.go:51-58 | one slide XORs in the entry of the byte that leaves the 64-byte window, halves, and XORs in the entry of the new byte |
| `Hasher.Locality` | apps/backend/internal/chunk/cdc.go:51-58 | histories that agree on ages 0..53 and 64..116 have the same hash |
| `Hasher.StartForgotten` | apps/backend/internal/chunk/cdc.go:51-58 | behind at least 117 bytes the hash does not depend on where hashing began |
| `Hasher.WindowedIff` | apps/backend/internal/chunk/cdc.go:11 | two histories equal on the documented 64-byte window hash alike if and only if the second copies of the bytes that left the window coincide |
| `Hasher.ReachIsTight` | apps/backend/internal/chunk/cdc.go:51-58 | concrete histories that agree on the last 116 bytes, so on the whole window, and hash differently |
| `Hasher.RabinHasher.constructor` | apps/backend/internal/chunk/cdc.go:31-49 | the table loop yields the table of the closed form, and the hasher starts with an empty history |
| `Hasher.RabinHasher.Slide` | apps/backend/internal/chunk/cdc.go:51-58 | ring buffer, position and hash stay in step with the history, which grows by the byte; the result is its fingerprint |
| `Hasher.RabinHasher.Reset` | apps/backend/internal/chunk/cdc.go:60-66 | the history is empty again |
| `Chunker.CutLenIsFirst` | apps/backend/internal/chunk/cdc.go:116-132 | a chunk ends at the first prefix that is a boundary, or with the data |
| `Chunker.BoundaryIff` | apps/backend/internal/chunk/cdc.go:121 | a chunk may end at 8388608 bytes, or from 524288 bytes on where the fingerprint is a multiple of 2^21, and nowhere else |
| `Chunker.SplitIff` | apps/backend/internal/chunk/cdc.go:100-166 | of all ways to cut a file the chunking is the one whose pieces are not empty, at most 8 MiB, end at the first place from 512 KiB on with a fingerprint that is a multiple of 2^21, and but for the last one end only there or at 8 MiB |
| `Chunker.ZerosAreCutAtMin` | apps/backend/internal/chunk/cdc.go:116-132 | a file of zero bytes is cut every 524288 bytes |
| `Chunker.Partition` | apps/backend/internal/chunk/cdc.go:102-166 | the chunks put together are the file |
| `Chunker.PieceSizes` | apps/backend/internal/chunk/cdc.go:121 | non-final chunks have sizes in [Min, Max], the last one in (0, Max] |
| `Chunker.PieceCount` | apps/backend/internal/chunk/cdc.go:121 | m chunks of n > 0 bytes satisfy (m - 1) * Min < n <= m * Max |
| `Chunker.LabelsAreContiguous` | apps/backend/internal/chunk/cdc.go:126-131 | chunk i starts where the ones before it end, with its own size and hash |
| `Chunker.PrefixStability` | apps/backend/internal/chunk/cdc.go:116-151 | appending data keeps every chunk but possibly the last, and that one too if and only if it ended at a boundary; then the new data is cut on its own |
| `Chunker.SplitAtCutPoint` | apps/backend/internal/chunk/cdc.go:107 | at a cut point the chunking forgets everything before it |
| `Chunker.LocalCut` | apps/backend/internal/chunk/cdc.go:116-132 | an open chunk of admissible size closes wherever the last 117 bytes match the mask |
| `Chunker.Resynchronise` | apps/backend/internal/chunk/cdc.go:107-132 | two files with a common suffix have the same chunks from any place at least 117 bytes into it that matches the mask while both open chunks have an admissible size; only offsets differ, by a constant |
| `Chunker.BufferedChunker.Scan` | apps/backend/internal/chunk/cdc.go:116-135 | the scan stops behind the first boundary, having slid each byte once |
| `Chunker.BufferedChunker.Fill` | apps/backend/internal/chunk/cdc.go:156-164 | a read never loses or reorders bytes, also when data comes with end of file or with an error |
| `Chunker.BufferedChunker.Next` | apps/backend/internal/chunk/cdc.go:102-166 | one call emits exactly the first cut of the bytes still to come, whatever the reads; after a failed read nothing is lost; every byte of the chunk was slid exactly once |
| `Chunker.CollectChunks` | apps/backend/internal/chunk/cdc.go:100-166 | repeated Next, retried after errors, yields the chunks of the content however it is split into reads |
| `Wire.ProtectRoundTrip` | apps/backend/internal/network/session.go:36-50 | what was protected under a key is read back under it; a key that is neither empty nor 32 bytes long, or a message that does not open, is an error |
| `SenderControl.StepKeepsInv` | apps/backend/internal/network/transport.go:225-371 | the control invariant (channel bounds, who closes what, when the stop signal is given) is kept by every step of every goroutine |
| `SenderControl.NoPanic` | apps/backend/internal/network/transport.go:225-357 | in no run is a closed channel sent to or closed again |
| `SenderControl.NoEarlySuccess` | apps/backend/internal/network/transport.go:339-349 | a delivery result received while chunks are still being fed is never nil, for every requested parallelism |
| `SenderControl.Progress` | apps/backend/internal/network/transport.go:225-357 | every reachable state has an enabled step of some goroutine or all goroutines have returned |
| `SenderControl.StepDecreases` | apps/backend/internal/network/transport.go:225-371 | every step, also a cancellation, uses up some of the work left |
| `SenderControl.AllRunsEnd` | apps/backend/internal/network/transport.go:225-371 | every run has at most 10 N + P + 18 steps and ends with all goroutines returned, whatever fails or is cancelled |
| `SenderData.StepKeepsData` | apps/backend/internal/network/transport.go:229-371 | chunks on their way carry the right data and each is in one place only |
| `SenderData.StreamAlways` | apps/backend/internal/network/transport.go:291-321 | at every moment of every interleaving the stream is start, then chunks from the resume index on, each once and in order; end comes only after all of them |
| `SenderData.NilMeansComplete` | apps/backend/internal/network/transport.go:354-371 | a nil return means start, every chunk from the resume index on, and end are on the stream and the reorder map is empty |
| `SenderData.NilMeansNoFailure` | apps/backend/internal/network/transport.go:225-371 | a nil return rules out a failed read, store, encryption, write or close in any goroutine and a cancellation that was given way to |
| `SenderData.NilIffNothingFailed` | apps/backend/internal/network/transport.go:225-371 | a run that no goroutine can continue has returned nil, with the complete stream written, if and only if nothing failed and no cancellation was given way to |
| `SenderData.SmoothRunsSucceed` | apps/backend/internal/network/transport.go:151-372 | when no call fails and nothing is cancelled, every maximal run returns nil with the complete stream |
| `Receiver.BaseIdempotent` | apps/backend/internal/network/transport.go:460 | reducing an already reduced file name changes nothing |
| `Receiver.BaseIsLastElement` | apps/backend/internal/network/transport.go:460 | the base of a path with anything but slashes in it is not empty, has no slash, and is what stands between the last separator and trailing slashes |
| `Receiver.StartOpens` | apps/backend/internal/network/transport.go:459-490 | start keeps the file if the receiver resumes and the sidecar is readable, about the same name, size and time, and counts chunks, and empties it otherwise; the session goes on, and the reply asks, from the chunk counted |
| `Receiver.ChunkRejected` | apps/backend/internal/network/transport.go:493-512 | a chunk before start, out of order, that does not open or has another hash than announced is an error and changes nothing |
| `Receiver.RejectionAborts` | apps/backend/internal/network/transport.go:493-512 | a session that comes to such a chunk is aborted in the state it had before |
| `Receiver.ChunkTaken` | apps/backend/internal/network/transport.go:513-531 | an intact chunk that is expected is taken if and only if no write, store or record fails, and then the sidecar counts it |
| `Receiver.SessionWrites` | apps/backend/internal/network/transport.go:492-531 | whatever arrives and fails, a session appends to its file only data of intact packets, in order, one for each index from the expected one on, of which only the last may be cut short |
| `Receiver.EndCloses` | apps/backend/internal/network/transport.go:533-543 | end changes no file and removes the sidecar of a receiver that resumes, unless the file cannot be closed |
| `Receiver.OtherPacketsAbort` | apps/backend/internal/network/transport.go:545-546 | any other packet is an error and changes nothing |
| `Receiver.NilIff` | apps/backend/internal/network/transport.go:551-585 | a session returns nil if and only if it processed end, or it processed all packets, the stream ended cleanly and the open file could be closed; an aborted session or a broken stream never does |
| `Receiver.ReceiveSession.HandleStart` | apps/backend/internal/network/transport.go:459-490 | the session object does at start what OnStart says, of which StartOpens tells the effect |
| `Receiver.ReceiveSession.HandleChunk` | apps/backend/internal/network/transport.go:492-531 | the session object does at a chunk what OnChunk says, also when a step fails half way; ChunkRejected, ChunkTaken and SessionWrites tell the effect |
| `Receiver.ReceiveSession.HandleEnd` | apps/backend/internal/network/transport.go:533-543 | the session object does at end what OnEnd says, of which EndCloses tells the effect |
| `Receiver.ReceiveSession.ProcessPacket` | apps/backend/internal/network/transport.go:456-549 | one packet does exactly what Process says |
| `Receiver.ReceiveSession.Run` | apps/backend/internal/network/transport.go:551-585 | the loop processes packets until one ends or aborts it, and returns nil if and only if end was processed, or all packets were, the stream ended cleanly and the open file could be closed |
| `Resume.AllChunksAreTheFile` | apps/backend/internal/network/transport.go:210-212 | chunk data in index order is the file |
| `Resume.SessionLeavesBehind` | apps/backend/internal/network/transport.go:456-549 | any session leaves chunks up to some n written and recorded, then at most a part of one more chunk; it leaves such a part behind a readable record that does not count it if and only if it does harm |
| `Resume.SessionKeepsAccurate` | apps/backend/internal/network/transport.go:466-531 | an accurate directory stays accurate over any session; after end the file is the content if and only if there was no slack before, and otherwise longer by just that slack; the slack grows if and only if the session does harm, and shrinks only when no record is left |
| `Resume.HarmNeedsAChunk` | apps/backend/internal/network/transport.go:508-531 | a session does no harm when every arrived chunk packet but the first meets only harmless faults, or the receiver does not resume; no other packet, no fault at start or end and no cut can do harm |
| `Resume.CompletesIffKeptPartIsRight` | apps/backend/internal/network/transport.go:466-479 | on any directory, a session that processes end yields the content if and only if the kept part of the file is the chunks not asked for |
| `Resume.SidecarTellsPrefix` | apps/backend/internal/network/transport.go:511-531 | after one session on a directory without slack, whatever fails in it, a sidecar that says k > 0 means that the file is the first k chunks followed by a prefix of chunk k |
| `Resume.DamageIsRejected` | apps/backend/internal/network/transport.go:492-531 | whatever packets carry, in whatever order and however often they come, and whatever fails: if they announce the right hashes, and these have no second preimage, the file is only ever extended by the true content |
| `Resume.FaultMakesSlack` | apps/backend/internal/network/transport.go:508-531 | a fault while chunk n > 0 is processed adds to the slack exactly the bytes of the chunk it leaves behind a readable record; a record that becomes unreadable clears the slack |
| `Resume.HarmDoublesData` | apps/backend/internal/network/transport.go:508-531 | after such a fault the next session that processes end leaves a file longer than the content by exactly that slack; it is the content if and only if the record became unreadable, or there was no slack and the fault was harmless |
| `Resume.OthersKeepOut` | apps/backend/internal/network/transport.go:459-543 | a session for other files leaves this file and its sidecar alone, whatever arrives and fails |
| `Resume.NilWithoutEnd` | apps/backend/internal/network/transport.go:551-585 | a session that gets its chunks up to n and then a clean end of stream returns nil; the file is the first n chunks, so the content if and only if they are all |
| `Resume.PlainSessionKeepsSidecars` | apps/backend/internal/network/transport.go:467-473 | a session with Resume off never touches a sidecar, whatever arrives and fails |
| `Resume.StaleSidecarLosesData` | apps/backend/internal/network/transport.go:466-479 | after a session of the same name with Resume off, or with another size or time, that delivers j chunks, the next completed resumed session of the first transfer is right if and only if it had recorded nothing, or its record was replaced, or those j chunks are exactly the recorded k ones; for the same file with Resume off that means j = k |
| `Handshake.HandshakeStalls` | apps/backend/internal/network/transport.go:184-208 | a run of the handshake can only come to a stand with neither party having an enabled step when the sender resumes and waits and the receiver does not resume and waits too, and without faults it then always does; whenever the sender goes on, it is from the recorded chunk |
| `EndToEnd.OneSession` | apps/backend/internal/network/transport.go:144-586 | one session of parallel sender, cut stream and faulty receiver, under a key of its own, keeps the directory accurate; the slack grows if and only if the session does harm |
| `EndToEnd.EventualContent` | apps/backend/internal/network/transport.go:144-586 | after any number of sessions, interleaved, cut and failing anywhere, and of sessions for other files in between, the one that processes end leaves exactly the content if and only if the directory had no slack, and otherwise a file longer by the slack |
| `EndToEnd.ResumedTransferIsExact` | apps/backend/internal/network/transport.go:144-586 | in any such history that starts without a record, the session that processes end leaves the content byte for byte if and only if no session did harm since the record was last missing |
| `EndToEnd.SidecarAlwaysTellsPrefix` | apps/backend/internal/network/transport.go:144-586 | if no session did harm since the record was last missing, then after one more session failing in any way a sidecar that says k > 0 means that the file is the first k chunks followed by a prefix of chunk k |
| `EndToEnd.CompleteSessionEnds` | apps/backend/internal/network/transport.go:354-371 | a session whose sender returned nil and whose packets all arrived without a fault at the receiver ends with end processed |
| `EndToEnd.UndisturbedSessionDelivers` | apps/backend/internal/network/transport.go:144-586 | one undisturbed session, in any interleaving, leaves the content if and only if no session did harm since the record was last missing |
| `EndToEnd.HandshakeGivesIndex` | apps/backend/internal/network/transport.go:198-208 | the resume index the sender of a session works with is the one every handshake that goes on gives it |
| `Decimal.AtoiOfItoa` | apps/backend/internal/network/relay_transfer.go:236 | an index is read back over the whole range of an int |
| `Decimal.AtoiReads` | apps/backend/internal/network/relay_transfer.go:246 | what is read as a number is its numeral behind an optional sign and zeros, and fits into 64 bits |
| `Decimal.NoLeadingZero` | apps/backend/internal/network/relay_transfer.go:236 | numerals have no leading zero |
| `Decimal.KeyInjective` | apps/backend/internal/store/wal.go:65 | different sequence numbers have different keys |
| `Decimal.KeyOrderIsFifo` | apps/backend/internal/store/wal.go:60-65 | byte order of %010d keys is sequence order if and only if the numbers stay below 10^10 |
| `Decimal.LessIff` | apps/backend/internal/store/wal.go:60-65 | in the byte order of keys the first difference decides and a prefix comes first |
| `Bolt.PutSpec` | apps/backend/internal/store/wal.go:83 | Put changes one key of the ordered bucket and nothing else |
| `Bolt.DeleteSpec` | apps/backend/internal/store/wal.go:194 | Delete removes one key of the ordered bucket and nothing else |
| `Wal.SelectSpec` | apps/backend/internal/store/wal.go:104-113 | a listing holds exactly the stored entries that qualify, in key order |
| `Wal.PendingForIff` | apps/backend/internal/store/wal.go:93-116 | the listing for a peer holds exactly the stored entries of that peer that are pending, in key order |
| `Wal.AllPendingIff` | apps/backend/internal/store/wal.go:119-142 | the listing for all peers holds exactly the stored entries that are pending, in key order |
| `Wal.SetStatusSpec` | apps/backend/internal/store/wal.go:199-224 | a status change touches status and time of one stored entry only |
| `Wal.RetrySpec` | apps/backend/internal/store/wal.go:156-182 | a recorded failure makes the entry pending, counts once and touches no other |
| `Wal.BoltStore.EnqueueEntry` | apps/backend/internal/store/wal.go:48-89 | a new pending entry under the next key |
| `Wal.BoltStore.GetPendingEntries` | apps/backend/internal/store/wal.go:93-116 | exactly the stored entries of the peer that are pending |
| `Wal.BoltStore.GetAllPendingEntries` | apps/backend/internal/store/wal.go:119-142 | exactly the stored entries that are pending |
| `Wal.BoltStore.UpdateStatus` | apps/backend/internal/store/wal.go:199-224 | the transaction, or an error when there is no such entry |
| `Wal.BoltStore.MarkFailed` | apps/backend/internal/store/wal.go:156-182 | the retry transaction, or an error when there is no such entry |
| `Wal.BoltStore.DeleteEntry` | apps/backend/internal/store/wal.go:185-196 | the deletion |
| `Coordinator.DeliverOneSpec` | apps/backend/internal/sync/coordinator.go:166-197 | after one deliver the entry is gone if it was attempted and succeeded, and otherwise pending with one more retry; others are untouched |
| `Coordinator.DrainDelivers` | apps/backend/internal/sync/coordinator.go:126-139 | after a drain each entry of its snapshot is gone or pending with one more retry |
| `Coordinator.DrainKeepsOthers` | apps/backend/internal/sync/coordinator.go:126-139 | a drain leaves every entry outside its snapshot as it was |
| `Coordinator.DrainAttempts` | apps/backend/internal/sync/coordinator.go:126-139 | a drain on a fresh snapshot hands over exactly the entries with retries left, in order |
| `Coordinator.DrainTakesAll` | apps/backend/internal/sync/coordinator.go:126-139 | a drain in which every delivery succeeds hands over all pending entries of the peer, removes them and leaves all others as they were |
| `Coordinator.DrainStaysWithPeer` | apps/backend/internal/sync/coordinator.go:126-139 | a drain for a peer, cancelled or not, hands over pending entries of that peer only and leaves every entry of another peer as it was |
| `Coordinator.PollStaysOnline` | apps/backend/internal/sync/coordinator.go:143-163 | a poll hands over pending entries of online peers only and leaves every entry of another peer as it was |
| `Coordinator.DrainIsFifo` | apps/backend/internal/sync/coordinator.go:126-139 | below 10^10 a drain hands over a peer's entries in enqueue order, whichever deliveries succeed |
| `Coordinator.Coordinator.Deliver` | apps/backend/internal/sync/coordinator.go:166-197 | updates the store and calls the delivery function exactly as DeliverOne and Attempted say |
| `Coordinator.Coordinator.DrainPeer` | apps/backend/internal/sync/coordinator.go:126-139 | delivers the snapshot in order until cancelled |
| `Coordinator.Coordinator.PollAndDeliver` | apps/backend/internal/sync/coordinator.go:143-163 | delivers the pending entries of online peers in order |
| `QueueRuns.DeliverIsARun` | apps/backend/internal/sync/coordinator.go:166-197 | an undisturbed delivery in the concurrent model has the effect of one deliver |
| `QueueRuns.StepKeepsInv` | apps/backend/internal/sync/coordinator.go:126-197 | keys, ids and snapshots stay consistent under every step of every drain, store failure and crash |
| `QueueRuns.NoLoss` | apps/backend/internal/store/wal.go:46-89 | in every run an enqueued entry is still stored or its delivery returned nil, and no id is given out twice |
| `QueueRuns.NeverTerminallyFailed` | apps/backend/internal/sync/coordinator.go:167-172 | no stored entry is ever failed for good |
| `QueueRuns.GiveUpMeansPending` | apps/backend/internal/sync/coordinator.go:167-172 | after giving up the entry is pending again and in the next snapshot of its peer |
| `QueueRuns.NoResurrection` | apps/backend/internal/sync/coordinator.go:174-196 | a deleted entry is never put back or attempted again by a stale thread |
| `QueueRuns.DrainNeverLeavesPeer` | apps/backend/internal/sync/coordinator.go:126-139 | in every run a thread that started a drain for a peer holds entries of that peer only, and the entry it attempts is stored for that peer |
| `QueueRuns.PollNeverLeavesOnline` | apps/backend/internal/sync/coordinator.go:150-161 | in every run a thread that works on a poll attempts entries of peers only while they are online |
| `CrashRecovery.StrandedForever` | apps/backend/internal/sync/coordinator.go:174-188 | an entry that is not pending and in no snapshot stays stored and is never attempted again |
| `CrashRecovery.CrashStrandsInFlight` | apps/backend/internal/sync/coordinator.go:174-188 | after a crash a stored entry is in the next drain of its peer if and only if it was pending; otherwise no later run attempts it |
| `CrashRecovery.ACrashStrands` | apps/backend/internal/sync/coordinator.go:174-188 | a run that reaches such a crash: the first entry is enqueued, drained and in flight, and stranded by the crash |
| `AttemptBound.AttemptsAreBounded` | apps/backend/internal/sync/coordinator.go:126-197 | with D drains, and as long as failures and removals are recorded and the process does not crash, one entry gets at most MaxRetries + D - 1 attempts and at most D successes, and its stored retries are recorded failures plus give-ups |
| `AttemptCap.AttemptsAreCapped` | apps/backend/internal/sync/coordinator.go:126-197 | in every run of D drains, whatever store transactions fail and whenever the process crashes, one entry gets at most MaxRetries * D attempts and no more successes than attempts |
| `AttemptCap.CapIsReached` | apps/backend/internal/sync/coordinator.go:126-197 | for every D > 0 some run makes exactly MaxRetries * D attempts |
| `RelayInbox.DeleteExpired` | apps/backend/internal/relay/relay.go:331-346 | deleting the expired keys one by one leaves exactly the chunks that are not expired |
| `RelayInbox.Server.Push` | apps/backend/internal/relay/relay.go:137-164 | appends one chunk under the next key of the recipient, or refuses one of more than 8 MiB or without a recipient |
| `RelayInbox.Server.Pull` | apps/backend/internal/relay/relay.go:167-193 | returns what is buffered in key order and drops the inbox |
| `RelayInbox.Server.InboxSize` | apps/backend/internal/relay/relay.go:196-211 | the number of buffered chunks |
| `RelayInbox.Server.Evict` | apps/backend/internal/relay/relay.go:305-355 | drops expired chunks of all peers and then empty inboxes |
| `RelayInbox.EvictKeepsYoung` | apps/backend/internal/relay/relay.go:305-355 | an eviction leaves exactly the chunks that are not older than the maximum age |
| `RelayInbox.AcceptedIff` | apps/backend/internal/relay/relay.go:137-140 | what was accepted for a peer in a run is exactly what was pushed for it with at most 8 MiB |
| `RelayInbox.PullIsFifo` | apps/backend/internal/relay/relay.go:137-193 | after any run with a clock that does not go back in which this peer's sequence number stays below 10^10, a pull returns exactly the unexpired chunks pushed since the last pull, in push order, and these are a suffix |
| `RelayInbox.PastTheLimit` | apps/backend/internal/relay/relay.go:150-151 | in an inbox whose last chunk has sequence number 10^10 - 1 the next chunk is returned before it |
| `RelayInbox.OrderBreaks` | apps/backend/internal/relay/relay.go:137-193 | on a fresh relay, 10^10 - 1 equal pushes and one more of another chunk: the limit is reached by the last push only, and the pull is not first in, first out |
| `RelayInbox.NothingMoved` | apps/backend/internal/relay/relay.go:137-193 | over a whole run within that limit, what a peer's pulls returned followed by what is buffered is what was accepted for it with some left out and none moved; without evictions nothing is left out |
| `RelayInbox.NothingTwice` | apps/backend/internal/relay/relay.go:137-193 | over a run of any length, what a peer's pulls returned and what is buffered are, with multiplicity, among the chunks accepted for it; without evictions they are all of them |
| `RelayTransfer.KeyRoundTrip` | apps/backend/internal/network/relay_transfer.go:235-249 | a built piece key parses back, whatever the hash holds, if and only if the id has no colon |
| `RelayTransfer.ParsesIff` | apps/backend/internal/network/relay_transfer.go:239-249 | a key is read as that of a piece if and only if it is an id, a 64-bit number and a rest, with colons in between and none in id and number |
| `RelayTransfer.ChunkKeyInjective` | apps/backend/internal/network/relay_transfer.go:235-237 | piece keys are equal if and only if id, index and hash are |
| `RelayTransfer.PieceOrManifest` | apps/backend/internal/network/relay_transfer.go:135 | a piece key carries the manifest prefix if and only if the id is "manifest" |
| `RelayTransfer.HexIds` | apps/backend/internal/network/relay_transfer.go:251-253 | a hexadecimal id has no colon and is not "manifest" |
| `RelayTransfer.InsertSpec` | apps/backend/internal/network/relay_transfer.go:180-185 | inserting into an ascending list of ids keeps it ascending |
| `RelayTransfer.SortedIds` | apps/backend/internal/network/relay_transfer.go:180-185 | the keys of the manifest map, each once, in byte order |
| `RelayTransfer.FileRelay.PushChunks` | apps/backend/internal/network/relay_transfer.go:59-86 | pushes a prefix of the pieces, all of them unless something failed |
| `RelayTransfer.FileRelay.SendFile` | apps/backend/internal/network/relay_transfer.go:38-111 | pushes the pieces in order and then the manifest; an error leaves a prefix of these pushes; when no read fails and nothing is cancelled it succeeds if and only if the key is empty or of 32 bytes, there is a recipient and no sealed push exceeds 8 MiB |
| `RelayTransfer.FileRelay.SortOut` | apps/backend/internal/network/relay_transfer.go:131-160 | sorts a bag into manifests and pieces |
| `RelayTransfer.FileRelay.WriteOut` | apps/backend/internal/network/relay_transfer.go:187-230 | rebuilds one transfer into its file, or reports the first thing that is wrong |
| `RelayTransfer.FileRelay.ReceiveFile` | apps/backend/internal/network/relay_transfer.go:115-233 | empties the inbox, writes the complete transfer with the least id and touches no other file |
| `RelayReassembly.SentIsHonest` | apps/backend/internal/network/relay_transfer.go:59-110 | everything SendFile pushes is honest, and all of it together is a delivered transfer |
| `RelayReassembly.AddAllMirrors` | apps/backend/internal/network/relay_transfer.go:134-160 | whatever the order, loss and duplication, the maps hold exactly the manifests and pieces received |
| `RelayReassembly.EnoughIsAll` | apps/backend/internal/network/relay_transfer.go:190 | as many pieces as chunks with indices in range are all of them |
| `RelayReassembly.CompleteIffDelivered` | apps/backend/internal/network/relay_transfer.go:190-192 | a transfer counts as complete if and only if its manifest and every piece arrived; then no piece is missing |
| `RelayReassembly.Reassembly` | apps/backend/internal/network/relay_transfer.go:131-232 | for any bag of honest pushes: if some transfer arrived whole, the original file of the one with the least id is written if and only if the receiver has the session key, looks up no space key, or finds one under which the plain pieces open to the content, and otherwise what they open to or an error; if none did, nothing is written; no piece is found missing |
| `RelayReassembly.WhatIsWritten` | apps/backend/internal/network/relay_transfer.go:162-230 | whatever bag was pulled, a written file has the name of a manifest in it, and its bytes are what pushes with the keys of pieces 0 to the count open to, in order, under the key for that manifest |
| `RelayReassembly.UnreadableKeyIsSkipped` | apps/backend/internal/network/relay_transfer.go:149-155 | a push whose key is neither that of a manifest nor readable as that of a piece changes nothing in the outcome |
| `RelayReassembly.BadManifestIff` | apps/backend/internal/network/relay_transfer.go:135-147 | the bag is given up for a bad manifest if and only if some push with the key of a manifest does not decrypt and decode |
| `RelayReassembly.IncompleteIff` | apps/backend/internal/network/relay_transfer.go:185-232 | a bag is found incomplete if and only if it has a manifest, all manifests can be read, and every transfer has fewer different piece indices than its last manifest counts chunks |
| `RelayReassembly.ErrorsAreTrue` | apps/backend/internal/network/relay_transfer.go:205-221 | a piece is reported missing only if the bag has none with its index but has all before it, and undecryptable only if it has one |
| `RelayReassembly.SpaceKeyIsAnother` | apps/backend/internal/network/relay_transfer.go:166-178 | without a session key, a receiver that looks up a space key writes the original file of the first delivered transfer if and only if that key exists and what the plain pieces open to under it is the content |
| `RelayReassembly.EmptyKeyOpens` | apps/backend/internal/network/relay_transfer.go:212-221 | with an empty space key the pieces open to the content |
| `RelayReassembly.UnknownSpaceLosesFile` | apps/backend/internal/network/relay_transfer.go:171-175 | a file sent whole without a session key to a space the receiver does not know is not written |
| `RelayEndToEnd.RelayedFileIsExact` | apps/backend/internal/network/relay_transfer.go:115-233 | the same for the bag in the inbox after any run, of any length, of pushes, pulls and evictions of the relay |
| `RelayEndToEnd.SendReceiveRoundTrip` | apps/backend/internal/network/relay_transfer.go:37-233 | all pushes of a file, in an empty inbox, are received byte for byte under its own name if and only if the receiver reads it right in that sense |
| `RelayEndToEnd.SendAndReceive` | apps/backend/internal/network/relay_transfer.go:37-233 | when SendFile to an empty inbox succeeds, so that the relay took every push, an undisturbed ReceiveFile writes the file byte for byte under its own name |
| `ChunkStore.StepKeepsInv` | apps/backend/internal/store/chunks.go:30-68 | final files, index and temporary files stay consistent under every step of every concurrent writer and every crash |
| `ChunkStore.StoreIsSound` | apps/backend/internal/store/chunks.go:30-68 | a file under a final name is never partial and hashes to its name; every indexed hash is readable and verifies |
| `ChunkStore.ReadReturnsWritten` | apps/backend/internal/store/chunks.go:71-87 | without a collision among the data written, what WriteChunk stored is read back in every later state |
| `ChunkStore.ReadableIffRecorded` | apps/backend/internal/store/chunks.go:71-95 | in every run a hash can be read and verifies if and only if data with this hash was stored without an error; reading or verifying any other hash is an error; without an index or a directory nothing is stored |
| `ChunkStore.NoTempIsLeft` | apps/backend/internal/store/chunks.go:42-61 | without a crash or a failing removal every temporary file is one some call works on |
| `ChunkStore.FilesAreDistinct` | apps/backend/internal/store/chunks.go:37-38 | two final names hold the same data if and only if they are the same name |
| `ChunkStore.TamperingIsDetected` | apps/backend/internal/store/chunks.go:89-95 | a stored file changed from outside verifies if and only if its hash is still that of the stored data; without a collision, if and only if the data is still the same |
| `ChunkStore.Store.WriteChunk` | apps/backend/internal/store/chunks.go:19-69 | with other writers at work in between and whatever fails, only steps of the transition system are taken; the call succeeds exactly when it records the chunk, which is then readable unless its hash collides; a file that is there already is not made again |
| `ChunkStore.Store.CreateFile` | apps/backend/internal/store/chunks.go:42-61 | the temporary file is filled, closed and renamed, or removed after a failure; a target put there by another writer is taken as it is |
| `ChunkStore.Store.ReadChunk` | apps/backend/internal/store/chunks.go:71-87 | the content of the file the index names |
| `ChunkStore.Store.VerifyChunk` | apps/backend/internal/store/chunks.go:89-95 | whether that content has the hash it is stored under |

## Left out

- QUIC, TLS, gob, HTTP, mDNS, hole punching and rendezvous: the stream is a reliable sequence of packets that may be
  cut anywhere.
- A source file whose content changes while its name, size and modification time stay the same, an output file whose
  name is that of another file's sidecar, and two receivers at work in one output directory.
- Capability tokens, invites, the authentication handshake and key derivation: the session key is a parameter.
- SendFileOverConn: it repeats the machine of SendFileWithOptions and is modelled once.
- Progress callbacks, logging, file modes and the making of output directories.
- The relay's JSON lines over TCP, whose scanner refuses long lines: the model is about Push, Pull and reassembly.
- bbolt and SQLite: buckets and the chunk index are maps with atomic transactions; the statistics bbolt keeps inside a
  transaction are taken as exact.
- Integer widths: chunk indices, sizes, offsets and retry counts are unbounded, except where text is parsed
  into a 64-bit int.
- RelayInbox.PullIsFifo: is about runs in which the sequence number of this peer's inbox stays below 10^10, because
  beyond that key order is not push order (OrderBreaks).
- RelayInbox.NothingMoved: the same; NothingTwice and what ReceiveFile writes need no such limit.
- Coordinator.DrainIsFifo: is about sequence numbers below 10^10, for the same reason.
- EndToEnd.EventualContent: the receiver resumes in all sessions of a history or in none; what a session with the other
  setting does in between is StaleSidecarLosesData.
- AttemptBound.AttemptsAreBounded: assumes that failures and removals are recorded and that there is no crash; the bound
  for all runs is AttemptCap.AttemptsAreCapped.
- Eventual delivery: entries in flight at a crash are never attempted again, so there is no such property.
- ChunkStore.StepKeepsInv: a crash is one of the process; nothing is synced to disk before the rename, so that after a
  power failure a file under a final name may be partial.
- ChunkStore.ReadReturnsWritten: assumes that the data written so far does not collide under the hash.
- ReceiveFile empties the whole inbox and writes one transfer; what happens to the others is that they are gone.
- Deliverer tiers, node wiring, command line, status API, spaces, peers and chunk locations, rendezvous registry, web
  application.
