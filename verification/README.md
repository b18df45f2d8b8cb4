# Verification of the acceptance harness

A Dafny 4.11 model of the parts of the acceptance harness that must not lose, repeat or
misattribute evidence, with proofs. `dafny verify dfyconfig.toml` checks everything.

**Failure-evidence ledger** (`Ledger`, `LedgerInvariant`, `LedgerRuns`, `LedgerTheorems`,
`LedgerGate`, `LedgerReceipts`, `LedgerMeaning`, `LedgerWitness`, `FailureGate`, `Collector`). The
native collector holds private artifacts under a byte and count budget, latches a failure, hands the
artifacts out in chunks against durable receipts and freezes behind a terminal barrier. `Ledger`
has one function per synchronous stretch of the collector, so a run is any interleaving of
starts, settlements, timeouts, aborts, holds, receipts, drains and barrier calls. `Collector` is
the mutable object; each method is proved to be the corresponding step.

**Framed handoff** (`Frames`, `Handoff`, `HandoffSafety`, `HandoffRuns`). The client and the
stream under it, composed with a host that may crash, take a write short, append without answering
and produce any bytes at any moment, garbage and half acknowledgements included.

**Both together** (`FailureSession`, `SessionSafety`, `SessionRuns`, `SessionWitness`). The drain
emits chunks as callbacks, their receipts come back to the ledger in any order, and the closing call
sends the committed snapshot. What the host has at the end is compared with what the snapshot says.

**Incremental parsers and PNG** (`NativeLines`, `JsonText`, `TraceMappings`, `PngFilter`,
`PngContainer`, `Doubles`, `PngCrop`). Results do not depend on how input was cut; the filters of
section 6 of RFC 2083 are inverted; the crop is the tightest box and decodes to that box.

**Index against in-memory derivation** (`Ordering`, `CapacityIndex`, `Statistics`,
`PublicGroups`, `Markers`, `Clock`, `ProgressMapping`). Streaming statistics, grouping and the
marker join agree with sorting plain lists; clock intervals are sound and as tight as whole
nanoseconds allow.

**Cleanup journal and projector pass** (`Cleanup`, `Kernel`). Safety over arbitrary failures and
any number of replays or passes.

## Where the code does not do what one might expect

- Source references are recorded in the order they arrive, not by offset. A snapshot passes its
  own wire gate only if they arrived front to back (`LedgerGate.GateIff`,
  `LedgerWitness.BackToFrontFails`); the capture loops do send them that way.
- The clock check `0 <= lower` refuses a consistent clock exactly when every lower bound is
  negative, which can happen at host time zero (`Clock.RejectedIff`,
  `Clock.NonNegativeTimeRejected`). Rounding outward also hides brackets that no clock fits: never
  two nanoseconds (`Clock.DriftBelowTwo`), but as much as 1.8 (`Clock.DriftHidden`); `Clock.DriftIff`
  says exactly when.
- A cleanup pass that skips an actor does not mark the actor's workspace as failed. If a resource
  the actor created names another workspace, the team is removed while the actor stays
  (`Cleanup.SafeIff`, `Cleanup.StrayUnsafe`).
- An entry whose journal file was moved before the directory flush failed is reported although it
  is no longer pending (`Cleanup.ErrorCount`, `Cleanup.FlushReported`).
- A stream that failed has a client that is merely busy until its await resumes; frames are kept
  out by that (`HandoffRuns.StreamFailureLatches`, `HandoffRuns.NoFrameAfterFailure`).
- Far edges of rectangles are rounded sums. When the largest one on an axis rounds down to a whole
  pixel, the margin behind it is three pixels instead of four (`PngCrop.MarginIff`,
  `PngCrop.MarginLost`); it is never less.
- A drain aborted while its emission is under way leaves the chunk unacknowledged, and another drain
  may send it again. The host log then holds it twice, although the ledger counts it once
  (`SessionRuns.Delivered`, `SessionWitness.OverlapRepeats`). Drains that wait for each other's
  emissions deliver every byte once (`SessionRuns.DeliveredOnce`).
- A receipt is looked up by the artifact it names, not by the chunk it was asked for. The session
  results therefore assume that the host answers a callback with the receipt of that callback.

## Assumptions

- Digests, checksums, JSON parsing and encoding and compression are arbitrary functions. The
  crop result alone assumes that inflating a deflated buffer returns it.
- Each synchronous stretch of the collector is atomic and reads the clock once. `release` runs in
  the stretch that saw no failure: its callers come straight from a send, which rejects once
  failure began. Callers keep no more bytes of an artifact than they observed, and acknowledge
  references of legal shape.
- The handoff host is trusted with one thing: it does not put an acknowledgement of an entry it has
  not appended where the stream would read it as one (`Handoff.Forged`).
- In a session the host's receipt echoes the callback it answers, an emission fails only before it
  started or through a client that has failed, and the host can read artifact and offset from a
  callback's metadata.
- Numbers are reals. The percentile fractions are the same real on both sides. A rectangle's far edge
  is the exact sum of position and size put through a rounding that is monotone and keeps whole
  numbers of up to 53 bits, which rounding to the nearest double does (`Doubles.NearestRounds`).

## Model

| member | source | states |
|---|---|---|
| `LedgerTheorems.EveryRunAgrees` | e2e/performance/native-collector.ts:542-632 | over every lawful run: observed bytes = discarded + released + acknowledged + held; `heldBytes`, `sourceRefCount`, `failureRetainedBytes`, `failureRetainedArtifacts` and the seen identities equal the sums and keys of the maps; 128 MiB, 128 artifacts, 4096 references, 128 operations and 128 late handles are never exceeded |
| `LedgerTheorems.StepKeeps` | e2e/performance/native-collector.ts:542-1021 | every event (hold, release, reference, start, settle in any order and however late, drain turn, handle transfer, barrier) keeps the whole invariant, including what each acknowledged prefix contains |
| `LedgerTheorems.RunKeeps` | e2e/performance/native-collector.ts:542-1021 | the invariant holds after every lawful sequence of events |
| `LedgerGate.GateIff` | e2e/performance/native-contract.ts:258-295 | a snapshot of a reachable failed state passes the wire gate if and only if no other owner still holds bytes and, of any two references inside an acknowledged prefix, the one recorded first ends at or before the start of the other; every sum, total and budget check passes always |
| `LedgerGate.ArrivedIff` | e2e/performance/native-contract.ts:281-291 | the range check over the reported references of an artifact holds exactly when they arrived in that order |
| `LedgerGate.SnapshotPassesIff` | e2e/performance/native-collector.ts:656-702 | in every run of one command, whatever order its records are acknowledged in, a snapshot passes exactly when the references inside the acknowledged prefixes arrived in order |
| `LedgerGate.EverySnapshotPasses` | e2e/performance/native-collector.ts:656-702 | so when a command's records are acknowledged front to back, every snapshot of every run passes |
| `LedgerGate.ReleaseAfterFailure` | e2e/performance/native-collector.ts:626-633 | after failure, releasing an artifact that is held makes the snapshot fail the gate, and releasing anything else changes nothing: the exact reason `release` needs its callers |
| `LedgerWitness.BackToFrontFails` | e2e/performance/native-collector.ts:634-655 | a concrete run with two records acknowledged back to front ends in a snapshot the gate refuses: the order condition cannot be dropped |
| `LedgerReceipts.AcknowledgedPrefix` | e2e/performance/native-collector.ts:767-805 | in every run the acknowledged chunks of an artifact concatenate to exactly the acknowledged prefix of what was retained, its digest is the retained content's, and what is held is the rest |
| `LedgerReceipts.ReceiptProgress` | e2e/performance/native-collector.ts:767-805 | an accepted receipt is for the next offset, appends exactly the emitted bytes and strictly lowers the held total |
| `LedgerReceipts.LateReceiptPinsBytes` | e2e/performance/native-collector.ts:738-805 | a receipt for a chunk emitted any number of steps earlier is accepted only if that chunk is still the next one; no property of the digest is needed |
| `LedgerReceipts.DuplicateReceiptRefused` | e2e/performance/native-collector.ts:767-805 | an accepted receipt is refused in every later state of every run |
| `LedgerReceipts.StableRun` | e2e/performance/native-collector.ts:542-859 | content of inventoried artifacts never changes and acknowledgement never decreases, over every run |
| `LedgerReceipts.PendingStays` | e2e/performance/native-collector.ts:893-902 | an operation that is pending stays pending, unchanged, through every run that does not settle it, however often the full table evicts, and no terminal barrier succeeds meanwhile |
| `LedgerReceipts.BarrierIff` | e2e/performance/native-collector.ts:714-737 | for one command the terminal barrier succeeds exactly when the command is the only one, failure began, no drain is active, no operation is pending, the references arrived in order and the encoding is nonempty and at most 8 MiB |
| `LedgerReceipts.BarrierIsFinal` | e2e/performance/native-collector.ts:714-737 | after the barrier every event leaves the ledger unchanged and asking again, at any time and with any encoder, returns the identical bytes |
| `LedgerReceipts.SettledAccountsForAll` | e2e/performance/native-collector.ts:689-699 | a settled disposition means every observed byte was released or acknowledged and every artifact is acknowledged in full |
| `LedgerMeaning.HoldKeepsLongest` | e2e/performance/native-collector.ts:575-598 | a hold keeps the longest prefix there is room for: at least n bytes are kept if and only if fewer than 128 artifacts are held, n more bytes stay within 128 MiB and, after failure, the ten seconds are not over and the retained count and bytes have room too |
| `LedgerMeaning.HoldStores` | e2e/performance/native-collector.ts:595-625 | what is kept is the first bytes, with owner, observed length, digest and time; the rest counts as discarded, other artifacts are untouched, and discarding anything begins the failure |
| `LedgerMeaning.HoldAccepted` | e2e/performance/native-collector.ts:565-574 | a hold is refused exactly after the barrier and for an identity held or seen, and then changes nothing |
| `LedgerMeaning.ReceiptIff` | e2e/performance/native-collector.ts:767-805 | a receipt is accepted exactly before the barrier, for an artifact of the command not acknowledged in full, if every field says what the ledger knows of the next chunk; it then moves the acknowledgement by its bytes, and otherwise nothing changes |
| `LedgerMeaning.RowOrigin` | e2e/performance/native-collector.ts:673-688 | over every run, each reported artifact was brought by one event of the run, as a hold, an awaited screenshot or the late result of an operation; owner, observed length and time are that event's, and what was retained is a first part of its bytes with the reported digest |
| `LedgerMeaning.RowMeaning` | e2e/performance/native-collector.ts:673-688 | a row reports what was acknowledged of its artifact in all, what was retained, and exactly the recorded references whose bytes were acknowledged |
| `LedgerMeaning.RowFor` | e2e/performance/native-collector.ts:673-688 | every artifact of the command taken over by the failure has a row |
| `LedgerMeaning.ListsMeaning` | e2e/performance/native-collector.ts:669-672 | a snapshot lists exactly the command's late handles, each once, and every operation as it stands |
| `LedgerMeaning.SnapshotMeaning` | e2e/performance/native-collector.ts:656-699 | the reported discarded and held bytes are what was observed less what was released and acknowledged; pending means some operation is pending, settled means none is, no late handle is left and every observed byte was released or acknowledged |
| `LedgerMeaning.FirstFailureStays` | e2e/performance/native-collector.ts:546-563 | the first failure keeps its time and cause through every run |
| `LedgerMeaning.StartMeaning` | e2e/performance/native-collector.ts:885-920 | work is taken on exactly before the barrier, unaborted, before its deadline, after failure only as retention work and while not 128 operations are pending; it is then pending under the next number, and a refusal for an abort, a deadline or a full table begins the failure |
| `LedgerMeaning.SettleMeaning` | e2e/performance/native-collector.ts:936-1019 | a settled operation leaves nothing if it settled in time, or as retention work before its own deadline and unaborted; otherwise an entry with how and when; no other operation changes |
| `LedgerMeaning.HandleMeaning` | e2e/performance/native-collector.ts:947-960 | a late browser handle is kept for its owner, and no other settlement changes the handles |
| `LedgerMeaning.TransferIff` | e2e/performance/native-collector.ts:528-541 | a late handle is handed over exactly before the barrier and to its owner; it is then gone and every other one stays |
| `LedgerMeaning.DrainMeaning` | e2e/performance/native-collector.ts:822-852 | a drain goes on exactly before the deadline, unaborted, with an artifact of the command or pending work left and room in the table; it then emits if there is an artifact and waits otherwise |
| `LedgerMeaning.RecordIff` | e2e/performance/native-collector.ts:634-655 | a reference is recorded exactly before failure, within the budget, at a free offset of a held artifact whose bytes there are the ones acknowledged |
| `LedgerRuns.EvictKeeps` | e2e/performance/native-collector.ts:898-908 | a full operation table gives up only a settled entry: pending ones stay, and nothing else changes |
| `LedgerRuns.YieldTable` | e2e/performance/native-collector.ts:946-960 | a late handle takes the place of the measurement operation that produced it, which is why handles stay within 128 |
| `FailureGate.CheckFailure` | e2e/performance/native-contract.ts:258-295 | the accumulating loop accepts exactly the snapshots that meet the quantified conditions: distinct identities, row totals, ordered references, budgets and the held sum |
| `FailureGate.GateMeaning` | e2e/performance/native-contract.ts:258-295 | exactly these snapshots pass: no list over 128, as many identities as artifacts, every artifact with acknowledged at most retained at most observed and references that follow one another inside what was acknowledged, 128 MiB and 4096 references in all, and held equal to retained less acknowledged |
| `Collector.NativeCollector.constructor` | e2e/performance/native-collector.ts:487-527 | a new collector satisfies the invariant |
| `Collector.NativeCollector.FailOwnership` | e2e/performance/native-collector.ts:542-564 | the latching update is the ledger step and keeps the books |
| `Collector.NativeCollector.Hold` | e2e/performance/native-collector.ts:565-625 | the budgeted hold is the ledger step, with its two refusals, and keeps the evidence invariant; what it retains is said by `LedgerMeaning.HoldKeepsLongest` |
| `Collector.NativeCollector.Release` | e2e/performance/native-collector.ts:626-633 | the removal is the ledger step |
| `Collector.NativeCollector.RecordAckSource` | e2e/performance/native-collector.ts:634-655 | the guarded insertion is the ledger step |
| `Collector.NativeCollector.FailureState` | e2e/performance/native-collector.ts:656-702 | returns the snapshot of the state exactly when it passes the gate |
| `Collector.NativeCollector.TerminalFailureSnapshot` | e2e/performance/native-collector.ts:714-737 | the barrier method, with the encoded byte bound, is the ledger step and keeps the invariant |
| `Collector.NativeCollector.ReadFailureChunk` | e2e/performance/native-collector.ts:738-766 | returns the next chunk of an owned artifact after failure, and refuses anything else |
| `Collector.NativeCollector.AcknowledgeFailureChunk` | e2e/performance/native-collector.ts:767-805 | the receipt check and the five field updates are the ledger step and keep the evidence invariant |
| `Collector.NativeCollector.BeginDrain` | e2e/performance/native-collector.ts:816-821 | a drain starts exactly after failure, before the barrier, and one at a time |
| `Collector.NativeCollector.DrainTurn` | e2e/performance/native-collector.ts:822-858 | one turn of the drain loop is the ledger step and keeps the invariant |
| `Collector.NativeCollector.StartOwned` | e2e/performance/native-collector.ts:876-919 | registration with its four refusals and eviction is the ledger step and keeps the invariant |
| `Collector.NativeCollector.SettleOwned` | e2e/performance/native-collector.ts:936-1021 | the settlement continuation, late or not, is the ledger step and keeps the invariant |
| `Collector.NativeCollector.TransferLateHandle` | e2e/performance/native-collector.ts:528-541 | hands over exactly the owner's handle, once, and only before the barrier |
| `Frames.FrameRoundTrip` | e2e/performance/native-failed-handoff.ts:28-48 | every field of a frame is read back as written |
| `Frames.ClientFramePasses` | e2e/performance/native-failed-stream.ts:98-114 | every frame the client can build passes the stream's request gate when key and sequence agree |
| `Frames.StreamReplyPasses` | e2e/performance/native-failed-handoff.ts:50-68 | every acknowledgement the stream returns passes the client's check with the same payload |
| `Frames.CallbackRoundTrip` | e2e/performance/native-failed-handoff.ts:127-160 | metadata and data of a callback payload are recovered from its length prefix |
| `Frames.SendableIff` | e2e/performance/native-failed-handoff.ts:109-143 | what may be sent: a record is a nonempty line of less than 96 KiB with its newline, a callback has metadata and up to 48 KiB of data within 144 KiB, a snapshot is at most 8 MiB |
| `Frames.RequestIff` | e2e/performance/native-failed-stream.ts:98-114 | the stream accepts exactly the frames of the next number under its key, of the three request kinds, with a nonempty payload within that kind's bound |
| `Frames.AckIff` | e2e/performance/native-failed-handoff.ts:50-68 | the client accepts exactly the acknowledgement frame of its number and key with at most 16 KiB |
| `Basics.U32BigEndian` | e2e/performance/native-failed-handoff.ts:28-48 | the first byte of a number is the most significant |
| `HandoffSafety.StepKeeps` | e2e/performance/native-failed-stream.ts:77-141 | every step of client, stream and host keeps the session invariant: short writes, failed reads, crashes, and a host that produces any bytes at any moment except an acknowledgement of an entry it has not appended, at a place where the stream reads one |
| `HandoffSafety.EmitKeeps` | e2e/performance/native-failed-stream.ts:117-133 | garbage, wrong sequences and keys, oversized lengths, truncated and trailing bytes from the host are all harmless |
| `HandoffSafety.HonestAck` | e2e/performance/native-failed-stream.ts:117-133 | an acknowledgement the stream accepts is for an entry in the host log, and what follows it is still honest |
| `HandoffRuns.BadAnswerRejected` | e2e/performance/native-failed-stream.ts:119-127 | the read that completes a bad acknowledgement header, from whatever pieces it arrived in, ends the session with the rejection pending and nothing counted |
| `HandoffRuns.AckedPrefixOfLog` | e2e/performance/native-failed-handoff.ts:71-186 | in every run the acknowledged messages are a prefix of the host log, the log is at most one longer, entry i is message i, and the bytes sent are a prefix of the frames, each once |
| `HandoffRuns.CountersAgree` | e2e/performance/native-failed-handoff.ts:87-107 | client and stream counters equal each other and the host log whenever nothing is in flight and neither side failed |
| `HandoffRuns.NoFrameAfterFailure` | e2e/performance/native-failed-handoff.ts:87-107 | once the client or the stream failed, no frame starts in any continuation, also while the client has not resumed yet |
| `HandoffRuns.OverlapEndsSession` | e2e/performance/native-failed-handoff.ts:87-126 | a record or callback sent while another is in flight, or after a failure or the close, fails the client, and no frame starts in any continuation; a refused closing call changes nothing |
| `HandoffRuns.ReceiptDecides` | e2e/performance/native-failed-handoff.ts:118-181 | a receipt its operation does not accept fails the client and closes nothing; one it accepts closes the session exactly if it answers the closing message |
| `HandoffRuns.ClosedByGoodReceipt` | e2e/performance/native-failed-handoff.ts:172-180 | in every run a session is closed only by examining a 32-byte receipt of the closing message whose digest was right |
| `HandoffRuns.StreamFailureLatches` | e2e/performance/native-failed-stream.ts:134-139 | in every run a failed stream has a client that latched the failure or still waits for the rejection, and resuming it latches |
| `HandoffRuns.NothingAfterTerminal` | e2e/performance/native-failed-stream.ts:128-133 | no byte, frame or log entry follows an acknowledged terminal, whether or not the client latched it |
| `HandoffRuns.TerminalIsComplete` | e2e/performance/native-failed-handoff.ts:166-186 | a client that closed delivered everything it started, the final snapshot last |
| `HandoffRuns.WriteExact` | e2e/performance/native-failed-stream.ts:60-72 | pieces of at most 64 KiB are written in order; success means all bytes, and the first short write or the first check that sees the latch stops it |
| `HandoffRuns.ReadExact` | e2e/performance/native-failed-stream.ts:37-58 | succeeds exactly when some prefix of the parts assembles the wanted size, each part admissible and neither check around it seeing the latch, and returns those bytes |
| `HandoffRuns.StreamExchange.Begin` | e2e/performance/native-failed-stream.ts:90-114 | overlap, closed and request checks are the stream step |
| `HandoffRuns.StreamExchange.Written` | e2e/performance/native-failed-stream.ts:60-72 | one settled write is the stream step |
| `HandoffRuns.StreamExchange.Received` | e2e/performance/native-failed-stream.ts:117-133 | one settled read, up to a validated acknowledgement, is the stream step |
| `HandoffRuns.HandoffClient.BeginSend` | e2e/performance/native-failed-handoff.ts:87-95 | a busy, failed or closed client refuses and is failed by it unless the call was the closing one; otherwise the frame is built and the busy latch set |
| `HandoffRuns.HandoffClient.EndSend` | e2e/performance/native-failed-handoff.ts:94-107 | the reply check advances the counter or poisons, as the client step |
| `HandoffRuns.HandoffClient.FailSend` | e2e/performance/native-failed-handoff.ts:101-106 | a rejected exchange poisons the client and closes it |
| `HandoffRuns.HandoffClient.Examine` | e2e/performance/native-failed-handoff.ts:109-186 | each operation's last check is the client step |
| `SessionRuns.StepKeeps` | e2e/performance/native-failed-handoff.ts:127-185 | collector, client, stream and host together: every step (drain turn, emission, receipt, rejection, late settlement, closing call, anything the wire and the host do) keeps that each callback carries the chunk its operation read, that acknowledged bytes are those of the accepted callbacks in the order sent, and that a closing message carries the committed bytes |
| `SessionRuns.RunKeeps` | e2e/performance/native-failed-handoff.ts:127-185 | so does every lawful run |
| `SessionRuns.Delivered` | e2e/performance/native-failed-handoff.ts:166-185 | once the client has closed, the host log ends with the snapshot of the frozen ledger, and for every artifact that snapshot reports the callbacks in the log concatenate to the acknowledged prefix of what was retained if and only if no offset was sent twice |
| `SessionRuns.DeliveredOnce` | e2e/performance/native-collector.ts:809-859 | if no chunk is read for emission while another is under way, the log holds exactly the acknowledged prefixes |
| `SessionWitness.OverlapRepeats` | e2e/performance/native-collector.ts:816-836 | a drain begun while the emission of an aborted one is under way sends the chunk again; the session still closes, and the log is not the acknowledged prefix |
| `SessionSafety.AnswerIff` | e2e/performance/native-collector.ts:767-805 | the receipt that echoes a chunk under way is accepted exactly when that chunk is the next one, and appends exactly its bytes |
| `SessionSafety.QuietStep` | e2e/performance/native-collector.ts:542-1021 | nothing but an accepted receipt changes what is acknowledged, and nothing but the barrier commits |
| `SessionSafety.BarrierCommits` | e2e/performance/native-collector.ts:714-737 | a successful barrier changes nothing but the committed bytes, which encode the ledger as it is |
| `SessionRuns.SentIsTaken` | e2e/performance/native-failed-handoff.ts:127-163 | what was sent and what was acknowledged are the same bytes exactly when every callback of the artifact was accepted |
| `SessionWitness.ReachesWritten` | e2e/performance/native-failed-stream.ts:60-134 | from rest every sendable message can go through: all pieces written, appended, answered, read and counted |
| `NativeLines.ChunkingIndependence` | e2e/performance/native-contract.ts:329-406 | a session is accepted with rows R exactly when its shards are within bounds and end on line boundaries and its bytes are bounded owned lines numbered 1..n whose only closing record is the last, however it was cut |
| `NativeLines.SessionIff` | e2e/performance/native-contract.ts:329-406 | pushing chunk by chunk and shard by shard, from any state, equals one reading of all bytes |
| `NativeLines.TranscriptIff` | e2e/performance/native-contract.ts:338-392 | one reading accepts exactly the transcripts |
| `NativeLines.RefusalIsFinal` | e2e/performance/native-contract.ts:338-353 | after a refused push every later push is refused without effect, and neither a shard boundary nor the end is accepted |
| `NativeLines.Transport.Push` | e2e/performance/native-contract.ts:338-392 | the buffering method is the specified step, with every refusal |
| `NativeLines.Transport.ConsumeAll` | e2e/performance/native-contract.ts:354-386 | the line loop is the specified consumption |
| `NativeLines.Transport.NextShard` | e2e/performance/native-contract.ts:393-399 | a shard ends exactly on an open line boundary |
| `NativeLines.Transport.End` | e2e/performance/native-contract.ts:400-406 | the stream ends exactly after a closing record with nothing left over |
| `TraceMappings.ChunkingIndependence` | e2e/performance/native-collector.ts:2485-2570 | whatever a cutting of the text accepts is the result of one unbounded reading, and within the prefix, event and tail bounds every cutting accepts it |
| `TraceMappings.BoundsExact` | e2e/performance/native-collector.ts:2488-2543 | every cutting of a readable text succeeds if and only if the unread text stays within its bound after every prefix |
| `TraceMappings.CuttingIff` | e2e/performance/native-collector.ts:2485-2570 | one given cutting succeeds if and only if reading without bounds does and the unread text fits after each of its own pushes, the tail being exempt in the push that closes the array |
| `TraceMappings.PushIff` | e2e/performance/native-collector.ts:2485-2543 | one push is the unbounded push and refuses in addition exactly when what it leaves unread is over its bound |
| `TraceMappings.DocumentIff` | e2e/performance/native-collector.ts:2485-2570 | one reading closes the array exactly on documents: white space, the opening, objects with commas between them, the closing bracket; its mappings are the fold of the objects in order |
| `TraceMappings.EventEndIff` | e2e/performance/native-collector.ts:2511-2536 | at a brace the scan ends exactly where an object of the grammar ends: nested brackets around characters and string literals, in which a backslash takes the next character with it |
| `TraceMappings.ObjectEnd` | e2e/performance/native-collector.ts:2511-2536 | the end of every object is found, whatever follows it |
| `TraceMappings.HeaderIff` | e2e/performance/native-collector.ts:2488-2493 | the opening is recognised exactly as its four tokens with white space before each |
| `TraceMappings.Lengths` | e2e/performance/native-collector.ts:2490-2496 | the bounded lengths: a code unit a character and one more beyond the basic plane; a byte a character and one more for each limit it is beyond |
| `TraceMappings.SpaceIs` | e2e/performance/native-collector.ts:2488-2501 | white space is that of ECMAScript |
| `TraceMappings.TraceAccepted` | e2e/performance/native-collector.ts:2478-2575 | push and end accept a cut text exactly when it is a document with a parsable tail, and leave the fold of its events |
| `TraceMappings.PidMeaning` | e2e/performance/native-collector.ts:2557-2579 | a frame resolves to a process exactly when that is the only one registered since the frame was last deleted |
| `TraceMappings.ScanAppend` | e2e/performance/native-collector.ts:2517-2536 | a complete event is found unchanged when more text follows, with strings, escapes and nesting in any state |
| `TraceMappings.FindEnd` | e2e/performance/native-collector.ts:2517-2536 | the scanning loop finds the end of the object the text begins with, if one is complete, and of nothing else |
| `TraceMappings.Parser.Register` | e2e/performance/native-collector.ts:2548-2568 | the row loop and deletion are the event's effect on the map |
| `TraceMappings.Parser.Drain` | e2e/performance/native-collector.ts:2500-2569 | the event loop is the specified one |
| `TraceMappings.Parser.Feed` | e2e/performance/native-collector.ts:2485-2570 | push is the specified step, rejecting exactly when it does |
| `TraceMappings.Parser.Pid` | e2e/performance/native-collector.ts:2576-2579 | answers a process exactly when the mapping is that single one |
| `PngFilter.UnfilterInvertsFilter` | e2e/performance/native-contract.ts:554-590 | for every width, height, channel count and choice of the five filters per line, reconstruction returns the original pixels |
| `PngFilter.FilterInvertsUnfilter` | e2e/performance/native-contract.ts:554-590 | filtering what was reconstructed gives the scanlines back: reconstruction loses nothing |
| `PngFilter.Paeth` | e2e/performance/native-contract.ts:560-566 | the predictor is the neighbour nearest to left + up - corner, ties to left, then up |
| `PngFilter.Unfilter` | e2e/performance/native-contract.ts:567-590 | the in-place loop over the flat buffer refuses exactly unknown filters; otherwise every byte is what its line's filter makes of the byte sent and of the bytes to the left, above and in the corner |
| `PngFilter.PixelIs` | e2e/performance/native-contract.ts:567-590 | in every raster: filter 0 keeps the byte, 1 adds the left one, 2 the one above, 3 half their sum, 4 the neighbour nearest to left + up - corner |
| `PngContainer.DecodeIff` | e2e/performance/native-contract.ts:503-593 | a file decodes to an image if and only if it is the signature and checksummed chunks, IHDR with the geometry, eight bits and three or four channels first, IDAT and passable chunks after it, an empty IEND last, whose data inflates to that image |
| `PngContainer.HeaderIff` | e2e/performance/native-contract.ts:528-544 | the header check accepts exactly that header, and reads its channels |
| `PngContainer.ImageRoundTrip` | e2e/performance/native-contract.ts:503-593 | any image, any filters, any cutting into IDAT chunks and any ancillary chunks decode back to the image |
| `PngContainer.WalkedChunks` | e2e/performance/native-contract.ts:518-548 | walking encoded chunks is folding over the chunk list |
| `PngContainer.ValidatePng` | e2e/performance/native-contract.ts:503-593 | the walk and reconstruction as they run return exactly the decoded pixels or the same error |
| `PngCrop.HullIff` | e2e/performance/native-contract.ts:599-622 | the hull is accepted exactly for one to 32 rectangles of four finite numbers with positive size, when it is the smallest whole-pixel box that leaves four pixels on every side of the edges as computed, lies within 1440 by 900 unclamped and is at most 320 by 64 |
| `PngCrop.CropIff` | e2e/performance/native-contract.ts:595-654 | a crop is made exactly of an accepted hull of a decodable screenshot whose file, 57 bytes around the compressed data, is at most 96 KiB |
| `PngCrop.CropPixel` | e2e/performance/native-contract.ts:623-631 | every byte of every pixel of the crop is that of the screenshot as far right and down as the box begins |
| `PngCrop.MarginIff` | e2e/performance/native-contract.ts:607-611 | for every monotone rounding of the far edges that keeps whole numbers, at least three pixels are left of the margin around the exact rectangles, and all four if and only if on neither axis the largest exact far edge rounds down to the whole pixel below it |
| `PngCrop.FarMargin` | e2e/performance/native-contract.ts:607-611 | the box leaves a given far margin around the exact rectangles exactly when the rounded largest far edges do |
| `PngCrop.MarginLost` | e2e/performance/native-contract.ts:607-611 | in double precision one rectangle of width 2^-53 at 100 loses a pixel of the margin |
| `Doubles.CeilRounded` | e2e/performance/native-contract.ts:607-611 | such a rounding lowers the next whole number by at most one, and does so exactly when it lands on the whole number below |
| `Doubles.NearestRounds` | e2e/performance/native-contract.ts:607-611 | rounding to the nearest double, however ties go, is monotone and keeps every whole number of up to 53 bits |
| `Doubles.NearestIsOne` | e2e/performance/native-contract.ts:607-611 | rounding to the nearest double exists |
| `Doubles.HundredAbsorbs` | e2e/performance/native-contract.ts:607-611 | at 100 it drops every addend below half the spacing of doubles there |
| `PngCrop.CropDecodes` | e2e/performance/native-contract.ts:595-654 | the cropped file decodes to exactly the sub-rectangle of the original, within 96 KiB, for every such rounding |
| `PngCrop.CopyRows` | e2e/performance/native-contract.ts:623-631 | the copy loop fills the zeroed buffer with exactly the sub-rectangle's rows after neutral filter bytes |
| `Ordering.SortedIff` | scripts/acceptance/capacity_derive.py:20-21 | a sequence is the sorted list if and only if its keys never decrease and elements with equal keys keep their order |
| `Ordering.QueryIff` | scripts/acceptance/capacity_index.py:376-383 | the enumeration by value, then ordinal, is the stable sort of the rows as inserted, and there is no other |
| `CapacityIndex.AnswerIff` | scripts/acceptance/capacity_index.py:343-404 | for any identity, in any stream, among any other inserts, the ordered answer is that enumeration |
| `CapacityIndex.Index.Add` | scripts/acceptance/capacity_index.py:215-224 | an insert takes the next ordinal of its stream; a failed one ends the session and changes nothing readable |
| `CapacityIndex.Index.Append` | scripts/acceptance/capacity_index.py:226-244 | a record is filed under any number of identities; one that is taken ends the session and files nothing |
| `CapacityIndex.Index.Find` | scripts/acceptance/capacity_index.py:302-307 | answers the payload of the one record ever appended under the identity, and none exactly when there was none |
| `CapacityIndex.Index.OrderedAt` | scripts/acceptance/capacity_index.py:365-375 | answers the row at a place of the one enumeration of the group by value and insertion, exactly when the place exists |
| `CapacityIndex.Index.OrderedRows` | scripts/acceptance/capacity_index.py:376-383 | lists every row of the group once, by value, ties in insertion order |
| `CapacityIndex.Index.Rank` | scripts/acceptance/capacity_index.py:397-404 | answers the rank-th number, exactly for ranks 1..count |
| `CapacityIndex.Index.GroupLast` | scripts/acceptance/capacity_index.py:333-341 | answers the row with the greatest ordinal |
| `Statistics.RankIsPercentile` | scripts/acceptance/capacity_compact.py:46-54 | the ranked number is the percentile of everything stored |
| `Statistics.PercentileDivides` | scripts/acceptance/capacity_derive.py:20-21 | a percentile is a number of the list; at least that fraction of the list is not larger and less than that fraction is smaller |
| `Statistics.PlaceIs` | scripts/acceptance/capacity_derive.py:20-21 | its place is the product of length and fraction, rounded up |
| `Statistics.ElementsAppend` | scripts/acceptance/capacity_compact.py:31-34 | appending comma and element extends the canonical text of the list by one element |
| `Statistics.NumberStream.Add` | scripts/acceptance/capacity_compact.py:24-38 | count, first maximum, over-200 count and digested text stay those of the whole list, each number in its own JSON text |
| `Statistics.NumberStream.Result` | scripts/acceptance/capacity_compact.py:40-55 | every published figure equals the batch figure of the whole list: count, maximum, percentiles and digest of its canonical JSON, also when equal numbers are written differently; the median and the 95th percentile divide the list as their fractions say |
| `Statistics.NumberStream.Kept` | scripts/acceptance/capacity_compact.py:24-38 | records added to the index by others leave the stream valid |
| `Statistics.StoredKept` | scripts/acceptance/capacity_compact.py:24-38 | what an index holds of a stream does not change when other records are added |
| `PublicGroups.OrderIsPlain` | scripts/acceptance/capacity_derive.py:73-80 | the rows in index order are the plain list filtered by key and stably sorted |
| `PublicGroups.FirstKeysIff` | scripts/acceptance/capacity_public_groups.py:63-69 | the listed keys are exactly those present, each once |
| `PublicGroups.SlicesOfRange` | scripts/acceptance/capacity_public_groups.py:18-24 | positions put through any chain of slices select exactly what slicing the list itself that many times selects |
| `PublicGroups.StrideIs` | scripts/acceptance/capacity_public_groups.py:18-24 | the places of a slice start at its first bound, go on by its step and stop only at its second bound |
| `PublicGroups.UnitSlice` | scripts/acceptance/capacity_public_groups.py:18-24 | with step one a slice is the stretch between its clamped bounds |
| `PublicGroups.ReverseSlice` | scripts/acceptance/capacity_public_groups.py:18-24 | with step minus one and no bounds it is the list backwards |
| `PublicGroups.Grouping.Fill` | scripts/acceptance/capacity_public_groups.py:56-81 | the construction loop files every row at its place under its key and every key once |
| `PublicGroups.Grouping.Keys` | scripts/acceptance/capacity_public_groups.py:104-107 | iteration lists the keys in order of first appearance |
| `PublicGroups.Grouping.Item` | scripts/acceptance/capacity_public_groups.py:18-24 | positional access, also from the end, reads the plain group's row or raises |
| `PublicGroups.Grouping.Iterate` | scripts/acceptance/capacity_public_groups.py:26-35 | both iteration paths list the plain group's rows at the positions |
| `PublicGroups.Grouping.Listed` | scripts/acceptance/capacity_public_groups.py:18-35 | a group sliced any number of times and iterated lists the plain group sliced the same way |
| `PublicGroups.Grouping.SlicedItem` | scripts/acceptance/capacity_public_groups.py:18-24 | one row of such a slice is the row of the sliced plain group, or an index error |
| `PublicGroups.Grouping.Kept` | scripts/acceptance/capacity_public_groups.py:56-81 | records added to the index by others leave the grouping valid |
| `PublicGroups.HoldsKept` | scripts/acceptance/capacity_public_groups.py:56-81 | what an index holds of a grouping does not change when other records are added |
| `Markers.RowIff` | scripts/acceptance/capacity_derive.py:418-434 | a row passes exactly when its marker is the unique latest one of its window installed by the capture time |
| `Markers.NextIsSuccessor` | scripts/acceptance/capacity_derive.py:415-417 | the last-write map holds the sorted successor of every marker that has one, and nothing else |
| `Markers.GlobalOrder` | scripts/acceptance/capacity_derive.py:395-401 | adjacent order of send and install times is global order |
| `Markers.WalkWindow` | scripts/acceptance/capacity_derive.py:386-417 | one window's checks and writes |
| `Markers.Join` | scripts/acceptance/capacity_derive.py:385-434 | the loops accept exactly well-scheduled markers with every progress row under its unique latest marker |
| `Markers.AcceptableIff` | scripts/acceptance/capacity_derive.py:376-434 | what the join accepts, marker by marker: identities differ, every marker is of a window, every window is well scheduled and every progress row is under its unique latest marker |
| `Markers.WindowIff` | scripts/acceptance/capacity_derive.py:386-417 | a window's checks pass exactly when it has markers one to its count, each scheduled by cadence, the first installed before its start, and any two sent, installed and completed in the order of their numbers |
| `Markers.WalkIndexed` | scripts/acceptance/capacity_derive.py:376-417 | one window read from the indexed groups while its successors are written to the same index: same verdict and same map as on a list |
| `Markers.AttachIndexed` | scripts/acceptance/capacity_derive.py:418-434 | a progress row is decided from the indexed successors exactly as from the map |
| `Markers.JoinIndexed` | scripts/acceptance/capacity_derive.py:376-434 | the join through the indexed groups and the indexed successor map, interleaved on one index, accepts exactly what the join over lists accepts, or stops because the index failed |
| `Markers.NextMarkers.Set` | scripts/acceptance/capacity_public_groups.py:123-130 | a write makes the indexed map the old map with the new value |
| `Markers.NextMarkers.Get` | scripts/acceptance/capacity_public_groups.py:132-138 | a read answers the map |
| `Markers.NextMarkers.Kept` | scripts/acceptance/capacity_public_groups.py:123-138 | records added to the index by others leave the map valid |
| `Clock.BoundsSound` | scripts/acceptance/capacity_completion.py:332-351 | if one equal-rate clock fits every bracket, the true host time lies in the interval and the bounds do not cross |
| `Clock.RejectedIff` | scripts/acceptance/capacity_completion.py:349-351 | a consistent clock is refused if and only if every lower bound is negative |
| `Clock.AcceptedIff` | scripts/acceptance/capacity_completion.py:332-351 | brackets are accepted exactly when none is reversed, no lower bound passes an upper one and some lower bound is not negative |
| `Clock.NonNegativeTimeRejected` | scripts/acceptance/capacity_completion.py:349-351 | a concrete consistent clock at host time zero that is refused |
| `Clock.MoreNarrows` | scripts/acceptance/capacity_completion.py:339-349 | further calibrations only narrow the interval, wherever they are added |
| `Clock.BoundsTight` | scripts/acceptance/capacity_completion.py:339-349 | no whole-nanosecond bounds are better: they are exactly those valid for every consistent clock |
| `Clock.DriftHidden` | scripts/acceptance/capacity_completion.py:345-351 | two brackets 1.8 nanoseconds apart that no clock fits are accepted |
| `Clock.DriftIff` | scripts/acceptance/capacity_completion.py:345-351 | for all readings the bounds meet if and only if the earliest time the brackets demand is less than a nanosecond past the latest one they allow, rounded up |
| `Clock.DriftBelowTwo` | scripts/acceptance/capacity_completion.py:345-351 | a disagreement of two nanoseconds or more is always refused; some clock fits exactly when there is no disagreement, and then none is refused |
| `Clock.FloorExact` | scripts/acceptance/capacity_completion.py:339-349 | the lower bound is the earliest host time the brackets demand, rounded down |
| `Clock.CeilingExact` | scripts/acceptance/capacity_completion.py:339-349 | the upper bound is the latest host time the brackets allow, rounded up |
| `Clock.MembershipIff` | scripts/acceptance/capacity_completion.py:354-361 | inside or outside is answered exactly when it holds of every time in the interval |
| `Clock.MembershipSound` | scripts/acceptance/capacity_completion.py:354-361 | the answer is right about the true host time of every consistent clock |
| `Clock.ClockBounds` | scripts/acceptance/capacity_completion.py:332-351 | the loop accepts exactly as specified and returns the largest lower and smallest upper bound |
| `ProgressMapping.Publisher.Publish` | e2e/performance/native-collector.ts:1405-1428 | published mappings always concatenate to the first `mapped` rows while progress arrives during sends; after a round every captured text on record is covered |
| `ProgressMapping.Publisher.Send` | e2e/performance/native-collector.ts:1414-1426 | rows are counted only after the send succeeded; a failed send changes nothing but what arrived |
| `ProgressMapping.Publisher.Arrive` | e2e/performance/native-collector.ts:467-475 | progress grows by one row, up to 120, and keeps every mapping faithful |
| `ProgressMapping.Publisher.Close` | e2e/performance/native-collector.ts:1854-1866 | after the last round, the rows published and those reported as unpainted are together all progress in order, and nothing is reported exactly when everything was published |
| `ProgressMapping.Subsume` | scripts/acceptance/capacity_completion.py:287-329 | accepts exactly effective rows of one claim with consecutive sequences and counts, increasing revisions and orders, the painted row last and bound to the public step, revision and message; all rows are distinct |
| `ProgressMapping.OwnFactIff` | scripts/acceptance/capacity_completion.py:287-318 | a row counts exactly if it took effect without error and its claim, source and public view say the same thing |
| `Cleanup.SafeIff` | e2e/support/cleanup-journal.ts:345-398 | under every combination of failures a pass completes no team before everything that depends on it, if and only if every resource an actor created shares the actor's workspace |
| `Cleanup.VisitOrder` | e2e/support/cleanup-journal.ts:350-363 | every export is visited before any other entry, every other resource before actors and teams, every actor before teams |
| `Cleanup.KindOrder` | e2e/support/cleanup-journal.ts:363-363 | within a kind the journal's order is kept |
| `Cleanup.RunsIff` | e2e/support/cleanup-journal.ts:364-380 | an entry is executed exactly if no entry executed before it in the pass failed and shares its scope or, for an actor, was made by it |
| `Cleanup.ErrorsAre` | e2e/support/cleanup-journal.ts:377-396 | the errors name, in order, exactly the entries held back or failed |
| `Cleanup.MovedIff` | e2e/support/cleanup-journal.ts:382-396 | an entry leaves the journal exactly if it was executed and its file moved |
| `Cleanup.StrayUnsafe` | e2e/cleanup.setup.ts:99-119 | one failing resource of an actor outside its workspace: the team completes while the actor stays pending |
| `Cleanup.ReplaysSafe` | e2e/support/cleanup-journal.ts:345-398 | over any number of replays with any failures, a team that is gone left no dependent entry behind |
| `Cleanup.TeamAfterFailure` | e2e/support/cleanup-journal.ts:365-396 | a team is not executed in a pass after an entry of its scope failed |
| `Cleanup.ErrorCount` | e2e/support/cleanup-journal.ts:379-397 | the errors of a pass number the entries left pending plus those whose flush failed after their move, so the two agree if and only if no entry the pass executed ends that way |
| `Cleanup.ErrorsCountPending` | e2e/support/cleanup-journal.ts:379-397 | if no entry can fail to flush, errors number the entries left pending |
| `Cleanup.FlushReported` | e2e/support/cleanup-journal.ts:268-275 | one entry that is moved and fails to flush is reported although nothing is pending |
| `Cleanup.RunResources` | e2e/support/cleanup-journal.ts:345-398 | the loop over the sorted entries reports exactly those held back or failed and completes exactly those executed and moved |
| `Kernel.StreakIsOpen` | api/app/execution_kernel.py:161-200 | after every history a scope's streak is the number of its failures since its last productive success or stored quarantine |
| `Kernel.QuarantineIff` | api/app/execution_kernel.py:174-199 | a quarantine is written exactly at failures that bring that number to three or more |
| `Kernel.RetriedWhileLost` | api/app/execution_kernel.py:188-199 | after a quarantine write that was not stored, the next failure tries again |
| `Kernel.OwnVisitsOnly` | api/app/execution_kernel.py:156-171 | a scope's streak depends on its own visits alone |
| `Kernel.FailuresLeaveResult` | api/app/execution_kernel.py:165-172 | failed scopes leave no trace in the pass's processed count and position |
| `Kernel.PositionIsLargest` | api/app/execution_kernel.py:165-172 | the position is the largest its workers reached, or zero |
| `Kernel.ProcessedConcat` | api/app/execution_kernel.py:165-172 | the count is the sum over the workers |
| `Kernel.ScopeKeyIff` | api/app/execution_kernel.py:34-37 | two scopes share a streak exactly when they have the same owner |
| `Kernel.PassesCompose` | api/app/execution_kernel.py:148-172 | successive passes leave the streaks of one history |
| `Kernel.Runtime.RecordScopeFailure` | api/app/execution_kernel.py:174-205 | counting, quarantine and its three outcomes are the specified step |
| `Kernel.Runtime.RunPending` | api/app/execution_kernel.py:148-172 | a pass visits every scope despite ordinary failures, stops exactly at a cancellation, and sums what was processed |

## Left out

- Browser driving, DOM observation, navigation and login; only the outcomes they hand to the ledger are modelled.
- The generated JSON schema of the wire contract beyond the numeric shape of the failure snapshot; `native-schema.json` is not part of this model.
- Several commands in one collector: runs with other owners are covered by `LedgerGate.GateIff`, but the gate theorem over whole runs is for one command.
- TraceMappings.Parser.Feed: does not state the buffer after a rejected push, because the observer is abandoned then.
- NativeLines.Transport.Push: the canonical-JSON and schema checks of a line are one arbitrary function from a line to an optional row.
- Overflow of a rectangle sum to infinity, which the size check refuses like any large number.
- Decimal text of positions and JSON text of group keys in the index; payloads are positions and keys are their identity strings.
- SQLite itself, its quota arithmetic, file identity checks and open cursors; a failed insert is an outcome.
- Budget charges of the package session, and `CompactResources` and `ordered_commitment`, which only combine the streams modelled here.
- Marker checks of clock identity, command nonces and host acknowledgement bounds: each is settled by reading one condition.
- Cleanup entries of other kinds, the state phase and the bootstrap step of the cleanup, and the HTTP actions: they do not interact with scopes.
- Cleanup entries registered between replays; a replay starts from what is pending.
- What the owner-scope source does with a quarantine, and the kernel's other workers.
- The text of callback metadata and snapshots; a session takes both encodings as functions.
- Wall-clock progress: nothing here promises that an awaited operation settles.
