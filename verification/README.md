# Verified model of the vow PDS core

vow is an ATProto personal data server whose accounts keep their signing key on a passkey in the
browser. Every repository write therefore crosses a small concurrent protocol (the *signer hub*), a
Merkle-tree repository with a per-account cache, an SQL record index, an event log behind the
firehose, and an exporter that walks the stored blocks. This project models these parts in Dafny and
proves what their comments promise, or, where the code does not keep the promise, exactly when it
does.

## The parts

**Signer hub** (`SignerQueue`, `SignerProtocol`, `SignerInvariants`, `SignerSteps`,
`SignerTheorems`, `SignerReplies`, `SignerProgress`, `SignerDelivery`, `SignerReasons`, `SignerDeadlock`,
`SignerHub`).
`SignerProtocol` is a transition system: request handlers, queue pumps and socket loops have program
counters, and every lock-held section and every channel operation is one action
(`CallerEnabled`/`DoCaller` for server/signer_hub.go:138-197, `LocalEnabled`/`LocalStep` for the pumps
and loops, `AnswerEnabled`/`DoAnswer` for the sends on reply channels, `CrossEnabled`/`DoCross` for
`deliver` on the connection the hub names, `HubEnabled`/`DoHub` for `Register` and `Unregister`).
Timeouts, cancelled contexts, dropped sockets, failed writes, arbitrary incoming messages and
evictions may happen at any point. `Exec` runs a list of actions; the theorems are about every state
some list reaches. `SignerDelivery` is about what the protocol achieves, down to the signature a caller
returns, and `SignerReasons` about what its errors mean. `SignerHub` holds the same code as classes, each section as a method whose effect
on the queue is the function of `SignerQueue` that the transition system uses.

**Repository manager** (`RepoWrites`, `RepoContents`, `RepoCache`, `RepoRuns`, `RepoAnswers`,
`RepoManager`, `MerkleTree`, `RecordProof`). `RepoWrites` says what one `applyWrites` batch does to the
tree (a map), to the rows and to the firehose, and `RepoContents` what that means write by write;
`RepoCache` is `withRepo` with its three endings: a root, an error, a panic. `RepoRuns` puts them
together over whole runs: the cache hands out the tree, a batch builds on it, the signature is checked,
database failures may strike at any row. `RepoAnswers` is about what clients and readers are told.
`RepoManager` is the object whose methods mutate the cached tree in place. `MerkleTree` has real tree
nodes and the search-path collector with a verifier that may read only some blocks; `RecordProof` is
`getRecordProof` around it.

**CAR export** (`CborScan`, `CarExport`). The tag-42 byte scanner against an encoder of DAG-CBOR
values (RFC 8949 sections 3.1 and 3.4), and the breadth-first walk against reachability by paths.

**Event log** (`EventLog`, `EventPersister`). Events and rows, the life of the log over failed
inserts, cleanups and restarts, paged playback over a table that may change between pages, and the
class `DbPersister`.

**DPoP nonce** (`DpopNonce`, RFC 9449 section 8). The shifted three-value window, its life time, and
the class `Nonce`.

## Where the code and its comments differ

The model follows the code.

- server/signer_hub.go:21-24 says a reply channel gets exactly one value. After a failed socket
  write (server/handle_signer_connect.go:254-257) the request is answered while it is still in
  `inflight`, and `failAll` answers it again. `ReplyDiscipline` is the exact count for every taken
  request; `WriteFailureWedges` reaches the state in which the second send blocks with `conn.mu`
  held, and `WedgedForever` shows that nothing ends it.
- A create or update may come without its record (server/handle_repo_apply_writes.go:22), and
  server/repo.go:400 and 478 then panic inside `withRepo`, which neither empties its entry nor drops
  the root. The comment at server/repo.go:85 guards the error path only. `BatchReadersSafeIff` says
  exactly when the cache stays right, `RecordlessWriteBreaks` is the run that commits a record with no
  row and no event, and `RecordsPreventPanic` is the check that rules it out.
- Rows and root are written without a transaction (server/repo.go:751-794). `BatchAgreesIff` says
  exactly when a database failure leaves the index out of step, and `NextBatchHealsIff` when the next
  commit repairs it; `RootFailureMisleads` is the effect on the firehose.
- Two `applyWrites` calls that read the same root lose an update (server/repo.go:353, `swapCommit` is
  ignored): `IndexAgreesIff` says for which stale roots the index still agrees with the tree, and
  `OverlapLosesUpdate` is an instance where it does not.
- An update that leaves a record's CID unchanged makes a commit but no firehose operation, and an
  update of an absent path is announced as a create (server/repo.go:559-574).
- The scanner finds a link exactly when its byte string is shorter than 64 KiB (`LinkFoundIff`,
  `LongLinkMissed`) and takes look-alike octets for links (`ScannerOvershoots`). `ScannerExactIff`
  says when it reports the links and nothing else, and `ExportIsTrueDag` what that means for the CAR.
- Event numbers are reused after a restart exactly when the resumed number is below one already
  stored (`RestartSafeIff`); `EmptiedLogReuses` and `BackwardClockReuses` are such runs.
- A serialised event keeps only the payload that decides its kind (`RoundTripIff`).

## Model

| member | source | states |
|---|---|---|
| SignerQueue.RemoveFirstIsWithout | server/signer_hub.go:183-190 | with unique ids, cancelling a caller removes its own entry and nobody else's |
| SignerQueue.AheadWithdraw | server/signer_hub.go:183-190 | a cancellation elsewhere in the queue keeps a request queued and never puts more requests ahead of it |
| SignerProtocol.ExtractPayload | server/handle_account_signer.go:179-194 | a payload that is extracted is not empty and is the commit payload unless that is empty; none is extracted exactly when the message does not parse or both fields are empty |
| SignerProtocol.VerifyResponse | server/handle_signer_connect.go:322-388 | a signature passes if and only if no field is empty, it is the decoded commit signature, has 64 octets and verifies over the decoded payload under the registered signing key, which parses, and the passkey's assertion for that payload verifies under the authentication key |
| SignerSteps.InvKept | server/signer_hub.go:90-296 | every enabled action of every process keeps all eleven protocol invariants |
| SignerTheorems.Always | server/signer_hub.go:90-296 | every reachable state satisfies the invariants, whatever the interleaving |
| SignerTheorems.SingleLiveConnection | server/signer_hub.go:90-119 | a connection is the hub's for its DID if and only if its done channel is open, and done is never closed twice |
| SignerTheorems.LateUnregister | server/signer_hub.go:103-119 | Unregister removes and closes only its own connection; a successor and other DIDs stay registered and open |
| SignerTheorems.NoLostWakeup | server/signer_hub.go:156-164 | a pump that sleeps on a live connection with waiting requests and a free passkey has a token in notify, or a caller or deliverer is about to put one there |
| SignerProgress.PumpProgress | server/signer_hub.go:246-276 | for a live connection that is not leaving, with a free passkey, a waiting request and its pump in NextRequest, an action of the server for this very connection is enabled: a check, a wake-up, or a notification on its way |
| SignerProgress.PromptWithinFour | server/signer_hub.go:138-164 | from every such reachable state, at most four actions of the server alone, all for this connection, put the head of its queue and nothing else in flight |
| SignerTheorems.NoStrandedCaller | server/signer_hub.go:138-197 | a caller in RequestSignature has a buffered reply, or sees done closed, or is in exactly one of pending and inflight, or a deliverer holds its reply; also when it queued after failAll |
| SignerTheorems.RightSignature | server/handle_signer_connect.go:223-266 | a signature returned for a request id verifies, under the signing key captured by the connection the request was queued on, over the payload of that request's message, and came with a passkey assertion for that payload under the captured authentication key, evictions included |
| SignerDelivery.RequestSigned | server/signer_hub.go:138-178 | from every reachable state with a live connection at rest: a call whose message has a payload, met by a genuine response, is queued, prompted and returned exactly that signature, after which the connection is at rest again |
| SignerDelivery.SignatureReturned | server/handle_signer_connect.go:225-240 | a genuine response to any request in flight on the hub's connection, whoever else is queued, makes its waiting caller return that signature, frees the passkey, wakes the pump and spends the payload |
| SignerDelivery.RejectionReturned | server/handle_signer_connect.go:242-246 | a rejection makes the waiting caller return that it was rejected, with the same effects |
| SignerDelivery.ResponseRefused | server/handle_signer_connect.go:226-237 | a response that is not genuine, or to a request without a kept payload, changes nothing but that the payload is spent |
| SignerDelivery.AnswerDropped | server/signer_hub.go:214-229 | an answer for a request that is not in flight on the connection the hub has now changes nothing, and the loop goes on |
| SignerDelivery.CallerGivesUp | server/signer_hub.go:180-196 | a caller whose context ends can leave whenever conn.mu is free: it returns the reason, and its request and no other goes from the queue if it was not sent yet |
| SignerDelivery.CallerSeesDone | server/signer_hub.go:177-178 | a caller whose connection was closed returns not connected at once, even while conn.mu is held |
| SignerDelivery.NewestTakesOver | server/signer_hub.go:90-101 | a new connection can always take over: it is the hub's, with its own keys and nobody queued; its predecessor is closed, other connections and all callers stay as they are |
| SignerReasons.ErrorsTellWhy | server/signer_hub.go:166-197 | in every run: a call returns rejected only if its rejection was received, timed out or cancelled only if its context did just that, not connected only if its connection was closed or its loop has ended |
| SignerTheorems.SenderFindsRoom | server/signer_hub.go:223-234 | a sender in deliver or failAll finds the reply channel empty, unless the write of that very request failed |
| SignerReplies.ReplyDiscipline | server/signer_hub.go:21-24 | a taken request has had exactly one value, two if its own write failed, and one less exactly while somebody still owes the reply |
| SignerReplies.DroppedReplies | server/signer_hub.go:183-190 | a request that left the queue untaken was withdrawn by its returned caller and had no value, or was drained by failAll and had exactly one |
| SignerReplies.ReplyArrives | server/signer_hub.go:166-178 | a caller still in RequestSignature that nobody owes a reply has it in its channel; one that is owed has a value only from a failed write |
| SignerReplies.OneReplyWithoutWriteFailure | server/signer_hub.go:281-296 | in runs whose writes succeed a taken request has had exactly one value, none while it is owed, and no sender blocks |
| SignerTheorems.FirstInFirstOut | server/signer_hub.go:253-262 | at most one request in flight; what was appended and not dropped is what was taken, in order, then what is pending |
| SignerTheorems.StepAdvances | server/signer_hub.go:156-190 | no action undoes an append, take or drop, and none increases taken-plus-ahead for a queued request |
| SignerTheorems.NeverOvertaken | server/signer_hub.go:156-190 | over any continuation, while a request stays queued no more requests are taken than were ahead of it |
| SignerDeadlock.TwoReplies | server/handle_signer_connect.go:253-258 | a run in which a request gets two replies, so the bound of ReplyDiscipline is reached |
| SignerDeadlock.WriteFailureWedges | server/signer_hub.go:281-290 | a run in which failAll waits, holding conn.mu, for a reader that has returned |
| SignerDeadlock.WedgedForever | server/signer_hub.go:281-296 | from such a state no continuation frees the lock, and the connection's callers, its pump and every deliverer sent to it wait for good |
| SignerDeadlock.WedgedOnlyAfterWriteFailure | server/handle_account_signer.go:143-148 | such a state needs a failed write of that very request |
| SignerHub.SignerConn.Enqueue | server/signer_hub.go:149-164 | the request goes to the end of pending and notify is set; nothing else changes |
| SignerHub.SignerConn.Withdraw | server/signer_hub.go:180-190 | removes the first entry with the id, by an index search in place; inflight stays |
| SignerHub.SignerConn.TryNext | server/signer_hub.go:253-264 | takes the head exactly when the passkey is free and somebody waits, and puts it alone in flight |
| SignerHub.SignerConn.Settle | server/signer_hub.go:223-232 | removes the id from inflight and returns the request, or nothing if it is not there |
| SignerHub.SignerConn.FailAll | server/signer_hub.go:281-296 | sticks, holding the lock with pending untouched, if and only if some queued request's channel is full; otherwise every queued request gets the error and nothing stays queued |
| SignerHub.SignerConn.FailInflight | server/signer_hub.go:287-290 | the first loop, stopping at a full channel |
| SignerHub.SignerConn.FailPending | server/signer_hub.go:292-294 | the second loop, stopping at a full channel |
| SignerHub.SignerHub.Register | server/signer_hub.go:90-101 | a fresh empty connection takes the DID; the evicted one is closed, with its queue untouched |
| SignerHub.SignerHub.Unregister | server/signer_hub.go:106-119 | removes and closes only the connection that is still registered |
| SignerHub.SignerHub.BeginRequest | server/signer_hub.go:138-164 | not connected without a connection; otherwise queued at the end with a fresh empty reply channel |
| SignerHub.SignerHub.Deliver | server/signer_hub.go:214-244 | finds the request exactly when its id is in flight on the registered connection, and takes it out; then that caller's channel, and no other, holds the reply, or its sender waits at a full channel before notifying |
| SignerHub.SignerSession.OnRequest | server/handle_signer_connect.go:253-266 | a written request records its payload; a failed write answers it and ends the loop, or hangs at a full channel |
| SignerHub.SignerSession.OnResponse | server/handle_signer_connect.go:225-240 | reaches a caller exactly when the payload was recorded, the response verifies and the id is in flight, and then notifies; the payload is spent either way, and a failed verification leaves the queue alone |
| SignerHub.SignerSession.OnReject | server/handle_signer_connect.go:242-246 | a rejection reaches the caller exactly when its id is in flight, which it then is no more, and notifies |
| SignerHub.SignerSession.Close | server/handle_signer_connect.go:116-120 | leaves the hub only if still registered, then everybody queued gets the error, unless a full channel stops it |
| MerkleTree.LessIsLexicographic | server/repo.go:890-894 | keys are compared as in a dictionary: one is less if and only if it ends, or has a smaller octet, where the two part |
| MerkleTree.FoundInRange | server/repo.go:867-903 | whatever a well-formed tree finds lies strictly between its bounds and no higher than its root |
| MerkleTree.CollectPathNodeCIDs | server/repo.go:867-903 | the loop and recursion compute the path of covering children of the specification |
| MerkleTree.LowerKey | server/repo.go:879-900 | below the node's height, the covering child is the only place the key can be |
| MerkleTree.ProofSuffices | server/repo.go:809-865 | a lookup that can read only the collected nodes answers, present or absent, what the whole tree holds |
| MerkleTree.ProofMinimal | server/repo.go:867-903 | without any one of the collected nodes the lookup gets stuck at it |
| MerkleTree.ProofLength | server/repo.go:867-903 | a proof has at most one node per level |
| MerkleTree.CollectedInReadingOrder | server/repo.go:867-903 | the nodes are collected in the order in which a verifier reads them, from the root downward |
| RecordProof.ProofInReadingOrder | server/repo.go:834-857 | the whole proof comes in the order in which a verifier reads it: commit, path, record |
| RecordProof.GetRecordProof | server/repo.go:809-865 | the blocks of the commit, the path nodes and the record, in this order; fails exactly when the record is not in the tree or one of these blocks is missing, naming it |
| RecordProof.ReadBlocks | server/repo.go:834-853 | the blocks in order with their contents, or a CID that has none |
| RecordProof.RecordProofVerifies | server/repo.go:809-865 | a verifier that has only these blocks reads the record of the commit's tree |
| RecordProof.RecordProofSound | server/repo.go:809-865 | whatever blocks a verifier is given, if they are right where the store has one too, an answer is the record of the commit's tree |
| RecordProof.PathProofVerifies | server/repo.go:820-857 | with a node tree that represents the map of the write path: the proof of a path verifies to what the map holds, and no blocks prove anything else |
| MerkleTree.FindIsLookup | server/repo.go:826-832 | searching the node tree is looking up the map of its contents |
| RepoWrites.PathInjective | server/repo.go:391-396 | collection "/" rkey determines both parts, because a valid record key has no slash |
| RepoWrites.BuildInStep | server/repo.go:373-519 | after any prefix of a batch, the rows-to-be agree with the tree at every written record and both are untouched elsewhere |
| RepoWrites.IndexAgreesIff | server/repo.go:751-776 | after finalising, the record table is the new tree if and only if the batch was built on a tree that differs from the indexed one only at paths the batch wrote |
| RepoWrites.OverlapLosesUpdate | server/repo.go:352-371 | two batches on one root: the first record is lost from the tree but stays in the table |
| RepoWrites.OneTreeOp | server/repo.go:390-518 | a write does at most one tree operation, recorded with the value it found and the one it left |
| RepoWrites.FirehoseReplays | server/repo.go:559-574 | replaying the announced operations strictly over the old tree gives the new one: creates of absent paths, updates that change, deletes that name what goes |
| RepoWrites.AnnouncedInOrder | server/repo.go:559-574 | each tree operation that changes something is announced exactly once, in order, with its path, its kind and its CID; nothing else is announced |
| RepoWrites.StrandedRowsIff | server/repo.go:751-768 | rows written while the root stays keep table and tree in agreement if and only if at every record they touch they end at what the tree has |
| RepoWrites.DistinctRowsHarmless | server/repo.go:751-768 | for rows of different records that is: each row is what the tree has already |
| RepoWrites.NothingToCommit | server/repo.go:537-547 | as many rows as tree operations and one result per write of a known type; with no tree operation the tree is unchanged, so skipping the commit is right |
| RepoContents.StoresLastWrite | server/repo.go:374-518 | the last write that names a path decides: after a create or update, tree and row hold the block of the record it came with, at collection "/" rkey, encoded as an update exactly when it is one or the path was there; after a delete, neither has the record, if the table had a row for it only if the tree had the path |
| RepoContents.KeepsUnnamed | server/repo.go:374-518 | over any stretch of a batch, a path that no write names keeps its value in the tree and its row |
| RepoContents.GeneratedKeysDiffer | server/repo.go:384-388 | creates without a record key take successive numbers of the clock, so no two get the same key |
| RepoContents.ResultsInOrder | server/repo.go:438-518 | one result per write of a known type, in order: for a create or update its kind, coordinates and the CID it left |
| RepoContents.DeletesCarryRows | server/repo.go:454-465 | the entry of a delete carries the row that the table had |
| RepoContents.BuildsIff | server/repo.go:373-519 | a batch can be built if and only if every update and delete names its record key, all keys are valid, every create and update has its record, and no library call that is needed fails |
| RepoContents.FirstFaultAnswers | server/repo.go:373-519 | otherwise the first write that cannot be done decides the error, or the panic |
| RepoContents.NothingDoneIff | server/repo.go:447-452 | there is nothing to commit if and only if all writes are deletes of absent records or of unknown type |
| RepoCache.CacheStaysCoherent | server/repo.go:62-93 | after any uses by readers and writers, none of which changed the tree and then panicked, a cache entry with a root holds that root's tree |
| RepoCache.SeesItsRoot | server/repo.go:62-93 | then a function run at a defined root sees exactly the tree openRepo would load |
| RepoCache.ReadersSafeIff | server/repo.go:71-92 | after a use, every later reader at a defined root sees its own tree if and only if the use returned an error, Undef, or the root of the tree it left behind, or panicked with the tree of its root unchanged |
| RepoCache.UndefSeesLeftovers | server/repo.go:528-535 | an undefined root would be served the last writer's uncommitted tree |
| RepoWrites.RecordsPreventPanic | server/repo.go:400-518 | a batch whose creates and updates all carry their record never panics |
| RepoRuns.BatchIsUse | server/repo.go:371-535 | what a batch does to its cache entry is a use as above, and a disciplined one if and only if no panic follows a change of the tree |
| RepoRuns.BatchReadersSafeIff | server/repo.go:71-92 | after a batch on a coherent entry every later reader sees its own tree if and only if the batch did not panic, or the writes before left every path they touched as the tree had it |
| RepoRuns.PanicLeavesTree | server/repo.go:400-402 | a create with and a create without a record: the account is unchanged and the cache hands out a tree that is stored nowhere |
| RepoRuns.RecordlessWriteBreaks | server/repo.go:478-480 | the next create then commits the leftover: index and tree disagree, and a subscriber with the stored tree does not arrive at the new one |
| RepoRuns.BatchAgreesIff | server/repo.go:371-807 | from agreement, on whatever tree the cache hands out: a commit keeps index and tree in agreement if and only if that tree differs from the stored one only at records the batch writes; a batch that fails at the rows, if and only if the rows left behind are what the stored tree has; any other ending always |
| RepoRuns.NextBatchHealsIff | server/repo.go:751-776 | after rows left behind, the next commit restores agreement if and only if it writes every record at which they differ from the tree |
| RepoRuns.IndexAlwaysAgrees | server/repo.go:644-807 | after any reads and non-overlapping batches the record table is exactly the tree at the stored root and the cache is coherent, as long as no panic left a changed tree and no database failure a differing row |
| RepoRuns.PlainIsCareful | server/repo.go:371-794 | two checks suffice for that: every create and update carries its record, and the database does not fail |
| RepoRuns.BatchAnnounces | server/repo.go:695-792 | a batch sends at most one event; it names the predecessor's revision and leads from the tree the cache handed out to the tree built, and the stored root moves with it unless storing the root failed |
| RepoWrites.ReplayElsewhereIff | server/repo.go:559-574 | operations made for one tree take a strict subscriber with another tree to the same result if and only if wherever the two differ they begin with an update to a third value |
| RepoRuns.SubscriberFollowsIff | server/repo.go:778-792 | hence exactly when a subscriber with the stored tree can follow a batch built on what the cache handed out |
| RepoRuns.FirehoseFollowsRoot | server/repo.go:778-792 | a subscriber following all events arrives at the tree of the stored root through an unbroken chain of revisions, if no event was lost, no root failed to be stored after its event, and no panic left a changed tree |
| RepoRuns.RootFailureMisleads | server/repo.go:778-796 | when storing the root fails after the event, the subscriber still has the stored tree if and only if the batch left every path it touched as the tree had it |
| RepoRuns.RootNeedsSignature | server/repo.go:617-637 | the account changes only for a commit whose signature verifies under its key, and its root only to that commit; an error or panic never moves the root, and without a database failure changes nothing of the account |
| RepoAnswers.BatchSucceedsIff | server/repo.go:352-638 | a batch succeeds if and only if the commit can be opened, every write can be done, and, unless there is nothing to commit, the signature verifies under the account's key over the unsigned commit and nothing fails to be stored |
| RepoAnswers.SuccessTells | server/repo.go:537-807 | a success tells, in order, what each write left, with the root and revision the account now has: those of the new commit, with all rows and the event in place, or the old ones if nothing was to do |
| RepoAnswers.ErrorTells | server/repo.go:371-638 | each error if and only if the batch got just so far: not opened, not built, not signed, badly signed, not stored |
| RepoAnswers.FailureLeaves | server/repo.go:751-796 | nothing is rolled back: a database that fails at a row leaves exactly the rows before it, one that cannot store the root all rows and the event; the root stays |
| RepoAnswers.LostEventAlone | server/repo.go:778-792 | an event that cannot be added changes neither the answer nor anything else |
| RepoAnswers.WhoReloads | server/repo.go:74-92 | after a read, later uses at its root need not read the commit; after a batch that ran to its end they must |
| RepoAnswers.ReadTellsRow | server/repo.go:820-833 | after any careful run, a read at the stored root answers the CID of the record's row, or an error if the table has none, the commit cannot be opened or a block cannot be read |
| RepoAnswers.ReadYourWrites | server/repo.go:798-833 | after a successful batch, reading a path answers the very CID the client was told for the last write of it, and an error after a delete |
| RepoManager.RepoMan.constructor | server/repo.go:51-60 | an empty cache, valid |
| RepoManager.RepoMan.OpenRepo | server/repo.go:62-81 | the entry handed out is the cached one at this root, or freshly opened; it fails only if the commit cannot be read, and other accounts keep their entries |
| RepoManager.RepoMan.WriteStep | server/repo.go:374-518 | one loop body on the mutable tree has the effect of the write function; an error, or the panic on a missing record, leaves the tree as it was; a number is taken from the clock exactly for a create without a record key |
| RepoManager.RepoMan.BuildTree | server/repo.go:371-519 | the loop over the writes, on the mutable tree, builds what the batch function says or stops with its error or panic, the tree left as the last write made it and one number taken for each keyless create begun |
| RepoManager.RepoMan.CloseRepo | server/repo.go:83-92 | an error empties the entry, Undef keeps the tree without a root, a panic keeps both |
| RepoManager.RepoMan.BuildUnsigned | server/repo.go:371-535 | phase 1 under withRepo, on the tree the cache hands out, with the entry afterwards in every ending |
| RepoManager.RepoMan.Finalise | server/repo.go:537-807 | phases 2 to 5 end in the account and answer of the finishing function, database failures included, and a new root is readable |
| RepoManager.RepoMan.RepoOps | server/repo.go:695-736 | the loop builds the announced operations |
| RepoManager.RepoMan.WriteRows | server/repo.go:751-768 | the loop applies the upserts and deletes in order, up to the row at which the database fails |
| RepoManager.RepoMan.ApplyWrites | server/repo.go:352-638 | the whole call, on the mutable cache: answer, account and cache entry are those of the batch function in every ending, the numbers taken from the clock are not given again, and other accounts are untouched |
| RepoManager.RepoMan.GetRecord | server/repo.go:820-860 | a reader gets the record of the tree the cache hands out; a missing record or an unreadable block empties the entry, and other accounts are untouched |
| CborScan.ExtractCBORLinks | server/handle_sync_get_repo.go:122-187 | the scanning loop, with every index in range, reports exactly the hits of the specification, in order |
| CborScan.LinkAt | server/handle_sync_get_repo.go:129-183 | the loop body with its early exits |
| CborScan.ContentAt | server/handle_sync_get_repo.go:140-165 | the three length forms, with every read in range |
| CborScan.LinkFoundIff | server/handle_sync_get_repo.go:144-183 | an encoded link anywhere in a block is reported at its index if and only if the CID is accepted, not empty and its byte string is shorter than 64 KiB |
| CborScan.ScannerComplete | server/handle_sync_get_repo.go:119-187 | for every DAG-CBOR value, all its scannable links are reported in order |
| CborScan.ScannerExactIff | server/handle_sync_get_repo.go:119-187 | nothing else is reported if and only if every index at which the scanner reports something is the position of a link |
| CborScan.ExactForAllIff | server/handle_sync_get_repo.go:128-187 | whatever is accepted as a CID, the scanner is exact if and only if the octets have tag 42 with a complete byte string of two octets or more only where links start, a check on the block alone |
| CborScan.LinkCovered | server/handle_sync_get_repo.go:107-112 | each scannable link of a value is among the reported ones |
| CborScan.ReportedIsShort | server/handle_sync_get_repo.go:148-183 | what is reported is an accepted CID shorter than 64 KiB |
| CborScan.LongLinkMissed | server/handle_sync_get_repo.go:163-165 | a longer link is not reported at all |
| CborScan.ScannerOvershoots | server/handle_sync_get_repo.go:119-121 | a byte string that looks like a link is reported although the value has none |
| CarExport.ReachableInClosed | server/handle_sync_get_repo.go:83-117 | a set with the root that is closed under links holds all that is reachable |
| CarExport.WriteRepoBlocks | server/handle_sync_get_repo.go:83-117 | terminates; fails if and only if a reachable block is missing; on success writes each reachable block once and nothing else, the root first, each after one that links to it, in the order of first mention |
| CarExport.TrueLinksCovered | server/handle_sync_get_repo.go:105-113 | every block truly linked from the root through scannable links is reachable for the walk |
| CarExport.WalkIsTrueIff | server/handle_sync_get_repo.go:105-113 | if the blocks the walk can reach are encoded values with scannable links, it follows exactly the true links if and only if none of them has look-alikes |
| CarExport.ExportIsTrueDag | server/handle_sync_get_repo.go:80-117 | if these blocks have tagged byte strings only at their links, a successful export is exactly the true DAG, each block once, in order of first mention, whatever else the store holds |
| CarExport.LookAlikeExported | server/handle_sync_get_repo.go:107-112 | a block with a look-alike and no links still brings the look-alike's block into the walk |
| EventLog.RoundTripIff | server/persist.go:189-249 | decoding an encoded event gives its deciding payload, and the event itself if and only if it had just one |
| EventLog.StampedKeepsMeaning | server/persist.go:82-101 | numbering an event changes the deciding payload's number and nothing that decides its kind |
| EventLog.PersistTells | server/persist.go:82-114 | a stored row decodes to the event that was broadcast, which carries the row's own number and DID |
| EventLog.PersistAppends | server/persist.go:76-118 | in a sound log the next number is free, and the row goes to the end |
| EventLog.BaseKept | server/persist.go:51-187 | persists, cleanups and restarts that resume high enough keep the log sound |
| EventLog.SafeRunsKeepOrder | server/persist.go:51-125 | over any run whose restarts resume at or above every stored number, numbers ascend and the broadcast stream is the stored one |
| EventLog.RestartSafeIff | server/persist.go:51-61 | the first row after a restart keeps the order if and only if the restart resumed at or above the newest stored number |
| EventLog.SequenceSafety | server/persist.go:32-187 | with a clock that never falls back, and a second for each number taken before a restart on an empty log, counted from the second in which the numbering started, numbers ascend over every run and the broadcast stream is the stored one |
| EventLog.EmptiedLogReuses | server/persist.go:56-58 | a burst, a cleanup of everything and a restart reuse a number exactly when more numbers were taken than seconds passed, counted from the second in which the log started |
| EventLog.SeedIsUnixTime | server/persist.go:56-58 | a fresh log starts from the Unix time in whole seconds, with nothing stored or sent |
| EventLog.EveryAttemptTakesOne | server/persist.go:76-77 | while a process lives, each attempt to persist an event takes exactly one number, also if no row comes of it |
| EventLog.RestartContinues | server/persist.go:59-61 | a process that finds rows gives the number after the last of them next |
| EventLog.BackwardClockReuses | server/persist.go:181-183 | after a clock fall-back the cleanup may drop the newest row alone, and a restart reuses its number |
| EventPersister.PageRows | server/persist.go:132-139 | a page is ascending, above the cursor, at most 500 rows, and leaves out only rows above its last |
| EventPersister.PagesAscend | server/persist.go:127-162 | whatever changes between pages, rows come strictly ascending and each from a table read |
| EventPersister.PagesComplete | server/persist.go:127-162 | a row present at every query is read, if playback ends |
| EventPersister.FixedLogPages | server/persist.go:127-162 | on an unchanging log of any size playback ends and reads exactly the rows above the cursor |
| EventPersister.DeliverPrefix | server/persist.go:145-156 | rows are called back in order from the first, all of them unless a callback or decoding fails |
| EventPersister.DeliverStops | server/persist.go:145-156 | playback is stopped by a callback exactly when the last one called refused, by a row exactly when the next one cannot be decoded, and names it; every callback before had accepted |
| EventPersister.SoundHistory | server/persist.go:127-162 | tables of sound logs are ascending and each row decodes to an event with its number |
| EventPersister.PlaybackAscends | server/persist.go:127-162 | events called back carry strictly ascending numbers above `since` |
| EventPersister.PlaybackComplete | server/persist.go:127-162 | a finished playback has called back every row above `since` that was there throughout |
| EventPersister.PlaybackIsFilter | server/persist.go:127-162 | on a fixed log with willing callbacks, playback is the filter seq > since, in order, and ends |
| EventPersister.DbPersister.constructor | server/persist.go:32-66 | resumes from the last stored number, or, for an empty log, from the clock reading in nanoseconds divided by 10^9; retention defaults to 72 hours |
| EventPersister.DbPersister.Persist | server/persist.go:72-125 | a number is used up in every case; a row and a broadcast follow exactly when type, encoding and insert succeed |
| EventPersister.DbPersister.Cleanup | server/persist.go:181-183 | deletes exactly the rows older than the retention |
| EventPersister.DbPersister.Playback | server/persist.go:127-162 | the nested loops call back what the specification over the table's history says, with its outcome |
| EventPersister.DbPersister.PlayPage | server/persist.go:145-156 | the callbacks of one page, stopping at the first failure |
| DpopNonce.Interval | oauth/dpop/nonce.go:33-40 | never zero, at most a third of the maximal age, positive when no negative one is asked for, and that one when it is |
| DpopNonce.WindowAlwaysComputed | oauth/dpop/nonce.go:73-95 | after calls at any clock readings, backward and leaping ones included, the shifted window is the one computed for the last reading |
| DpopNonce.AcceptedIff | oauth/dpop/nonce.go:97-109 | a nonce is accepted if and only if the clock reads the interval of issue or one of the next two |
| DpopNonce.NonceLifetime | oauth/dpop/nonce.go:33-63 | the instant a nonce dies, and its life in terms of what was asked for: accepted for twice the interval and rejected after three times if it is at most 60 s, 40 s and 60 s if none is asked for, 120 s and 180 s if more than 60 s |
| DpopNonce.NonceDies | oauth/dpop/nonce.go:33-63 | for every interval: the same in units of the interval in use, hence never beyond the maximal age |
| DpopNonce.BackwardClockRejects | oauth/dpop/nonce.go:73-95 | with the clock behind the issue, accepted exactly within the interval of issue |
| DpopNonce.Nonce.constructor | oauth/dpop/nonce.go:33-59 | default and clamp of the interval, and the window of the current counter |
| DpopNonce.Nonce.Rotate | oauth/dpop/nonce.go:73-95 | the in-place rotation is the shift, and the window stays the computed one |
| DpopNonce.Nonce.NextNonce | oauth/dpop/nonce.go:97-102 | hands out the value of the next counter |
| DpopNonce.Nonce.Check | oauth/dpop/nonce.go:104-109 | accepts exactly the values of the previous, current and next counter |

## Left out

- Library calls (CBOR, JSON, base64, CID parsing, hashes, HMAC, signature and WebAuthn checks, TIDs) are function parameters; lemmas name what they need of them: decoding what was encoded, injective HMACs, a commit CID that determines its tree.
- Request ids are unique by construction, as UUIDs are meant to be; a `RequestSignature` call without a connection leaves no trace in the protocol.
- Fairness is not modelled, so that a prompt is given in the end is not stated; SignerProgress.PromptWithinFour says that it is always at most four server steps away. A pump that is handing over a request waits for its socket loop. After a failed verification or a timeout of a sent request the slot stays taken, as in the code.
- Ping, pong and token tickers, the bearer and cookie checks and the upgrade are part of the free environment: a loop may leave at any time.
- SignerHub.SignerConn.FailAll: reports that it sticks at a full channel where the code would block; requests in one connection have channels of their own, as BeginRequest gives them.
- SignerHub.SignerHub.BeginRequest: ends where RequestSignature blocks; the waiting is in the protocol, and the loop of NextRequest around TryNext likewise.
- The tree of the write path is a map; the node operations of the MST library, the block writes of a commit diff and the CAR slice of an event are not part of this model.
- Heights are stored in the blocks of a proof; the real encoding derives them from the keys. Shared key prefixes are expanded.
- RepoRuns.IndexAlwaysAgrees: calls do not overlap; for overlapping ones see RepoWrites.IndexAgreesIff.
- RepoManager.RepoMan.GetRecord: is getRecordProof as far as the cache goes; the blocks are in RecordProof.GetRecordProof.
- RecordProof.PathProofVerifies: that the node tree the MST library keeps represents the map of the write path, and is well-formed, is a premise.
- Record rows have no creation time, and the clock numbers drawn for it are not counted; results have no URI; and blob reference counts are not modelled: updates never decrement them, so no counting invariant is kept.
- RepoWrites.ValidRecordKey is the record key syntax of the AT Protocol specification; the library function that checks it, syntax.ParseRecordKey, is not part of this model.
- The default of `$type` on a create is inside the encoding parameter of the library.
- The order of CAR header and blocks is modelled; their octets are not.
- EventLog.SequenceSafety: the hourly ticker is not modelled; a cleanup may happen at any time.
- EventPersister.DbPersister.Persist: the database's answer to the insert is a parameter, except that a number in use is always refused.
- EventPersister.DbPersister.Playback: the table's contents at each query are a parameter, and a query beyond the given history fails.
- Sequence numbers, counters and clock readings are unbounded integers; 64-bit overflow is not modelled.
- OAuth grants, the DPoP proof and jti cache, account, e-mail and invite handlers, templates and the browser script would add only single-branch checks or I/O.
