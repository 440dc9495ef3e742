# A verified model of the vault's protocols

This project models the parts of the repository that have to be right under crashes, lost answers, hostile
answers and interleavings, and proves what they promise. Each module names the source files it models.

## The modules

- `CommitErrors`, `CommitProtocol`, `RotationBodies`, `CommitHost`: the key rotation of an enrolled device.
  `CommitProtocol` is a state machine of device file, device memory, server, network and other devices;
  `RotationBodies` says what the bodies that leave are built on; `CommitHost` is the device's own code as a class, each
  method moving only by steps of that machine.
- `Signup`: a signup and its stage-2 file.
- `CacheRows`, `CacheFloors`, `CacheDb`, `CacheLifecycle`: the cache file. The SQL statements with their guards,
  the unguarded reference executor, the floors every changeset passes first, the executor as a class that
  changes rows in place, and what any run of changesets keeps.
- `Uploads`, `UploadGate`, `UploadLife`, `UploadProgress`, `UploadStuck`, `UploadHost`: the upload of own ops against a
  server that may be restored from a backup; the state machine, the rules by which the code takes its steps, the lives
  of devices that keep to them, when they get everything acknowledged and when not, a run that gets stuck, and the
  device's code as a class, every method of which moves by those rules.
- `VersionVectors`, `Compaction`, `CompactionWorker`, `CompactionStore`: the server's compaction rules over sets,
  the algorithms with their counters and sorted rows, and the rows of one item as a class.
- `CausalLog`, `ChainCheck`, `ChainCommit`, `CoverPlans`, `ServedLinks`, `ServedAnswers`, `VaultLogs`, `LogRuns`,
  `VouchedBodies`: the per-device chains of a vault, causal delivery, the two passes of the chain check and
  revocation. `CausalLog.Kept` is the invariant; it ties the log to a history of what was absorbed, written, delivered
  and revoked, and the promises are about that history. `VaultLogs.VaultLog` is the log as a class, `LogRuns` its runs; `ServedLinks` and `VouchedBodies` say where
  the links and the delivered bodies come from, `ServedAnswers` what becomes of everything served.
- `RequestWindow`: the counter window of signed requests.
- `AccountPin`: the account answer against the pin.
- `Clipboard`, `CoreWorker`: the web vault's clipboard guard, core Worker and client, from one await to the next.
- `Der`, `DerStructure`, `Cbor`, `CborForms`: the X.509 walk and the CBOR reader, each with an encoder of the same
  format, the structure behind a positive verdict of the walk, and the byte forms behind a value the reader returns.

None of the invariants is vacuous: `CausalLog.EmptyIsKept`, `CommitProtocol.InitIsReachable` and
`Uploads.InitIsReachable` show that the states a device starts from meet them, and the constructors of the classes
begin there.

## What is assumed

- Cryptography is ideal: a signature is the key that made it, a hash is what was hashed, an envelope is its key,
  context and content.
- Commit protocol: a request is applied only between its send and its outcome. A refusal is trusted less than
  the client trusts it: a refused body may have been applied, as long as no other device commits before the
  re-read. `CommitProtocol.RereadMustComeFirst` shows that this condition is needed and exact, and
  `CommitProtocol.LateCopyNeedsTheRecord` says what a copy that arrives later does.
- Upload protocol: a request is handled at most once, between its send and its outcome; every restore draws a
  generation never drawn before; nobody rolls the device file back. Ops are numbered by their position in the
  chain.
- Signup: the server is not restored from a backup during a signup. Copies of a body may arrive at any later time.
- The reads, network answers, clocks, random draws and permissions of the environment are parameters or
  nondeterministic choices. The host classes of the commit protocol, the signup and the upload have a constant `calm`:
  where it is false anything may go wrong at any moment; where it is true nothing does, and the contracts say what each
  method then achieves.

## Where code and documentation disagree

`send_rotation` abandons the pending record when the rebuild limit is reached
(crates/rizzy-cli/src/device.rs:1739-1823), while docs/adr/0025-rotation-vault-half.md (section 2, step 5) and
the comments at crates/rizzy-client/src/rotation.rs:48 and :1114 say that it stays. The model follows the code;
`CommitProtocol.ConflictDropsTheRecord` says exactly when the record goes, `CommitProtocol.LimitIsReached` is a run in
which the documented promise fails, and the record that goes is never one the server applied.

## Where the code gets stuck

docs/adr/0021-server-compaction.md (section 9, "Stale epoch") has an op that may have been served re-published, and the
others issued again. The code issues nothing again while one stale op waits to be re-published
(crates/rizzy-client/src/sync.rs:1632-1737), and re-publishes nothing behind an op that was surely never stored
(crates/rizzy-client/src/sync/heal.rs:368-396). Two stale ops in the wrong order therefore wait for each other, in this
process and in every later one, until the server is restored again. `UploadStuck.GetsStuck` is such a run;
`UploadProgress.FinishesUnlessBlocked` is the exact condition, and names the one other obstacle, a loss that does not
fit into one healing request.

## Model

| member | source | states |
|---|---|---|
| CommitErrors.ReadingsExcludeEachOther | crates/rizzy-cli/src/error.rs:153-194 | Of one answer to a commit at most one reading holds: refused, restart the registration, outcome unknown. Only a parsed API error is ever a refusal, and every API error has a reading but the two that only ask to log in or to wait. |
| CommitProtocol.OtherCommitsKeepsInv | crates/rizzy-domain-auth/src/store.rs:374-396 | Another device's compare-and-swap on `state_seq`, at any moment, keeps the invariant of the protocol. |
| CommitProtocol.ServerAppliesKeepsInv | crates/rizzy-domain-auth/src/change.rs:242-332 | What the server applies of this device is the body on disk, and no body of that rotation was applied before; a byte-identical repeat changes nothing. |
| CommitProtocol.PendingAppliedIsExact | crates/rizzy-cli/src/device.rs:1571-1604 | The settling rule, which sees only the current state and the grants, says "applied" if and only if the server committed the pending body, however many commits and rotations came after it. |
| CommitProtocol.StepKeepsInv | crates/rizzy-cli/src/device.rs:1739-1835 | Every atomic step of device, file, server, network and other devices, crashes included, keeps the invariant. |
| CommitProtocol.RunKeepsInv | crates/rizzy-cli/src/device.rs:1314-1432 | The invariant holds in every state of every run. |
| CommitProtocol.NeverLockedOut | crates/rizzy-cli/src/device.rs:1266-1270 | In every reachable state every applied rotation of this device is finalised or pending in the file, and the current account key can be reached from the file through the grants. |
| CommitProtocol.OneBodyAppliedAndAllFromDisk | crates/rizzy-cli/src/device.rs:1713-1823 | Across rebuilds, resends and crashes at most one body of one rotation is ever applied, and every body that left was the pending commit on disk when it left. |
| CommitProtocol.SettlingIsExact | crates/rizzy-cli/src/device.rs:1571-1604 | The exactness of the settling rule, for every state of every run. |
| CommitProtocol.RetryNeverAlarms | crates/rizzy-client/src/rotation.rs:1117-1179 | Against an honest server the `state_conflict` rule never takes the device read-only, whatever was committed in between. |
| CommitProtocol.RereadMustComeFirst | crates/rizzy-cli/src/device.rs:1810-1819 | After a refusal of a body that was applied all the same, the re-read finds it if and only if no other device committed in between; otherwise dropping the record would lose the only copy of an applied key. This is the exact condition for trusting a refusal. |
| CommitProtocol.AlwaysSettles | crates/rizzy-cli/src/device.rs:1314-1432 | No reachable state is a dead end: from every one, whatever was under way, a process that starts again and is answered reaches a state with nothing pending and a record that wraps the server's current key. An unapplied body is resent: it joins the history where the server still accepts it, and is dropped after the refusal otherwise; the history is not changed in any other way. |
| CommitProtocol.ConflictDropsTheRecord | crates/rizzy-client/src/rotation.rs:1117-1179 | After a `state_conflict` the record is dropped if and only if the state is not the body's and the retry has to start again, the rebuild limit is reached, or the rebuild cannot be built; it stays untouched otherwise. |
| CommitProtocol.LimitDropsTheRecord | crates/rizzy-cli/src/device.rs:1739-1823 | The state for which the documented promise fails: at the rebuild limit, a device set changed by another device is enough for the record to go. |
| CommitProtocol.LimitIsReached | crates/rizzy-cli/src/device.rs:1739-1823 | That state is reached: from every enrolled device there is a run that loses the race, is rebuilt up to the limit and loses again, and drops the record. |
| CommitProtocol.LateCopyNeedsTheRecord | crates/rizzy-cli/src/device.rs:1266-1270 | Outside the assumption on the transport: a copy of a body that left, applied after its outcome in any state of the protocol, leaves the device its keys if and only if the record of that body is still pending. |
| CommitProtocol.RefusedLoginMissesTheCopy | crates/rizzy-cli/src/device.rs:1314-1432 | The run that shows it: a login refused at a restart drops the record of a body of which a copy may still arrive; when it does, the current key cannot be reached from the file. |
| RotationBodies.EveryBodyIsBuiltOnAHeldState | crates/rizzy-client/src/rotation.rs:840-887 | In every run every body that ever left was computed on one state the server held before: one above its `stateSeq` and epoch, with its device set, and with the half of the vaults as they were in that same moment. |
| RotationBodies.BodiesOfARotationAgree | crates/rizzy-client/src/rotation.rs:1163-1173 | All bodies of one rotation carry the same new key and the same changes, however often it was rebuilt. |
| RotationBodies.OwnCommitsKeepTheDeviceSet | crates/rizzy-client/src/rotation.rs:1117-1179 | In every run each state this device committed differs from the one before it in the two numbers, the key and its own changes alone: the device set is that of the state before, so no enrolment or removal made elsewhere is lost. |
| RotationBodies.RebuiltIsTaken | crates/rizzy-client/src/rotation.rs:1117-1179 | In every run a rebuilt body is one the server takes now, one rebuild further. |
| RotationBodies.ConflictFacts | crates/rizzy-client/src/rotation.rs:1117-1179 | In every reachable state: the rule finds the body committed exactly when the served state is the body's; it rebuilds exactly within the limit when nothing but `stateSeq` and device set differs from the base; the rebuilt body is built on the served state. |
| CommitHost.Host.PersistRotation | crates/rizzy-cli/src/device.rs:1713-1723 | Record and exact body are on disk, in one transaction, before anything is sent. |
| CommitHost.Host.SendRotation | crates/rizzy-cli/src/device.rs:1739-1823 | The send loop with at most `MAX_REBUILDS` rebuilds: on success the server holds a body of this rotation, with its key and its changes; a failure leaves the pending record exactly unless the last answer was a refusal and the account could be read after it, and then no body of the rotation was ever applied. When nothing goes wrong it succeeds exactly when the first body is taken or the retry rule can rebuild it. |
| CommitHost.Host.CommitLanded | crates/rizzy-cli/src/device.rs:1827-1835 | The re-read answers whether the stored body was applied, exactly. |
| CommitHost.Host.AnswerConflict | crates/rizzy-client/src/rotation.rs:1117-1179 | The retry rule on the state now served: a rebuild within the limit, which is built on what the server holds now, its device set and its vaults included, and which the server would take now; the body found committed; read-only with the record kept; or a give-up that is safe to abandon. When nothing goes wrong, which of these is exact. |
| CommitHost.Host.AbandonPending | crates/rizzy-cli/src/device.rs:1266-1270 | Drops the record only where the server holds nothing of the rotation. |
| CommitHost.Host.FinishRotation | crates/rizzy-cli/src/device.rs:1845-1868 | The new state becomes the record and the pending record goes, in one transaction; on a crash neither. |
| CommitHost.Host.BuildRotation | crates/rizzy-cli/src/device.rs:1642-1704 | A rotation starts exactly when the account still has the key and epoch the device holds; its first body is built on the current state and vaults, under a key drawn for it alone, and the server would take it now. |
| CommitHost.Host.Rotate | crates/rizzy-cli/src/device.rs:1613-1634 | A rotation that reports success left a record wrapping the key the server applied, and nothing pending. When nothing goes wrong it succeeds exactly when the account still has the key of the record, and adds one state; otherwise it changes nothing. |
| CommitHost.Host.SettlePending | crates/rizzy-cli/src/device.rs:1314-1432 | A start with a pending record ends settled, or fails with the file unchanged; an applied body ends as the record. When nothing goes wrong it settles, and the body is in the history exactly if it was before or the server takes it now. |
| CommitHost.Host.Settled | crates/rizzy-cli/src/device.rs:1571-1604 | What settling concludes is what the server did. |
| CommitHost.Host.ResendPending | crates/rizzy-cli/src/device.rs:1510-1526 | A resend ends with the body held by the server, or dropped because it was never applied; when nothing goes wrong it is held exactly when the server takes it. |
| CommitHost.Host.Promote | crates/rizzy-cli/src/device.rs:1314-1432 | The pending keys become the device's in the transaction that adopts the answer; it succeeds when nothing goes wrong. |
| CommitHost.Host.Online | crates/rizzy-cli/src/device.rs:737-782 | A start that succeeds leaves nothing pending, and the server's state as the record unless a pending body was dropped; one that cannot read the account's state and had nothing pending leaves the file as it was. When nothing goes wrong it succeeds. |
| CommitHost.Host.Live | crates/rizzy-cli/src/device.rs:737-782 | A device used for any number of commands, each cut short anywhere: it is never locked out. |
| Signup.AnswersProve | crates/rizzy-domain-auth/src/signup.rs:159-246 | What each answer of `register/finish` proves, however late the copy arrived: done means registered with this content, a refusal means unchanged, `setup_retired` means that no copy under this setup can be registered any more. |
| Signup.SignupRun.Receive | crates/rizzy-domain-auth/src/signup.rs:159-286 | One copy handled by the server, in the order of its checks. |
| Signup.SignupRun.World | crates/rizzy-domain-auth/src/signup.rs:159-246 | Copies still on the way reach the server and setups are retired at any moment, and the invariant of the signup stays. |
| Signup.SignupRun.Post | crates/rizzy-cli/src/enrol.rs:237-299 | A body leaves only while it is the file's; `setup_retired` or a first refusal proves that nothing of the signup was or will be registered. When nothing goes wrong the server handles it once, and its answer arrives. |
| Signup.SignupRun.SignUp | crates/rizzy-cli/src/enrol.rs:237-299 | The stage-2 file comes before the commit and goes again only when no body of this signup was ever applied and no copy is on its way; an open outcome keeps it, and a success finalises it. When nothing goes wrong it succeeds with the body built under the current setup. |
| Signup.SignupRun.RestartPendingSignup | crates/rizzy-cli/src/device.rs:219-253 | A body refused for its retired setup is rebuilt, stored over the old one and resent, and never leaves the device without a file; when nothing goes wrong the new body is registered under the current setup. |
| Signup.SignupRun.Open | crates/rizzy-cli/src/device.rs:388-451 | Opening a stage-2 file never removes it, and finalises it exactly when it reports success; when nothing goes wrong it succeeds, with what was registered before, the stored body, or a new one if the setup of that body was retired. |
| Signup.Live | crates/rizzy-cli/src/enrol.rs:155-299 | Over a whole life of a signup, with any number of later runs: what was registered is in the file or finalised, at most one body was ever applied, and every body that left was on disk. When nothing goes wrong the first body is registered and the file finalised. |
| CacheRows.BlobOrderIsNumeric | crates/rizzy-cli/src/db.rs:62-68 | SQLite's byte order on blobs of one length is the order of the big-endian numbers, so the counter guard compares numbers. |
| CacheRows.PutWrapsOverwrites | crates/rizzy-client/src/store/rows.rs:560-706 | Replacing a wrap set leaves the same rows whether the replaced rows go first or not. |
| CacheRows.SetIsReplaced | crates/rizzy-client/src/store/rows.rs:575-596 | After a device-set write, in either executor's statement, an object of these kinds is there if and only if the write lists its device, with the wire of the last one listed; nothing else changed. |
| CacheRows.WrapsAreReplaced | crates/rizzy-cli/src/db.rs:94-98 | After a wrap-set write the listed wraps are held, the older ones of the vault are gone and every other one is as it was. |
| CacheRows.SqlChanges | crates/rizzy-cli/src/db.rs:548-781 | Of every kind of write that runs: which row it changes and to what, and that no other row changes. A grant keeps the generation of its vault; an op put again keeps what it has and is filled up; an own row moves on and keeps the generation of its first send. |
| CacheRows.SqlIsTheReference | crates/rizzy-cli/src/db.rs:548-781 | A write the SQL guards let through does what the unguarded reference executor does if and only if it is none of the listed divergent writes. |
| CacheFloors.AdmittedWriteRuns | crates/rizzy-client/src/store/floors.rs:373-604 | A write that passes the floors meets no refusing SQL guard, and the moved index is again the index of the tables. |
| CacheFloors.AdmittedAsTheGuardsAre | crates/rizzy-client/src/store/floors.rs:373-604 | A write passes the floors if and only if every SQL guard lets it through, the two executors agree on it, it stays within its vault, and it follows the rules that no SQL guard has. |
| CacheFloors.CheckedWritesRun | crates/rizzy-client/src/store/floors.rs:260-309 | The same for any sequence of writes: the fold of the guarded writes is the fold of the reference. |
| CacheFloors.AdmittedChangesetsRun | crates/rizzy-client/src/store/floors.rs:260-309 | An admitted changeset never fails at a guard, and leaves what the reference executor says. |
| CacheDb.OneMoreWrite | crates/rizzy-cli/src/db.rs:316-333 | Running one more write of a changeset is running it after the fold of those before; a refusal refuses the whole. |
| CacheDb.CacheDb.Create | crates/rizzy-cli/src/db.rs:260-291 | A file is created only where there is none and only with its whole first changeset. |
| CacheDb.CacheDb.Apply | crates/rizzy-cli/src/db.rs:548-781 | One write inside the transaction is the row transition of its SQL statement, guard included, and changes the rows it names, to what it says, and no others; refused, it changes nothing. |
| CacheDb.CacheDb.WriteOp | crates/rizzy-cli/src/db.rs:99-128 | The statements on `ops`: put, re-issue, sent, acknowledged, prune, each with its guard. |
| CacheDb.CacheDb.WriteSnapshot | crates/rizzy-cli/src/db.rs:117-135 | The statements on `snapshots` with their guards. |
| CacheDb.CacheDb.PutMeta | crates/rizzy-cli/src/db.rs:62-68 | A counter row moves up only, a set-once row never changes. |
| CacheDb.CacheDb.PutDeviceSet | crates/rizzy-cli/src/db.rs:87-88 | The device set is replaced whole, row by row: afterwards there is a certificate exactly of each device the write lists, with the wire of the last one listed, likewise the revocations; every other object is as it was. |
| CacheDb.CacheDb.PutWrapSet | crates/rizzy-cli/src/db.rs:94-98 | Older wraps go and the new set comes, row by row: a listed wrap is held as listed last; of the others exactly those of the vault below the epoch are gone. |
| CacheDb.CacheDb.WriteUntil | crates/rizzy-cli/src/db.rs:316-333 | A changeset cut off after any number of writes leaves the tables unchanged, or all of it is there. |
| CacheDb.CacheDb.Write | crates/rizzy-cli/src/db.rs:310-312 | The whole changeset as one transaction. |
| CacheLifecycle.OnlyCommittedWritesCount | crates/rizzy-cli/src/db.rs:316-333 | Over any run of changesets, refusals and crashes, the file is the fold of the committed changesets alone. |
| CacheLifecycle.RowsAreKept | crates/rizzy-cli/src/db.rs:99-128 | No op row is ever lost; a served row stays served; an acknowledged one keeps statement, body and wrap forever. |
| CacheLifecycle.StatementsChangeOnlyByReissue | crates/rizzy-cli/src/db.rs:107-110 | When a statement differs after a run, some committed write of the run was a re-issue its guard admitted. |
| CacheLifecycle.ColumnsAreKept | crates/rizzy-cli/src/db.rs:111-128 | In every file grown from an empty one no served or unsent row carries a generation; and no own row is without its body, provided that every write tried that puts or re-issues an own op carries one. |
| CacheLifecycle.BodiesComeWithTheWrite | crates/rizzy-cli/src/db.rs:99-110 | That condition is exact: the guards do not look at the body, so a write that goes through keeps every own row's body if and only if it carries one where it makes an own row or re-issues one. |
| CacheLifecycle.CountersNeverDecrease | crates/rizzy-cli/src/db.rs:62-68 | Over any run set-once rows never change, and a counter of 8 bytes at both ends has not decreased as a number. |
| CacheLifecycle.AdmittedCountersNeverDecrease | crates/rizzy-client/src/store/floors.rs:260-309 | Over any run of admitted changesets the counters stay at 8 bytes and never decrease as numbers. |
| CacheLifecycle.AdmittedWritesNeverGoBack | crates/rizzy-client/src/store/floors.rs:400-410 | Of any two account states or grants of one vault an admitted run writes, the later is not below the earlier, in `stateSeq`, `settingsSeq` or epoch; the same number comes with the same bytes, or the same key. |
| CacheLifecycle.AdmittedRowsNeverGoBack | crates/rizzy-client/src/store/floors.rs:260-309 | However an admitted run goes on, the stored `stateSeq`, `settingsSeq` and grant epochs are not below what they were, and the state row stays. |
| CacheLifecycle.OwnDotsAreFresh | crates/rizzy-client/src/store/floors.rs:680-703 | An admitted changeset gives a new own op a number above every own op the file holds, and ends with the counter above all of them. |
| CacheLifecycle.AdmittedRunsKeepTheIndex | crates/rizzy-client/src/store/floors.rs:260-309 | Over every run of admitted changesets index and file agree. |
| CacheLifecycle.AdmittedRunsNeverStop | crates/rizzy-client/src/store/floors.rs:260-309 | After any such run the next admitted changeset goes through. |
| Uploads.ReceiveFacts | crates/rizzy-domain-vault/src/upload.rs:94-217 | What the server's record loop does with the records of a chain it agrees with: it only appends them in order, and says of each record exactly whether it is stored. |
| Uploads.ReissuedWereNeverAccepted | crates/rizzy-sync/src/causal/own.rs:347-371 | The guards, in memory and in SQL, admit a re-issue only of an op the server never accepted, in its present or any lost state. |
| Uploads.RestoreKeepsInv | crates/rizzy-sync/src/causal/own.rs:28-44 | A restore to any earlier state under a fresh generation keeps the invariant. |
| Uploads.StepKeepsInv | crates/rizzy-cli/src/device.rs:1129-1174 | Every step of device, server, restores and network, crashes included, keeps the invariant. |
| Uploads.NeverEquivocates | crates/rizzy-cli/src/device.rs:591-604 | Over every run, restores, lost answers and crashes included, the server never accepts two statements at one position of this device's chain. |
| Uploads.AcceptedStayInTheFile | crates/rizzy-client/src/sync.rs:2608-2632 | Whatever was ever accepted is in the file under the statement that was accepted, and marked as sent: the mark is committed before the request leaves. |
| Uploads.NeverAFalseConflict | crates/rizzy-domain-vault/src/upload.rs:94-124 | An honest server never answers a conflict to this device of its own accord. |
| Uploads.SameGenerationIsProof | crates/rizzy-sync/src/causal/own.rs:281-306 | A server that answers under the very generation noted at the first send and does not hold an op never accepted it. |
| Uploads.AnswersAlwaysCommit | crates/rizzy-client/src/sync.rs:1890-1986 | The transaction that applies an answer is never refused by a guard. |
| UploadGate.NoPlanWhileBlocked | crates/rizzy-client/src/sync.rs:1632-1737 | While a stale op that was surely never stored stands before a stale one that may have been, no process that started in that state ever issues anything again: the second op waits above the server's head. |
| UploadGate.BlockedNeverFinishes | crates/rizzy-client/src/sync/heal.rs:368-396 | From such a state no process, however often it starts again, edits, loses answers or crashes, gets everything acknowledged: healing stops before the first op, and the re-issue waits for the second. |
| UploadGate.TooLongNeverFinishes | crates/rizzy-client/src/sync/heal.rs:167-240 | Nor does it when a restore took more own ops than one healing request holds: no request is built, and the vault stays read-only. |
| UploadLife.LivedFacts | crates/rizzy-cli/src/device.rs:1129-1187 | A life by the rules of the code is a run of the upload protocol, so what is proved of runs holds in it, together with what the rules add to the invariant. |
| UploadLife.HealsWholeRanges | crates/rizzy-client/src/sync/heal.rs:365-394 | No healing request of any life leaves a gap or goes too far: from the head the last Fetch showed, through ops that may have been served, to the first that was not, or to the last op; never empty. |
| UploadLife.UploadsWholeBatches | crates/rizzy-client/src/sync.rs:1831-1883 | No upload of any life leaves a process that did not fetch or saw the server behind; it starts at the first unacknowledged op and holds all that are left, or as many as one request may. |
| UploadProgress.RunStaysWithin | crates/rizzy-client/src/sync.rs:1831-1883 | In every state of every run the ops that were sent and not acknowledged are within one request of the first of them. |
| UploadProgress.CatchesUp | crates/rizzy-client/src/sync/heal.rs:167-295 | A server that is behind gets back what it lost, up to the first op that was surely never stored, unless that is too much for one request. |
| UploadProgress.PlanIsAdmitted | crates/rizzy-sync/src/causal/own.rs:319-371 | After a refusal the guards in memory and in SQL admit the plan whole: what it names was never sent, or refused in this generation just now. |
| UploadProgress.OneRound | crates/rizzy-cli/src/device.rs:1129-1174 | Where nothing blocks, one command of a process that just fetched acknowledges at least one more op: what is queued goes up; a refused op that may have been served is given back; one that was surely never stored is issued again together with every later stale op. |
| UploadProgress.Finishes | crates/rizzy-cli/src/device.rs:1129-1187 | Where nothing blocks and the loss is not too long, a process that does not run can start, and every own op is acknowledged on disk in the end, the server's chain being exactly the own ops. Only stale ops got a new statement, none of which was acknowledged or held by the server. |
| UploadProgress.FinishesUnlessBlocked | crates/rizzy-client/src/sync.rs:1632-1883 | The exact condition, in every state of every run: by the steps the code takes, a process that starts can get every own op acknowledged if and only if no two stale ops above the server's chain stand in the wrong order, one surely never stored before one that may have been, and the server did not lose more than one healing request gives back. |
| UploadStuck.GetsStuck | crates/rizzy-client/src/sync.rs:1632-1737 | The input: a run of the code from a new device on, with three ops, two restores and two new epochs, after which the process is stuck. The op issued again carries the present generation, the one after it an earlier one, since a mark keeps the first. |
| UploadHost.NoteSent | crates/rizzy-sync/src/causal/own.rs:240-250 | The generation of the first unanswered send stays noted through later sends. |
| UploadHost.JournalSent | crates/rizzy-client/src/sync.rs:2608-2632 | Exactly the rows of the batch are marked sent, each under its first generation. |
| UploadHost.ApplyResults | crates/rizzy-client/src/sync.rs:1890-1986 | The loop over an answer's results moves rows and memory as the protocol's answer step does, or is refused whole. |
| UploadHost.Uploader.Open | crates/rizzy-client/src/sync.rs:2509-2557 | A new process knows of earlier sends exactly what the rows say. |
| UploadHost.Uploader.Edit | crates/rizzy-cli/src/device.rs:579-589 | An edit is a new own row, committed before the method returns; a read-only vault refuses it and nothing changes. |
| UploadHost.Uploader.UploadRequest | crates/rizzy-client/src/sync.rs:1831-1883 | A request that is built is the whole next batch of the gate, from the first unacknowledged op, with exactly the plan's re-issues, and its marks committed first. Nothing is built when nothing is left or the vault is read-only; the errors name their case: the new epoch not adopted, an op that waits for healing, no Fetch yet, a plan the guards refuse. |
| UploadHost.Uploader.CommitUpload | crates/rizzy-client/src/sync.rs:1632-1737 | Re-issues and marks of the whole batch are one transaction, before the request exists. |
| UploadHost.Uploader.StaleRepublish | crates/rizzy-client/src/sync/heal.rs:121-156 | Whether a stale answer leaves an op waiting to be re-published: one below the new epoch, not acknowledged, above the server's head, that may have been served. |
| UploadHost.Uploader.StalePlan | crates/rizzy-sync/src/causal/own.rs:319-371 | Unless an op waits, the plan re-issues exactly the later ops below the new epoch that were surely never served; it is admitted exactly when the guards admit each. |
| UploadHost.Uploader.Exchange | crates/rizzy-cli/src/device.rs:1129-1174 | One upload and its answer; acknowledgements never go back. When nothing goes wrong the rows and the memory are what the server's record loop and the answer step make of them, and `stale` and `done` say what the answer holds. |
| UploadHost.Uploader.HealRange | crates/rizzy-client/src/sync/heal.rs:365-394 | The range is empty if and only if the op at the server's head was surely never served, or is none; otherwise it holds every op that may have been served, up to the first that was not. |
| UploadHost.Uploader.SendBack | crates/rizzy-cli/src/device/heal.rs:174-190 | One healing request: success means that the range is acknowledged to its last op and the Fetch after it finds nothing more to heal. When nothing goes wrong the server's chain reaches to the end of the range. |
| UploadHost.Uploader.FetchNow | crates/rizzy-cli/src/device.rs:1101-1121 | A Fetch that succeeds sets the generation and what the process saw, and touches no row; when nothing goes wrong what it saw is what the server holds. |
| UploadHost.Uploader.HealNow | crates/rizzy-cli/src/device/heal.rs:165-196 | Healing of the own chain from the request to the Fetch after it: it does nothing when none is called for, fails untouched when the range is too long, and after success the whole range is acknowledged and the vault is writable. When nothing goes wrong the server has the range again. |
| UploadHost.Uploader.Upload | crates/rizzy-cli/src/device.rs:1129-1174 | The retry loop: success means that every own op is acknowledged, in memory and on disk, unless the vault is read-only; every other end leaves a state of the protocol with the same number of ops. When nothing goes wrong and the queue holds nothing stale, it succeeds. |
| UploadHost.Uploader.Sync | crates/rizzy-cli/src/device.rs:1175-1188 | Fetch, healing, upload, Fetch: success means that everything is acknowledged. When nothing goes wrong, a new process with nothing stale in the queue and a loss that fits into one request succeeds, and the server's chain is what the device wrote. |
| VersionVectors.MeetIsGreatestLowerBound | crates/rizzy-sync/src/vv.rs:167-176 | The meet is the greatest vector at most as high as both. |
| VersionVectors.JoinIsLeastUpperBound | crates/rizzy-sync/src/vv.rs:156-160 | The join is the least vector at least as high as both. |
| Compaction.NeededStays | crates/rizzy-sync/src/compaction.rs:602-610 | A snapshot that is needed stays needed whatever else is dropped. |
| Compaction.SinglePassIsTheRule | crates/rizzy-sync/src/compaction.rs:558-598 | The one pass over the older snapshots drops exactly what testing all of them again after every drop does. |
| Compaction.PassKeepsTwoAuthors | crates/rizzy-sync/src/compaction.rs:558-598 | Every header keeps covers by two distinct authors, or by as many as it had. |
| Compaction.PassIsMaximal | crates/rizzy-sync/src/compaction.rs:558-598 | Every older snapshot that stays is needed by what stays. |
| Compaction.PlanIsIdempotent | fuzz/fuzz_targets/sync_compaction.rs:213-234 | Applying a plan to any rows leaves rows on which the next plan is empty, though deletions and drops change each other's conditions. |
| Compaction.RunKeepsTwoAuthors | fuzz/fuzz_targets/sync_compaction.rs:200-232 | A run never takes a header below covers by two authors, nor below what it had. |
| Compaction.DeletableIs | crates/rizzy-sync/src/compaction.rs:540-553 | R1 by position in the sorted rows is R1 of the unsorted ones: the row that has exactly one above it covers the op, and two covering rows have different authors. |
| Compaction.PassTestsEach | crates/rizzy-sync/src/compaction.rs:555-598 | The single pass tests each older row against what the drops before it leave, and drops it exactly when nothing needs it. |
| Compaction.DropsAre | crates/rizzy-sync/src/compaction.rs:555-598 | R3 of the unsorted rows: oldest first, a row goes exactly when it is not one of the two newest and, without those gone before, no header loses one of at most two authors with it. |
| CompactionWorker.ByStoreSeq | crates/rizzy-sync/src/compaction.rs:504-515 | The rows sorted oldest first, or the lowest store sequence that is there twice. |
| CompactionWorker.IndexOps | crates/rizzy-sync/src/compaction.rs:521-529 | The ops by dot, or the first op whose dot came before. |
| CompactionWorker.R1Deletions | crates/rizzy-sync/src/compaction.rs:542-553 | Exactly the held bodies the rule on the sorted rows deletes, ascending. |
| CompactionWorker.R3Drops | crates/rizzy-sync/src/compaction.rs:558-598 | The pass over counts kept per header and author drops what the set-based pass drops. |
| CompactionWorker.PlanWorker | crates/rizzy-sync/src/compaction.rs:344-362 | The error cases exactly. Of the rows in whatever order they came: a body is planned for deletion if and only if it is held, a row with exactly one row above it covers it, and rows of two authors cover it; a snapshot is planned to go if and only if two rows are above it and no header needs it of what the drops before it leave. |
| CompactionWorker.SelectCovers | crates/rizzy-sync/src/compaction.rs:377-405 | Covers strictly newest first, each adding an author some header still lacked; every header gets min(2, available) authors; uncovered exactly when nothing covers it. |
| CompactionStore.CheckSnapshot | crates/rizzy-sync/src/compaction.rs:442-468 | The first failing check, in the order they are made, the lowest device claimed beyond what is held included; no refusal exactly when none of the conditions holds. |
| CompactionStore.CheckHealingRequest | crates/rizzy-sync/src/compaction.rs:485-498 | Refused exactly when some header has no cover; the lowest such header is named. |
| CompactionStore.RunKeepsCovers | fuzz/fuzz_targets/sync_compaction.rs:200-232 | What a run leaves covers every bodiless header, and every body ever deleted by two authors. |
| CompactionStore.ItemRows.HeadsOnlyRise | crates/rizzy-domain-vault/src/store.rs:186-195 | No retained snapshot covers an op above its chain's head: covers come after what they cover. |
| CompactionStore.ItemRows.StoreOp | crates/rizzy-domain-vault/src/store.rs:186-286 | An op is stored exactly when it is above its link and its link is its chain's head; it was not held, and no snapshot covers it then. |
| CompactionStore.ItemRows.StoreSnapshot | crates/rizzy-domain-vault/src/store.rs:293-345 | A snapshot is checked, clamped to the heads of this moment, and becomes the newest; a refusal changes nothing. |
| CompactionStore.ItemRows.HealOp | crates/rizzy-domain-vault/src/upload.rs:290-319 | One header of a healing request: skipped where the same record is held, refused where another one is, stored exactly when its author may write it and it joins its chain; what is stored is the record, as the new head of its chain. |
| CompactionStore.ItemRows.Heal | crates/rizzy-domain-vault/src/upload.rs:268-349 | A healing request goes in whole or not at all. It is accepted if and only if its headers join their chains in order or are held the same, its snapshots pass the checks against the heads reached, and every bodiless header it brings has a cover; the rows afterwards are exactly those. |
| CompactionStore.ItemRows.Compact | crates/rizzy-domain-vault/src/compact.rs:44-73 | A worker run in place: exactly the bodies and the snapshots go that the rules on the unsorted rows name, and the counts returned are those; over any run of these methods every body ever deleted keeps covers by two distinct authors. |
| CompactionStore.ItemRows.Serve | crates/rizzy-sync/src/compaction.rs:377-405 | Every bodiless header served comes with a cover, and those whose body was deleted with covers by two authors. |
| CausalLog.AcceptKeeps | crates/rizzy-sync/src/causal.rs:1239-1247 | A header the chain check lets through becomes the next link, and everything the log keeps stays. |
| CausalLog.WriteKeeps | crates/rizzy-sync/src/causal/own.rs:199-212 | An own op is a link and settled at once, and everything the log keeps stays. |
| CausalLog.JudgeKeeps | crates/rizzy-sync/src/causal.rs:1250-1261 | A verdict on a waiting or rejected body keeps everything the log keeps. |
| CausalLog.AbsorbKeeps | crates/rizzy-sync/src/causal.rs:822-833 | Joining what the merge took of a cover keeps everything the log keeps. |
| CausalLog.HandOnKeeps | crates/rizzy-sync/src/causal.rs:1266-1351 | A delivery is right when it is made, exactly as its covered mark says, and keeps everything the log keeps. |
| CausalLog.RevokeKeeps | crates/rizzy-sync/src/causal.rs:1025-1056 | A revocation, the lower of two cut-offs, keeps everything the log keeps. |
| CausalLog.NoBodyTwice | fuzz/fuzz_targets/sync_causal.rs:198-207 | Over any run of responses, verdicts, revocations and own ops no body is delivered twice. |
| CausalLog.FreshInCausalOrder | crates/rizzy-sync/src/causal.rs:111-117 | Fresh deliveries are in causal order: an op delivered after one that depends on it, through its causal context or its chain, is always marked covered. |
| CausalLog.NonePastACut | fuzz/fuzz_targets/sync_causal.rs:207-212 | Nothing of a device is delivered past a cut-off that was known. |
| LogRuns.RunIsKept | crates/rizzy-sync/src/causal.rs:852-1056 | Over every run of a log, any responses, verdicts, absorbed covers, own ops, revocations and deliveries in any order, everything the log keeps is kept. |
| LogRuns.EachBodyOnce | fuzz/fuzz_targets/sync_causal.rs:198-207 | Over every such run no body is delivered twice. |
| LogRuns.AlwaysInCausalOrder | crates/rizzy-sync/src/causal.rs:964-974 | Over every such run an op delivered after one that depends on it is marked covered. |
| LogRuns.NeverPastACut | crates/rizzy-sync/src/causal.rs:1025-1056 | Over every such run nothing of a device is delivered past a cut-off known before. |
| VouchedBodies.OnlyVouchedAreDelivered | crates/rizzy-sync/src/causal.rs:938-974 | Over every run, whatever is delivered had been served verified, or found good by a verdict, before. |
| ChainCheck.GroupedFacts | crates/rizzy-sync/src/causal.rs:1131-1155 | Every device's group holds what was served of it in this vault and nothing else, by sequence number; the own device has none. |
| ChainCheck.WalkIsRight | crates/rizzy-sync/src/causal.rs:1160-1236 | A walk accepts only served headers, each named by the next, from the head on, none past the cut-off, and none without a body that no snapshot covers. |
| ChainCheck.ReportsAreTrue | crates/rizzy-sync/src/causal.rs:96-109 | What a walk reports is so: duplicates and equivocations are told apart by the chain as the walk leaves it, and a gap is after its last link. |
| ChainCheck.NothingIsMissed | crates/rizzy-sync/src/causal.rs:1160-1236 | Every served header of a device is accounted for: up to the last link it is accepted, taken as served again for a rejected link, reported as held, or reported as an equivocation, whichever it is; past it a report ends the chain. A body known to be bad is reported whenever its header is accepted. |
| ChainCheck.AsideIsTrue | crates/rizzy-sync/src/causal.rs:1131-1155 | Every header that no walk sees has exactly one report, in the order served, and what it says is so. |
| ChainCommit.CommitKeeps | crates/rizzy-sync/src/causal.rs:852-869 | A commit of any response keeps everything the log keeps; every link it adds was served, and stands behind a cover if it has no body. |
| ServedLinks.ResponseBrings | crates/rizzy-sync/src/causal.rs:852-869 | A response loses no link and brings each link it adds in the state its body was served with; of the links held before it betters rejected ones alone, to what was served of them. |
| ServedLinks.ServedAgainDecides | crates/rizzy-sync/src/causal.rs:871-907 | Of the records served again for a rejected link the first that carries a usable body decides; without one the link stays rejected. No other link changes. |
| ServedAnswers.EveryHeaderIsAnswered | crates/rizzy-sync/src/causal.rs:852-907 | Of every response, in whatever order: each header of another device in this vault has its link, or its report says why not, or its chain is reported to end before it; a rejected link served again with a usable body is rejected no more, and is reported again otherwise. |
| CoverPlans.PlanAgrees | crates/rizzy-sync/src/causal.rs:745-869 | When the merge absorbs every cover the plan names, each cut to the plan's cut, the second pass accepts exactly the links the first counted. |
| CoverPlans.StaysWithinHeads | crates/rizzy-sync/src/causal.rs:161-170 | Such a client never holds an item past the head of a chain after the commit. |
| CoverPlans.DeliveriesStayWithin | crates/rizzy-sync/src/causal.rs:1310-1351 | Deliveries never take an item past a head. |
| CoverPlans.AnyOrderWillDo | crates/rizzy-sync/src/causal.rs:1125-1155 | The next part of a chain, served with its bodies, is accepted whole in whatever order it was served. |
| VaultLogs.VaultLog.GroupOps | crates/rizzy-sync/src/causal.rs:1131-1155 | Splits a response by device and reports what no walk sees. |
| VaultLogs.VaultLog.WalkChain | crates/rizzy-sync/src/causal.rs:1160-1236 | The walk of one chain as a loop. |
| VaultLogs.VaultLog.PlanCovers | crates/rizzy-sync/src/causal.rs:757-809 | Names exactly the counting covers of headers that need one, refuses exactly those past their author's cut-off, and cuts at the head or the last link that passed; a cover that is named is of this vault, not refused, and covers a served header that needs it. |
| VaultLogs.VaultLog.RecordAbsorbed | crates/rizzy-sync/src/causal.rs:822-833 | Never records more than the cut, nor more than was taken. |
| VaultLogs.VaultLog.Commit | crates/rizzy-sync/src/causal.rs:852-869 | The second pass in place; every accepted link was served, every link it adds or betters has the state its body was served with, and every header served has its answer; reports every item held past a head, and only those. |
| VaultLogs.VaultLog.CheckAbsorbed | crates/rizzy-sync/src/causal.rs:912-930 | Reports each absorbed item that holds a device above its head, and no other, once each, by item and then by device. |
| VaultLogs.VaultLog.BodyVerified | crates/rizzy-sync/src/causal.rs:938-942 | A waiting body becomes ready, and nothing else changes; the two errors exactly. |
| VaultLogs.VaultLog.BodyRejected | crates/rizzy-sync/src/causal.rs:953-955 | A waiting body is rejected, and nothing else changes; the two errors exactly. |
| VaultLogs.VaultLog.TakeDeliveries | crates/rizzy-sync/src/causal.rs:964-974 | Delivers rightly, changes only what it delivers, and leaves nothing that could be delivered, though it looks at dirty items and frontiers only. The order is that of rounds, each of covered ops by item and dot and then of fresh ops by device in chain order. |
| VaultLogs.VaultLog.DeliverCovered | crates/rizzy-sync/src/causal.rs:1266-1306 | After it no ready body of a looked-at item is covered; what it delivers comes by item and then by dot. |
| VaultLogs.VaultLog.DeliverFrontiers | crates/rizzy-sync/src/causal.rs:1310-1351 | A round that delivers nothing proves every chain stuck; what it delivers comes device by device in chain order. |
| VaultLogs.VaultLog.LearnRevocation | crates/rizzy-sync/src/causal.rs:1025-1056 | Keeps the lower cut-off, rejects exactly the undelivered links past it, and names exactly the items that hold the device past it; no link is lost. |
| VaultLogs.VaultLog.RecordOwnOp | crates/rizzy-sync/src/causal/own.rs:199-212 | An own op is recorded exactly when it extends the own chain and its context is settled, and is then the delivered head of that chain; nothing changes otherwise, and the error names the first check that failed. |
| VaultLogs.VaultLog.CursorEntry | crates/rizzy-sync/src/causal.rs:691-698 | The next fetch serves every rejected link again that nothing covers, and asks no further back than the first of them. |
| VaultLogs.VaultLog.Cursor | crates/rizzy-sync/src/causal.rs:683-688 | The same for every chain. |
| VaultLogs.EveryWaitHasAReason | crates/rizzy-sync/src/causal.rs:982-1012 | After the deliveries every link that is neither settled nor revoked is listed with exactly one reason: its body, the first unsettled link before it, or the first entry of its context its item lacks; never the one for a cover that no longer counts. |
| VaultLogs.QuietNow | crates/rizzy-sync/src/causal.rs:964-974 | Nothing dirty and every chain stuck: nothing held can be delivered. |
| AccountPin.ChainFollowsThePin | crates/rizzy-core/src/sign/bundle.rs:523-606 | A verified bundle chain never leaves the pinned branch; an identity change is reported exactly when the epoch went up. |
| AccountPin.ChainLeads | crates/rizzy-core/src/sign/bundle.rs:523-606 | A chain verifies to this head if and only if each served bundle goes on from the one before it. |
| AccountPin.AcceptedAnswersFollow | crates/rizzy-client/src/account.rs:318-464 | Every answer an enrolled device accepts goes on from its pin: no rollback, no fork, settings that match the hash; new identity keys only if confirmed. |
| AccountPin.HighestIsACandidate | crates/rizzy-client/src/account.rs:484-502 | A new device takes a candidate bundle with the highest number, and refuses exactly when there is none. |
| AccountPin.NewDevicesAreAnchored | crates/rizzy-client/src/account.rs:484-502 | A new device ends on a self-signed served bundle with the keys sealed under its own account key. |
| AccountPin.AcceptedExactly | crates/rizzy-client/src/account.rs:318-464 | For every answer, enrolled or new device: it is accepted with this result if and only if the bundle is anchored, everything in it is signed by its identity key and fits together, nothing went back, the signed device set is that of the served devices, the state commits to the settings, and the account key opens all that is sealed. |
| AccountPin.DeviceSetIsServed | crates/rizzy-client/src/account.rs:363-372 | A signed set is that of the served devices if and only if its certificates are those served, durable and named by no served revocation, and no two of them name one device. |
| AccountPin.AlarmsMean | crates/rizzy-client/src/account.rs:340-362 | What each alarm means: rollback, fork and unconfirmed identity keys are raised exactly when that is what the server served. |
| AccountPin.LeavingOutIsServing | crates/rizzy-client/src/account.rs:400-412 | Leaving the settings out gives the same result as serving them if and only if the state commits to the pinned settings. |
| AccountPin.HonestChoiceMatches | crates/rizzy-domain-auth/src/view.rs:40-75 | What an honest server serves or leaves out always matches the state. |
| AccountPin.Device.Adopt | crates/rizzy-client/src/device.rs:254-258 | The pin moves to the verified answer. |
| AccountPin.Device.VerifyUnlock | crates/rizzy-client/src/unlock.rs:78-118 | An unlock of another device is refused; the errors of the answer come next, then membership under the device's own two keys, and only then does the pin move on, before a newer password is reported. It returns a verified account if and only if the answer is anchored at the pin, holds in its signed and its sealed part, names the device and no newer password; the pin moves in no other case than these, a newer password aside. |
| AccountPin.AnswerAll | crates/rizzy-client/src/account.rs:318-464 | Against any sequence of answers the pinned numbers never go down, and nothing changes at one number. |
| AccountPin.OpenSelfGrants | crates/rizzy-client/src/account.rs:543-571 | The loop over the grants. |
| AccountPin.OneKeyPerVault | crates/rizzy-client/src/account.rs:543-571 | Opened grants give one key per vault, each sealed for this account at this epoch. |
| AccountPin.TakeVaultKey | crates/rizzy-client/src/account.rs:269-275 | Takes the key of a vault out exactly when there is one, and no other key. |
| RequestWindow.TestsOneBit | crates/rizzy-domain-auth/src/rules.rs:451-482 | The shifted mask tests and sets one bit of the word. |
| RequestWindow.AcceptIsTheRule | fuzz/fuzz_targets/auth_rules.rs:150-171 | The bitmap accepts exactly the counters the plain rule over all accepted counters allows, and goes on representing them. |
| RequestWindow.EachCounterOnce | fuzz/fuzz_targets/auth_rules.rs:150-171 | Over every sequence of u64 counters the two agree, and each counter is accepted at most once. |
| Clipboard.ClipboardGuard.Copy | apps/web/src/clipboard.ts:122-123 | A copy waits for its write. |
| Clipboard.ClipboardGuard.CopyWritten | apps/web/src/clipboard.ts:124-135 | The new value replaces the pending one, with a timer of its own; the old clear is moot, its timer and its retries gone. |
| Clipboard.ClipboardGuard.TimerFires | apps/web/src/clipboard.ts:130-133 | A timer that fires starts the clear, or finds an attempt running. |
| Clipboard.ClipboardGuard.ClearNow | apps/web/src/clipboard.ts:147-155 | The clear is due at once and an attempt runs. |
| Clipboard.ClipboardGuard.RetryMoment | apps/web/src/clipboard.ts:198-200 | A retry moment starts an attempt for a due clear. |
| Clipboard.ClipboardGuard.GrantedKnown | apps/web/src/clipboard.ts:166-173 | The attempt goes on to the read-back of the same copy, or decides without it. |
| Clipboard.ClipboardGuard.ReadBack | apps/web/src/clipboard.ts:167-178 | The value read decides: a newer copy or another value is left alone, and only what may still be the copied value is written over. |
| Clipboard.ClipboardGuard.Decide | apps/web/src/clipboard.ts:174-186 | No clearing write is issued after a newer copy was recorded, nor over another value, which settles the clear; in every other case exactly one is. |
| Clipboard.ClipboardGuard.WriteKnown | apps/web/src/clipboard.ts:180-200 | A write that was taken settles the clear; a refused one stays pending with a retry subscribed. |
| Clipboard.ClipboardGuard.Finish | apps/web/src/clipboard.ts:187-201 | An attempt that ends hands over to the newer copy, or settles its own. |
| Clipboard.RetrySucceeds | apps/web/src/clipboard.ts:158-201 | A clear the browser refused is done at the next focus. |
| CoreWorker.Worker.Receive | apps/web/src/core-worker.ts:316-334 | A call waits its turn and changes nothing else; what is no message is answered at once when it names an id, and is dropped otherwise. |
| CoreWorker.Worker.Lock | apps/web/src/core-worker.ts:329-332 | A lock is served at once, beside a call in progress, and counts itself; after it no session can be reached, the signup goes on, and every session is locked but one a trap abandoned. |
| CoreWorker.Worker.StartNext | apps/web/src/core-worker.ts:293-298 | Calls run one at a time in order; after a crash each is answered with the crash code, and a signup login without a signup is refused at once. A login, a new signup or its cancelling takes the signup. |
| CoreWorker.Worker.LoginCompletes | apps/web/src/core-worker.ts:124-132 | A login whose run began before a lock is locked at once; another one replaces the session, which is locked. Either locking may trap: then the call gets the crash code, and no session can be reached. |
| CoreWorker.Worker.LoginTraps | apps/web/src/core-worker.ts:305-310 | A login that traps leaves no session that can be reached, its own included. |
| CoreWorker.Worker.RunEnds | apps/web/src/core-worker.ts:299-304 | Each call is answered once; a signup is held exactly if one was or the call started it. |
| CoreWorker.Worker.RunTraps | apps/web/src/core-worker.ts:305-310 | A trap leaves no session and answers with the crash code. |
| CoreWorker.Worker.Crash | apps/web/src/core-worker.ts:305-310 | After a crash no session is reachable. |
| CoreWorker.CoreClient.Call | apps/web/src/core-client.ts:76-86 | Every call has an id of its own; a dead Worker rejects it. |
| CoreWorker.CoreClient.Receive | apps/web/src/core-client.ts:89-111 | A call settles at most once, and only with the answer to its own id. |
| CoreWorker.CoreClient.Fail | apps/web/src/core-client.ts:67-73 | All pending calls are rejected, and settled ones stay as they are. |
| Der.LengthNeverOverflows | crates/rizzy-cli/src/tls.rs:330-341 | The checked accumulator over at most four bytes never fails, on 32-bit targets too. |
| Der.ReadsBack | crates/rizzy-cli/src/tls.rs:323-344 | Every encoded element is read back, whatever follows, non-minimal lengths included. |
| Der.ReadsOnlyEncodings | crates/rizzy-cli/src/tls.rs:323-344 | Whatever is read was an encoding, and nothing past the input. |
| Der.ReadsTheSameAhead | crates/rizzy-cli/src/tls.rs:323-344 | More input changes only the rest. |
| Der.PrefixesAreRefused | crates/rizzy-cli/src/tls.rs:323-344 | Every proper prefix of one element is refused. |
| Der.IsCaWalk | crates/rizzy-cli/src/tls.rs:254-312 | The nested loops terminate and compute the walk. |
| Der.InExtensions | crates/rizzy-cli/src/tls.rs:287-310 | The inner loop finds the first basicConstraints. |
| Der.IsCaCertificate | crates/rizzy-cli/src/tls.rs:249-251 | Fail closed: anything unreadable is no CA. |
| Der.ExtensionsRead | crates/rizzy-cli/src/tls.rs:288-310 | For every list of extensions the first basicConstraints decides, critical or not. |
| Der.ConstraintsRead | crates/rizzy-cli/src/tls.rs:296-307 | The field of section 4.2.1.9 of RFC 5280: true exactly for cA TRUE. |
| Der.WalkAgreesWithTheStructure | crates/rizzy-cli/src/tls.rs:254-312 | For every certificate of the structure of section 4.1 of RFC 5280, whatever follows it, the walk says CA exactly when the first basicConstraints has cA TRUE. |
| DerStructure.PositiveHasAWay | crates/rizzy-cli/src/tls.rs:254-312 | The half that makes it fail closed: from a positive verdict the elements that lead to it are recovered. |
| DerStructure.OnlyTheStructureIsACa | crates/rizzy-cli/src/tls.rs:249-312 | For every input: the walk says CA if and only if there are nested elements, a certificate, its signed part, fields, an extension list and no earlier basicConstraints, down to a first field that is the BOOLEAN 0xFF. |
| Cbor.ShiftInIsUnsigned | apps/extension/e2e/webauthn-verify.ts:36-42 | Shifting a byte into a signed 32-bit word and reading it unsigned at the end is arithmetic modulo 2^32. |
| Cbor.ShiftedFour | apps/extension/e2e/webauthn-verify.ts:36-42 | The four-byte form reads the unsigned big-endian number. |
| Cbor.CborReader.ReadByte | apps/extension/e2e/webauthn-verify.ts:15-22 | One byte, or the end of the input. |
| Cbor.CborReader.ReadUint | apps/extension/e2e/webauthn-verify.ts:24-44 | The argument in every form read, and refused in every other. |
| Cbor.CborReader.DecodeCbor | apps/extension/e2e/webauthn-verify.ts:50-96 | The recursive reader computes the decoding from its position. |
| Cbor.CborReader.ReadItems | apps/extension/e2e/webauthn-verify.ts:73-81 | The loop over an array. |
| Cbor.CborReader.ReadEntries | apps/extension/e2e/webauthn-verify.ts:82-92 | The loop over a map. |
| Cbor.SetAppends | apps/extension/e2e/webauthn-verify.ts:85-90 | Setting a key appends an entry exactly when the key is new or is compared by identity; otherwise nothing is added. |
| Cbor.SetsAsMaps | apps/extension/e2e/webauthn-verify.ts:85-90 | Setting a key is what `Map.set` does: a number or a text replaces the value of the first key it equals, in place; every other key is one of its own. |
| Cbor.ReadsBack | apps/extension/e2e/webauthn-verify.ts:50-96 | Decoding an encoding, wherever it stands and whatever follows, gives what is left of the value when every key is set in turn, and stops at its end. |
| Cbor.RoundTrip | apps/extension/e2e/webauthn-verify.ts:50-100 | From position 0 with anything behind, for every encodable value: the value comes back as it was if and only if no scalar key comes twice in any map within. This is the exact condition of the round trip. |
| Cbor.StringsAreCutOff | apps/extension/e2e/webauthn-verify.ts:59-72 | For every encodable value and every place the input may end before the encoding does: decoding succeeds if and only if it ends inside the string the encoding would end in, in any nesting; the position is then past the end of the input. Every other truncation is refused. |
| Cbor.CutStringsKeepTheirBytes | apps/extension/e2e/webauthn-verify.ts:59-72 | Of a byte or text string that is cut off, what is read is what is there. |
| Cbor.RepeatedKeysCollapse | apps/extension/e2e/webauthn-verify.ts:82-92 | The concrete input that has no round trip: a map encoded with one scalar key twice, whatever the values, decodes to one entry with the last value. |
| CborForms.FormIsRead | apps/extension/e2e/webauthn-verify.ts:15-96 | Every well-formed byte form, with arguments in any width, is read at any position as the value it means. |
| CborForms.OnlyFormsAreRead | apps/extension/e2e/webauthn-verify.ts:15-96 | Whatever is read and ends within the input has a form of exactly those bytes. |
| CborForms.ReadsExactlyForms | apps/extension/e2e/webauthn-verify.ts:15-96 | For every input, position, value and end within the input: the reader returns them if and only if a well-formed byte form of these bytes means the value. |

## Left out

- The credential-change half of settling, account healing and device revocation in the commit protocol: only
  pure rotations are modelled.
- Server restores in the commit protocol, and a refresh inside a process that still holds a pending record.
- Snapshot records in the upload protocol; their rows and guards are in the cache model, their rules in the
  compaction model.
- CommitHost.Host.Exchange: the answers of the network are unconstrained choices; timeouts and retries below one
  exchange are not modelled.
- UploadGate.Gate: the flags by which one command follows a new epoch and heals at most once are left out; they only
  end a command early, and the next one starts where it ended. `UploadHost.Uploader.Upload` has them.
- UploadHost.Uploader.HealRange: one own chain is modelled; other devices' part of a healing request does not count
  towards its size, and being behind on their chains does not call for healing.
- UploadHost.Uploader.FetchNow: the pages of a Fetch are one step, and so are the Fetch within a conflict and the read
  of the account state after it; the alarms a Fetch or an upload may raise are left out.
- CacheRows.SqlIsTheReference: a wrap set that names one locator twice leaves two rows in the reference's vector
  and one in a map; no table of the file can hold both.
- CacheDb.CacheDb.Apply: the reads of the cache with their length caps, schema checks and `alarm_keys` are left out,
  and so is the limit on the size of a file.
- CompactionStore.ItemRows.Heal: key wraps and signatures are left out; whether a record is the one held, and whether
  its author may write, are facts of the request.
- CausalLog.WriteKeeps: the own chain's acknowledgements, sends and re-issues are in the upload model, not in this
  one, so a held own header never changes here.
- The reports after a complete fetch (crates/rizzy-sync/src/causal.rs:1078-1125) beyond the reasons a link waits
  for, and the checks of an author's expiry.
- AccountPin.Device.VerifyUnlock: the verification of device certificates is one condition on the answer, without the
  order of the checks within it.
- Clipboard.ClipboardGuard.Copy: the browser's permission dialogs are the answers of the awaited calls.
- CoreWorker.Worker.Receive: the codes for second-factor prompts and the wiping of arguments are left out.
- Uploads.Receive: the signatures of the device's own records are taken to verify.
- Cbor.ReadsBack: a text is its UTF-8 bytes, so the replacement of malformed UTF-8 is not modelled; major types 6
  and 7 are refused as in the code.
- The hybrid logical clock, the event bus, import formats, the per-item merge and the PEM and TLS layers.
