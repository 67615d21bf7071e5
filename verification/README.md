# A verified model of the fingerprint daemon

This project models how a D-Bus fingerprint daemon drives one match-on-chip reader, and proves what it
keeps true whatever the reader, the disk and the callers do.

- `proto.dfy`, `dbus_status.dfy`: the command bytes, the reply parser and the fprint status words.
- `enroll.dfy`, `enroll_object.dfy`: the enrolment machine, as a function and as the object that is updated.
- `store.dfy`, `store_object.dfy`: the file that maps (user, finger) to a slot of the chip.
- `worker_spec.dfy`, `worker.dfy`: the device worker. `worker.dfy` holds the classes, whose methods branch and
  loop as the source does; every method is proved equal to its function in `worker_spec.dfy` on the whole
  state, including the trace of commands on the wire and the events emitted, and every command keeps the
  worker's invariant: armed with an answered handle, every touch-wait armed, the claim mirrored for callers.
- `outcomes.dfy`, `verify_told.dfy`, `enroll_told.dfy`: how every call of the worker ends, told from the bytes and
  outcomes it met: exactly when it succeeds, what it answers, emits, sends and leaves behind.
- `arming.dfy`, `events.dfy`, `enroll_trace.dfy`, `erase.dfy`, `overwrite.dfy`: theorems over every run of the worker.
- `scripted_runs.dfy`, `overwrite_exact.dfy`, `overwrite_robust.dfy`: runs in which a live template is
  overwritten, and exactly when there is none, on an honest chip and on one whose commits or saves get lost.
- `session.dfy`, `verify_grant.dfy`, `enroll_client.dfy`: the two consumers of the daemon's signals and the
  end-to-end theorems that join them to the worker.
- `daemon.dfy`, `daemon_stop.dfy`, `daemon_actions.dfy`, `daemon_runs.dfy`: D-Bus methods, spawned ops, sleep and
  shutdown as an interleaved transition system; when a stop reaches the op it is meant for; what each action comes
  to; and every interleaving as a run of its worker, so that the theorems over runs hold of the daemon.
- `reconcile.dfy`, `rotation.dfy`, `pam.dfy`, `usb.dfy`: the sync command, the key rotation, the PAM edit and
  the reassembly of a reply from bulk transfers.

## How the environment is modelled

The transport is a script of outcomes: reply, short read, silence, disconnection, interruption, fault, or the
cancel token winning before anything is sent. An exhausted script is silence, so every run is finite and the
script bounds the retry loops. A second script says whether each device open, store load and store save
succeeds. Every theorem quantifies over all scripts; only the theorems about templates on the chip assume
anything of the reader, and they name it in a precondition: `CountsHonestly` (`enrolled_num` is the number of
occupied slots), `NoSilentCommit` and `SavesFollowCommits` (a commit's write, its reply and the save of its
entry succeed together or not at all). Without the last two a live template can be overwritten:
`OverwriteExactly.SilentCommitIsOverwritten` and `OverwriteExactly.UnsavedCommitIsOverwritten` give a run of four
calls for each. With all three, `OverwriteExactly.NoOverwriteExactlyWhen` states for which chip and file no run
overwrites one; `OverwriteRobustly.SafeWhateverIsLostExactlyWhen` states it with either of the last two dropped,
or both. An orphan below is an occupied slot with no owner in the file; a pinned slot is an occupied one that no
delete can free.

The number of enrolment stages comes from an environment variable read once; it is a parameter of type
`Stages`, the values 1 to 32 the source clamps it to (`crates/elanprint-proto/src/lib.rs:39-47`).

## Where the code and its documentation differ

- `docs/protocol.md:156` says the sub id formula breaks for finger id 11 and up. The addition does carry out of
  the low nibble there, so the bytes become `f0..f4`, but they stay different for all sixteen finger ids
  (`Proto.SubIdDistinct`), so the model follows the code.
- `crates/elanprint-keyring-setup/src/pam.rs:104-110` promises that removing undoes inserting. That holds of a text
  exactly when it ends in a newline and has no carriage-return newline
  (`Pam.RemoveUndoesInsertExactlyWhen`): the code joins lines with `\n` and always ends with one.
- A rotation the user gives up after the new key is sealed leaves the old password only in the previous copy.
  Nothing is lost yet, but the next rotation can lose it (`Rotation.GivenUpRotationIsUnsafe`), so the safety
  theorem starts from a credential equal to the keyring password; `Rotation.RotationSafeExactlyWhen` gives the
  exact starting states.
- `crates/elanprintd/src/worker.rs:718-721` drops the handle when a round finds the reader gone, but the arming
  count is not sent through a round. A verify or enrolment whose count finds the reader gone reports the
  disconnection, keeps the handle and sends abort on it, and the next claim does not open the device again
  (`VerifyTold.GoneCountKeepsTheHandle`); `VerifyTold.VerifyUnplugged` and `EnrollTold.EnrolUnplugged` say exactly
  when the handle is dropped.

## Model

| member | source | states |
|---|---|---|
| Proto.SubIdDistinct | crates/elanprint-proto/src/lib.rs:49-52 | two finger ids get the same commit sub id exactly when they agree modulo 16, so the sixteen slots never share one |
| Proto.EncodeRoundTrip | crates/elanprint-proto/src/lib.rs:119-161 | the encoding of every command the daemon sends decodes back to that command and no other, so bytes on the wire identify it |
| Proto.SubIdLowNibble | crates/elanprint-proto/src/lib.rs:49-52 | finger ids 0 to 10 get the sub ids f5 to ff, 11 to 15 get f0 to f4, and higher ids repeat them |
| Proto.ExpectedReplyParses | crates/elanprint-proto/src/lib.rs:163-182 | a reply parses exactly when it has the length read for its command, or is the two-byte form of finger_info and abort; otherwise the error tells both lengths |
| EnrollMachine.StepMoves | crates/elanprint-proto/src/enroll.rs:142-274 | one step as a transition table over pending command and reply class: which counter, phase and action follow, and that nothing else moves |
| EnrollMachine.StepFailsWith | crates/elanprint-proto/src/enroll.rs:142-274 | the error of a failing step and the hint of a retry are told by the bytes of the reply |
| EnrollMachine.StepQueuesPending | crates/elanprint-proto/src/enroll.rs:119-149 | after any step the send buffer holds the encoding of the pending command, or nothing when nothing is pending |
| EnrollMachine.Recognises | crates/elanprint-proto/src/enroll.rs:125-274 | after every sequence of replies the pending command, counter and phase are the ones determined by which prefix of the language was heard |
| EnrollMachine.CompletesExactlyOnLanguage | crates/elanprint-proto/src/enroll.rs:125-274 | a reply makes the machine complete for its slot exactly when the whole sequence is n accepted samples with any retries between, a clear collision reply, and a zero commit reply |
| EnrollMachine.CommitQueuedExactlyBehindGate | crates/elanprint-proto/src/enroll.rs:218-231 | the commit bytes are queued exactly after n accepted samples and a clear collision check, and no other commit ever is |
| EnrollMachine.SampleCarriesAcceptedCount | crates/elanprint-proto/src/enroll.rs:106-117 | while samples are wanted, the queued command names the slot, the total and the number of samples accepted so far |
| EnrollMachine.CounterNeverOverflows | crates/elanprint-proto/src/enroll.rs:151-216 | an accepted sample makes the counter the number accepted, at most the total, so the 8-bit addition never wraps |
| EnrollMachine.DoneIsNotAbsorbing | crates/elanprint-proto/src/enroll.rs:142-149 | a reply after completion is reported as unexpected and leaves the machine failed |
| EnrollObject.Enroll.Start | crates/elanprint-proto/src/enroll.rs:125-134 | refines the machine's start, and a machine that has accepted nothing begins a dialogue with no replies heard |
| EnrollObject.Enroll.Step | crates/elanprint-proto/src/enroll.rs:142-149 | keeps the invariant that in a dialogue the object is the machine fed every reply since its start, and there answers Complete exactly when the replies form the language |
| EnrollObject.Enroll.TakeSend | crates/elanprint-proto/src/enroll.rs:137-139 | the buffer is handed out once and left empty, and the dialogue's invariant survives it |
| Store.FlatInserted | crates/elanprint-store/src/lib.rs:69-85 | inserting into the nested map is one update of the flat (user, finger) map |
| Store.FlatRemoved | crates/elanprint-store/src/lib.rs:88-95 | removing from the nested map is one removal from the flat map, whether or not the entry was there |
| Store.StoreRefinesFlatMap | crates/elanprint-store/src/lib.rs:69-95 | after any history of inserts (accepted or refused) and removes the nested map is the flat one, slots are unique, names valid and no user is left empty |
| Store.RemoveUndoesInsert | crates/elanprint-store/src/lib.rs:69-95 | removing a freshly inserted entry gives back the very same nested map |
| Store.InsertKeeps | crates/elanprint-store/src/lib.rs:69-85 | an accepted insert keeps slot uniqueness, valid names and no empty user |
| Store.RemoveKeeps | crates/elanprint-store/src/lib.rs:88-95 | a remove keeps the same three |
| Store.TrackedSlots | crates/elanprint-store/src/lib.rs:135-143 | strictly increasing, and exactly the slots some user is mapped to |
| Store.WritableSlots | crates/elanprint-store/src/lib.rs:128-132 | strictly increasing, and exactly the untracked slots from the device count to the last slot |
| StoreObject.PrintStore.Insert | crates/elanprint-store/src/lib.rs:69-85 | bad name first, then a slot held under any other entry is refused and reported with its first owner in key order, otherwise the map gains the entry; on refusal it is unchanged |
| StoreObject.PrintStore.FindOwner | crates/elanprint-store/src/lib.rs:73-81 | the first conflicting entry in key order of user, then finger, or none exactly when no entry conflicts |
| StoreObject.PrintStore.Remove | crates/elanprint-store/src/lib.rs:88-95 | drops the entry and an emptied user |
| DbusStatus.VerifyTextRoundTrip | crates/elanprint-algo/src/status.rs:44-62 | each verify status word is read back as itself, so the worker's and the session's strings agree |
| DbusStatus.EnrollTextRoundTrip | crates/elanprint-algo/src/status.rs:34-71 | each enrol status word is read back as itself, so the worker's and the client's strings agree |
| DeviceWorker.OpState.TryBegin | crates/elanprintd/src/worker.rs:185-199 | refuses an unclaimed or busy device, otherwise sets busy and hands out the token, as the daemon's token step does |
| DeviceWorker.OpToken.Drop | crates/elanprintd/src/worker.rs:204-208 | dropping the token clears busy and nothing else, the last step of every spawned op |
| DeviceWorker.OpSink.Emit | crates/elanprintd/src/worker.rs:116-122 | appends the event and remembers whether it was terminal |
| DeviceWorker.OpSink.Close | crates/elanprintd/src/worker.rs:124-146 | appends the terminal event of an error exactly when none was sent |
| DeviceWorker.Worker.Claim | crates/elanprintd/src/worker.rs:276-306 | keeps the invariant; answers Busy exactly when an op runs or another user holds the claim; succeeds exactly when neither is so, a handle is held or opened and the count is answered in two bytes, and then is armed for that user |
| DeviceWorker.Worker.Release | crates/elanprintd/src/worker.rs:368-374 | keeps the invariant; disarmed and unclaimed in both places afterwards, abort sent last on a held handle |
| DeviceWorker.Worker.Suspend | crates/elanprintd/src/worker.rs:377-381 | keeps the invariant; no handle and so not armed afterwards, abort sent last on the old one, the claim unchanged in both places |
| DeviceWorker.Worker.Resume | crates/elanprintd/src/worker.rs:384-387 | keeps the invariant; the handle is forgotten without a command, the claim unchanged in both places |
| DeviceWorker.Worker.List | crates/elanprintd/src/worker.rs:389-395 | keeps the invariant; the user's finger names in ascending order, NoPrints for none, an error when the load fails |
| DeviceWorker.Worker.DeleteFinger | crates/elanprintd/src/worker.rs:401-441 | keeps the invariant; every refusal in order, the chip's answer, and the entry removed only after both chip and reload succeeded |
| DeviceWorker.Worker.DeleteAll | crates/elanprintd/src/main.rs:158-170 | keeps the invariant; the loop over the listed fingers is the recursion that stops at the first error |
| DeviceWorker.Worker.Verify | crates/elanprintd/src/worker.rs:447-461 | keeps the invariant; the sink ends with its one terminal event, an error leaves the worker torn down, and a disconnection found by a touch leaves no handle and nothing sent after it |
| DeviceWorker.Worker.VerifyInner | crates/elanprintd/src/worker.rs:463-545 | arming, admission and the retry loop equal the recursion that the grant theorems are about, events included |
| DeviceWorker.Worker.Enroll | crates/elanprintd/src/worker.rs:548-562 | keeps the invariant; the sink ends with its one terminal event, an error leaves the worker torn down, and a disconnection found after the count leaves no handle and nothing sent after it |
| DeviceWorker.Worker.RunOp | crates/elanprintd/src/main.rs:199-209 | the spawned task as the daemon's op-ending step has it: the op on the whole state, then the token dropped; the invariant kept and one terminal event emitted last |
| DeviceWorker.Worker.DriveEnroll | crates/elanprintd/src/worker.rs:591-638 | the enrol loop over the mutable machine equals the recursion that the trace theorems are about |
| DeviceWorker.Worker.FreeSlot | crates/elanprintd/src/worker.rs:664-691 | the arming count and the probing loop equal the recursion shown to pick the least free slot |
| Outcomes.ClaimExactly | crates/elanprintd/src/worker.rs:276-348 | every claim: when it is Busy, when it succeeds, which error it answers otherwise, the firmware it learns, the commands it sends, and that only success changes claim and arming |
| Outcomes.ReclaimAfterSleep | crates/elanprintd/src/worker.rs:276-387 | from any run that left a user holding the claim: suspend, resume and a claim by that user end armed on a newly opened handle |
| Outcomes.ReleaseEnds | crates/elanprintd/src/worker.rs:368-374 | abort goes out last on a held handle, which stays, disarmed; the claim is gone in both places |
| Outcomes.SuspendEnds | crates/elanprintd/src/worker.rs:377-381 | abort goes out last on a held handle, which is dropped; the claim, the file and the firmware stay |
| Outcomes.ListExactly | crates/elanprintd/src/worker.rs:389-395 | the names are the mapped ones, each once, in ascending order; otherwise NoPrints, or a store error when the load fails |
| Outcomes.DeleteExactly | crates/elanprintd/src/worker.rs:401-441 | success exactly when the finger is named and mapped, the one erase is answered with a zero status and the file loads twice and saves; each refusal in order, and the entry gone exactly on success |
| Outcomes.DeleteAllExactly | crates/elanprintd/src/main.rs:158-170 | the listed fingers are deleted in order up to the first failure, whose error is answered and after which nothing is deleted |
| VerifyTold.RoundExactly | crates/elanprintd/src/worker.rs:693-724 | one round: what is sent, what counts as data, the error for every other outcome, and that only a reader gone takes handle and arming with it |
| VerifyTold.VerifyExactly | crates/elanprintd/src/worker.rs:447-545 | a verify succeeds exactly when armed, admitted and ended by a two-byte reply; its error otherwise, every command it sends, and what it leaves of handle and arming |
| VerifyTold.VerifyTells | crates/elanprintd/src/worker.rs:463-545 | every event of a verify in order, told from the bytes: one word per retry, then match under the owned finger's name, no match, disconnected or unknown error |
| VerifyTold.VerifyUnplugged | crates/elanprintd/src/worker.rs:693-724 | a verify that ends disconnected leaves no handle and sent nothing after the exchange that found out, if and only if it was armed by then; otherwise the handle stays and abort is sent on it |
| VerifyTold.GoneCountKeepsTheHandle | crates/elanprintd/src/worker.rs:329-348 | a count that finds the reader gone: the verify says disconnected, yet the next claim sends on the old handle |
| EnrollTold.FreeSlotExactly | crates/elanprintd/src/worker.rs:664-691 | a slot is found exactly when the count is answered, the file loads and some candidate's probe is answered by anything but a record; the error otherwise |
| EnrollTold.EnrolTells | crates/elanprintd/src/worker.rs:548-656 | an enrolment succeeds exactly when admitted, given a slot, taken through the whole dialogue, loaded and saved; its events are those of its samples and one closing word, told by what ended it |
| EnrollTold.EnrolUnplugged | crates/elanprintd/src/worker.rs:693-724 | an enrolment that ends disconnected leaves no handle and sent nothing after the exchange that found out, if and only if its count was answered; otherwise the handle stays and abort is sent on it |
| Arming.ArmedOverEveryRun | crates/elanprintd/src/worker.rs:276-387 | over every run, each verify or enrol sample on the wire follows an answered count on the same handle with no abort between, and armed implies a handle that is still armed |
| Arming.ErrorTearsDown | crates/elanprintd/src/worker.rs:447-476 | after any error of verify or enrol the worker is disarmed and holds no handle or last sent abort on it |
| Events.ExactlyOneTerminalEvent | crates/elanprintd/src/worker.rs:101-146 | every verify and enrol emits exactly one terminal event, and emits it last |
| Events.EmitSound | crates/elanprintd/src/worker.rs:116-122 | an event on an open sink keeps its flag truthful about its log |
| Events.CloseSound | crates/elanprintd/src/worker.rs:124-146 | closing an op's sink leaves exactly one terminal event whichever way the op went |
| Session.AttemptBudget | crates/elanprint-algo/src/session.rs:80-138 | over every history, waiting means fewer misses than allowed since begin, counted exactly, and there is at most one grant per begin |
| Session.LockoutOnLastMiss | crates/elanprint-algo/src/session.rs:103-138 | lockout is the answer exactly to the last allowed miss of a waiting session |
| Session.LeavingIsFinal | crates/elanprint-algo/src/session.rs:85-101 | a session that left waiting never waits or grants again without a new begin |
| Session.GrantNeedsTerminalMatch | crates/elanprint-algo/src/session.rs:103-138 | a grant is the answer exactly to a terminal match while waiting, and names the session's user |
| Session.AnswersExactly | crates/elanprint-algo/src/session.rs:85-138 | every answer told by the history: a miss by the attempts left, each retry word by its hint, the failures, and the errors of unknown words and missing sessions |
| Session.AttemptPolicy.New | crates/elanprint-algo/src/policy.rs:9-25 | whatever number is asked for, the policy allows a first attempt, and allows exactly that many when it is at least one |
| SessionObject.VerifySession.Begin | crates/elanprint-algo/src/session.rs:80-83 | the session's history gains a start, no misses count, and it waits for a touch |
| SessionObject.VerifySession.Step | crates/elanprint-algo/src/session.rs:85-101 | the session stays the replay of its history; it locks exactly on a miss while waiting that uses up the attempts, and a grant names its user and ends the waiting |
| VerifyGrant.VerifyLoopDecides | crates/elanprintd/src/worker.rs:480-545 | the loop emits retries, then one final word that is a match exactly when the first non-retry reply names an allowed slot |
| VerifyGrant.AllowedAreOwned | crates/elanprintd/src/worker.rs:463-500 | the allowed slots are exactly those mapped to the claimed user, and to the requested finger when one was named |
| VerifyGrant.VerifyingDecides | crates/elanprintd/src/worker.rs:447-545 | the whole verify says match, once and last, exactly when a grant is due |
| VerifyGrant.SessionAnswersOnce | crates/elanprint-algo/src/session.rs:85-138 | fed retries and one final word, with selections anywhere, a waiting session answers once, never errs, and grants exactly on a match |
| VerifyGrant.VerifyEndToEnd | crates/elanprint-algo/src/session.rs:80-138 | for every store, user, finger and script, the session fed the worker's events grants exactly when the deciding reply names a slot mapped to the claimed user, and never errs |
| EnrollTrace.EnrollFollowsMachine | crates/elanprintd/src/worker.rs:564-638 | every exchange of an enrolment after the count and probes is the machine's pending command on its endpoint and length, for the slot the search chose, up to the closing abort; with no slot nothing of a dialogue is sent |
| EnrollTrace.EnrollLoopConcludes | crates/elanprintd/src/worker.rs:591-638 | the loop ends by recording exactly on a completed dialogue and otherwise fails, never through its driver error branches |
| EnrollTrace.CommitIsGatedAndLast | crates/elanprintd/src/worker.rs:591-638 | a commit on the wire is the last command of the dialogue, behind the open gate, with the chosen slot's sub id |
| EnrollTrace.SamplesNameTheSlot | crates/elanprintd/src/worker.rs:591-638 | every sample on the wire names the chosen slot, the total and the samples accepted before it |
| EnrollTrace.FreeSlotIsLeast | crates/elanprintd/src/worker.rs:664-691 | the slot is the least untracked one from the device count up; every smaller candidate was probed and vetoed by an occupied record |
| EnrollTrace.EnrollRecordsOneEntry | crates/elanprintd/src/worker.rs:640-656 | a successful enrolment adds exactly one entry in an untracked slot, a failed one adds none, the store never refuses a committed template, and the driver's error branches are unreachable |
| EnrollClient.DriveEnroll | crates/elanprint-login/src/client.rs:172-236 | the client's loop shows and counts what its one-signal function folds to, over the signals heard before a cancel |
| EnrollClient.ClientCounts | crates/elanprint-login/src/client.rs:172-236 | until the terminal event the client keeps listening, meets no unexpected status, and its stage counter is the number of stages passed, saturating at 255 |
| EnrollClient.ClientFinishes | crates/elanprint-login/src/client.rs:172-236 | after the terminal event it has returned and reports completion exactly on enroll-completed |
| EnrollClient.ClientShows | crates/elanprint-login/src/client.rs:172-236 | the user is shown the events of an enrolment one for one, the stages numbered in turn |
| EnrollClient.UnknownIsUnexpected | crates/elanprint-login/src/client.rs:172-236 | exactly the pairs outside the named ones end the enrolment as unexpected |
| EnrollClient.EnrolStreamFitsClient | crates/elanprint-login/src/client.rs:172-236 | every enrolment's events hit named arms and are shown one for one, the client's counter ends as the number of samples the reader accepted on the wire, and completion is reported exactly on success, the counter then at the configured total |
| EraseAccounting.DeleteErasesOnce | crates/elanprintd/src/worker.rs:401-441 | one delete sends one erase of the mapped slot when it reaches the chip and none otherwise, and changes the file exactly on success |
| EraseAccounting.EraseLedger | crates/elanprintd/src/worker.rs:401-441 | over every run the erases on the wire are, one to one and in order, the deletes that reached the chip, each naming the slot mapped at that moment |
| EraseAccounting.DeleteAllErasesExactlyTheUser | crates/elanprintd/src/main.rs:158-170 | a successful delete-all erases exactly that user's slots, once each in name order, and leaves every other user's entries as they were |
| NoOverwrite.DeleteKeepsOrphans | crates/elanprintd/src/worker.rs:401-441 | a delete, even one that fails between chip and file, changes neither the orphans nor the pinned slots, occupies nothing new and overwrites nothing |
| NoOverwrite.EnrollKeepsOrphans | crates/elanprintd/src/worker.rs:564-656 | an honest enrolment changes neither when every orphan lies below the number of pinned slots, and its commit targets a free slot |
| NoOverwrite.NoEnrolmentOverwrites | crates/elanprintd/src/worker.rs:664-691 | over every honest run in which each orphan at first lies below the number of pinned slots, orphans and pinned slots never change and no commit ever targets an occupied slot |
| NoOverwrite.RunKeepsStoreSound | crates/elanprintd/src/worker.rs:640-656 | every run keeps the store's slots unique and in range, its names valid and no user empty |
| NoOverwrite.StoredSubIdsDistinct | crates/elanprint-proto/src/lib.rs:49-52 | two stored entries share a sub id only if they are the same entry |
| OverwriteExactly.NoOverwriteExactlyWhen | crates/elanprintd/src/worker.rs:664-691 | for every chip and file: no honest run overwrites a live template if and only if each orphan that could be offered lies below the number of pinned slots; the same if the reader shows records of occupied slots alone, since deleting every entry and filling slot after slot reaches the orphan |
| OverwriteExactly.NoOverwriteExactlyOnInitialSegments | crates/elanprint-store/src/lib.rs:128-132 | with valid names and sixteen slots, no honest run overwrites a live template if and only if the orphans are the slots below some number |
| ScriptedRuns.ScriptedEnrolment | crates/elanprintd/src/worker.rs:564-656 | an enrolment whose reader accepts every sample and shows no record commits to the first writable slot, overwrites it if it was occupied, and succeeds exactly when commit and save go well, the reader answering truly throughout |
| ScriptedRuns.ReachesTheOrphan | crates/elanprintd/src/worker.rs:658-691 | from any such run, enrolments of ever new users end in an overwrite of a given orphan at or above the number of occupied slots, as each takes the least writable slot and raises the count |
| OverwriteExactly.SilentCommitIsOverwritten | crates/elanprintd/src/worker.rs:591-691 | claim, an enrolment whose commit lands but is not answered, a delete and an enrolment: the reader answers truly and acknowledged commits are saved, yet the last commit overwrites a live template |
| OverwriteExactly.UnsavedCommitIsOverwritten | crates/elanprintd/src/worker.rs:640-691 | the same four calls with the first commit answered and its save failing: the reader answers truly and no commit is silent, yet the last commit overwrites a live template |
| OverwriteRobustly.NoRoomNoOverwrite | crates/elanprintd/src/worker.rs:564-691 | over every run on an honest count, whatever becomes of commits and saves: no overwrite when the floor clears every orphan and no slot an enrolment could be given lies above the number of pinned slots |
| OverwriteRobustly.RoomIsLost | crates/elanprintd/src/worker.rs:591-691 | otherwise, with a cleared floor, one lost commit above it ends in an overwrite, whether its answer or its save was lost |
| OverwriteRobustly.SafeWhateverIsLostExactlyWhen | crates/elanprintd/src/worker.rs:564-691 | for every chip and file: runs with honest counts alone, with commits that may land unanswered, and with entries that may go unsaved, each never overwrite if and only if the floor clears every orphan and leaves no room above it |
| OverwriteRobustly.RoomlessOnlyWhenFull | crates/elanprint-store/src/lib.rs:128-132 | with valid names and sixteen slots that condition holds if and only if orphans fill all slots, or all but the last |
| Daemon.InterleavingSafe | crates/elanprintd/src/main.rs:122-263 | in every reachable state at most one token lives, busy holds exactly then, the shared claim mirrors the worker's, and under a live token the claimed user is the one checked or nobody; each method awaits the worker in a step of its own |
| Daemon.UnclaimedTaskIsSilent | crates/elanprintd/src/worker.rs:447-600 | an op run without a claim sends at most the arming read and abort |
| Daemon.ReleasedOpTouchesNothing | crates/elanprintd/src/main.rs:148-152 | an op that runs after a release in its token's lifetime sends no touch-wait and no commit |
| Daemon.ClaimOnlyEndsUnderToken | crates/elanprintd/src/worker.rs:276-306 | while a token lives an action keeps the claimed user or ends the claim, never hands it over |
| DaemonStop.CancelledTaskIsSilent | crates/elanprintd/src/worker.rs:693-724 | an op run under a token cancelled beforehand sends at most an arming count and an abort |
| DaemonStop.EarlyStopSilencesTheOp | crates/elanprintd/src/main.rs:129-152 | over every interleaving, an op stopped before it had the worker lock sends no touch-wait and no commit |
| DaemonStop.StopCancelsTheSharedToken | crates/elanprintd/src/main.rs:133-137 | over every interleaving, after a stop call, release, sleep or shutdown signal the token in the shared slot is cancelled, the slot empty, and worker and ops untouched |
| DaemonStop.OnlyStopsCancel | crates/elanprintd/src/main.rs:122-137 | no other action cancels a token; only a spawn fills the slot, with its op's token, and only an ender empties it |
| DaemonStop.EnderUnshares | crates/elanprintd/src/main.rs:199-208 | in every reachable state with an earlier ender outstanding, that ender can clear the shared slot after the next op filled it, and a stop call then leaves the running op's token uncancelled |
| DaemonStop.StopReachesTheOpExactlyWhen | crates/elanprintd/src/main.rs:122-152 | in every reachable state: whatever happens after an op is spawned, every stop call, release, sleep or shutdown signal made while it lives has its token cancelled afterwards, if and only if no earlier op had yet to clear the shared slot |
| DaemonStop.StopMissesTheOp | crates/elanprintd/src/main.rs:122-208 | a run of thirteen actions from start-up in which an earlier op's ender is outstanding when the next op holds its token, a stop is called while that op lives, its token stays uncancelled, and it then waits for a finger |
| DaemonActions.StoppedBeforeItRan | crates/elanprintd/src/main.rs:129-152 | over every interleaving, an op whose token is cancelled when it takes the lock ends without a touch-wait or commit, whatever happens in between |
| DaemonActions.ReleasedBeforeItEnds | crates/elanprintd/src/main.rs:148-152 | over every interleaving, an op under whose token the device is released ends without a touch-wait or commit, whatever happens in between |
| DaemonActions.OpSendsItsOwn | crates/elanprintd/src/main.rs:188-263 | an op sends commands of its own kind only, ends with its token dropped and its ender outstanding, and changes the file only if it enrols |
| DaemonActions.ClaimLands | crates/elanprintd/src/main.rs:139-146 | over every interleaving a claim takes hold exactly when no token lives, nobody else holds it, a handle is had and the count answered; otherwise claim and arming stay |
| DaemonActions.ReleaseLands | crates/elanprintd/src/main.rs:148-152 | a release, or the shutdown's, ends the claim in both places, disarms, and sends abort last |
| DaemonActions.SleepLands | crates/elanprintd/src/main.rs:329-420 | going to sleep drops the handle after an abort, waking drops any handle silently, and both keep the claim |
| DaemonActions.MethodsBegin | crates/elanprintd/src/main.rs:122-263 | what each call puts in flight, and that a spawn queues its op and shares its token |
| DaemonActions.TokenTaken | crates/elanprintd/src/worker.rs:185-199 | an op may start exactly on a claimed device without a live token, and its cancel token is new |
| DaemonActions.EverythingWasCalledFor | crates/elanprintd/src/main.rs:154-263 | over every interleaving, each op was started for its kind and finger while its user held the claim, each single delete called by the claimed user, and what a delete-all has left ends the list it was called on |
| DaemonActions.DeleteLands | crates/elanprintd/src/main.rs:154-186 | a pending delete erases the finger it was called for and drops its entry on success, and a delete-all goes on to the next name only then |
| DaemonRuns.CallIgnoresBusy | crates/elanprintd/src/worker.rs:276-724 | every worker call but a claim does the same whether or not the busy flag is set, and leaves it alone |
| DaemonRuns.InterleavingIsWorkerRun | crates/elanprintd/src/main.rs:122-263 | for every interleaving the worker is, but for busy flag and unread environment, the one its calls made in sequence would leave; a claim refused as busy is no call |
| DaemonRuns.InterleavingKeepsStoreSound | crates/elanprintd/src/worker.rs:640-656 | whatever is interleaved, a sound store file stays sound |
| DaemonRuns.InterleavingErasesItsLedger | crates/elanprintd/src/main.rs:154-186 | whatever is interleaved, the erases on the wire are the deletes that reached the chip, in order |
| DaemonRuns.InterleavingNeverOverwrites | crates/elanprintd/src/worker.rs:664-691 | whatever is interleaved, on an honest chip whose floor clears every orphan no commit targets an occupied slot |
| DaemonRuns.InterleavingWithoutRoom | crates/elanprintd/src/worker.rs:664-691 | whatever is interleaved and whatever commits or saves are lost, an honest count alone suffices where there is no room above the floor |
| Reconcile.Compare | crates/elanprint-store/src/lib.rs:168-249 | the nested loops file every stored entry in its one list, in store order, and the warnings are the reference list, none when the count is zero |
| Reconcile.ListsTold | crates/elanprint-store/src/lib.rs:168-232 | with a nonzero count an entry is confirmed exactly when its slot's last record is a template, unconfirmed exactly when that is missing, stuck or the two-byte form, and stale otherwise, each with its reason; with a zero count all are stale |
| Reconcile.ListsAscend | crates/elanprint-store/src/lib.rs:168-232 | each list goes by user, then finger |
| Reconcile.LastRecordIsLast | crates/elanprint-store/src/lib.rs:170-171 | a slot is judged by the last record there is for it |
| Reconcile.Warnings | crates/elanprint-store/src/lib.rs:168-249 | the list is the reference one: an over-count warning first exactly when more entries are claimed than counted, then one warning per record that shows an unmapped template, in record order |
| Reconcile.WarnsExactly | crates/elanprint-store/src/lib.rs:168-249 | in the reference list a slot is warned about exactly when some record shows a template there and no user is mapped to it |
| Reconcile.AllEntriesExact | crates/elanprint-store/src/lib.rs:168-249 | the entries walked are the entries stored, each once |
| Reconcile.ReconcilePartitions | crates/elanprint-store/src/lib.rs:168-249 | confirmed, unconfirmed and stale partition the stored entries, their sizes sum to the entry count, and an entry is stale exactly when the count is zero or its slot's last record reads empty |
| Reconcile.Sync | crates/elanprint-cli/src/main.rs:688-740 | the count, scan, comparison and prune: an unanswered count or scan, a failed load or save leaves the file alone, otherwise pruning removes the stale list; the report is told from the bytes: which list and reason each entry gets, the order of the lists, and the warnings |
| Reconcile.PruneLeavesTheRest | crates/elanprint-cli/src/main.rs:714-738 | pruning leaves exactly the entries not proven stale, with their slots |
| Rotation.RotationNeverLosesTheKey | crates/elanprint-keyring-setup/src/main.rs:227-244 | from a synced state, after every step of a rotation and its rollback and every crash, the keyring password is in the credential or its previous copy |
| Rotation.RotationEnds | crates/elanprint-keyring-setup/src/main.rs:227-244 | a finished rotation has everything at the new key with the old one in the previous copy; any other ending leaves the keyring; a refused re-key that was rolled back restores the credential |
| Rotation.RotationEndsExactlyWhen | crates/elanprint-keyring-setup/src/main.rs:227-244 | from a synced state: rotated exactly when all eight steps complete, refused exactly when only the re-key does not, given up otherwise; the rollback restores everything exactly when its four steps complete |
| Rotation.RotateKeepsHeld | crates/elanprint-keyring-setup/src/main.rs:227-244 | a rotation from a held state that is safe to rotate from leaves the password held after every step and crash, its ending included |
| Rotation.RotationSafeExactlyWhen | crates/elanprint-keyring-setup/src/lib.rs:90-109 | every rotation from a state that holds the password keeps it held exactly when the state is safe to rotate from |
| Rotation.GivenUpRotationIsUnsafe | crates/elanprint-keyring-setup/src/main.rs:227-244 | a rotation given up after sealing leaves the password held but the state unsafe to rotate from |
| RotationObject.KeyFiles.RotateSeal | crates/elanprint-keyring-setup/src/lib.rs:90-99 | from a held synced state the password stays held at every crash point; it succeeds exactly when its seven steps complete, with the password in the previous copy and the new key sealed and recoverable; the keyring is untouched, and every recorded state is one write from the last, contents only over a torn file |
| RotationObject.KeyFiles.Rollback | crates/elanprint-keyring-setup/src/lib.rs:101-109 | with the password in the previous copy it stays held at every crash point; it succeeds exactly when its four steps complete, with credential and recovery file restored; the keyring is untouched, writes as above |
| RotationObject.KeyFiles.Rotate | crates/elanprint-keyring-setup/src/main.rs:227-244 | from a synced state rotated exactly when all eight steps complete and refused exactly when only the re-key does not; from a held state safe to rotate from the password stays held; the keyring changes exactly when rotated, to the new key |
| Pam.InsertPlacesTheLine | crates/elanprint-keyring-setup/src/pam.rs:13-28 | the added line lands directly above the first keyring auth line, every other line keeping its place |
| Pam.AnchorExactly | crates/elanprint-keyring-setup/src/preflight.rs:121-128 | a line is an anchor exactly when, after white space, its first word is auth and it names the keyring module |
| Pam.OthersAreNoAnchors | crates/elanprint-keyring-setup/src/preflight.rs:121-128 | a line whose first word is anything else, such as session, password or a comment, is never one |
| Pam.OurLineExactly | crates/elanprint-keyring-setup/src/preflight.rs:111-114 | a line is ours exactly when it is no comment and names this module |
| Pam.InsertAnswersExactly | crates/elanprint-keyring-setup/src/pam.rs:13-28 | already present exactly when some line is ours, refused exactly when none is ours and none an anchor |
| Pam.SecondInsertAddsNothing | crates/elanprint-keyring-setup/src/pam.rs:13-28 | a second insert reports already present |
| Pam.RemoveDropsExactlyOurs | crates/elanprint-keyring-setup/src/pam.rs:30-38 | nothing to remove exactly when no line is ours; otherwise every other line is kept, in order, and none of ours |
| Pam.RemoveUndoesInsertExactlyWhen | crates/elanprint-keyring-setup/src/pam.rs:30-38 | for every text insert changes, remove gives back the exact text if and only if it ends in a newline and has no carriage-return newline |
| Pam.UnendedTextComesBackEnded | crates/elanprint-keyring-setup/src/pam.rs:30-38 | a text without a final newline that insert changes and remove does not give back |
| Pam.CrLfTextComesBackWithout | crates/elanprint-keyring-setup/src/pam.rs:13-38 | a text with a carriage-return newline that insert changes and remove does not give back |
| Pam.LinesOfEnded | crates/elanprint-keyring-setup/src/pam.rs:13-38 | splitting newline-ended lines gives those lines, less a trailing carriage return each |
| Usb.Recv | crates/elanprint-usb/src/lib.rs:137-186 | posts at most one transfer and none for length zero, for the least multiple of 64; each ending told: interrupted, timed out, failed, its first len bytes when full, a short read of all of it when shorter |
| Usb.NextMultipleIsLeast | crates/elanprint-usb/src/lib.rs:153 | no smaller multiple of 64 covers what remains |
| Usb.RecvReadsOneMessage | crates/elanprint-usb/src/lib.rs:137-186 | against any packet stream (section 5.8.3 of the USB 2.0 specification) the read succeeds exactly when the message has len bytes, and otherwise tells an ended short message from one that never ended |

## Left out

- Real time: timeouts are outcomes of the transport script, and their durations and all log text are not modelled.
- Worker lock granularity: an op runs atomically while it holds the worker lock, as nothing else touches the worker meanwhile; cancellation reaches it through its script.
- "A stop call always cancels the running op": false of the code, because a finished op clears the shared cancel slot after its token is dropped (`crates/elanprintd/src/main.rs:199-208`); `DaemonStop.StopMissesTheOp` is such a run from start-up, and `DaemonStop.StopReachesTheOpExactlyWhen` gives the exact condition.
- D-Bus plumbing, the caller's uid lookup and access check: a refused caller changes nothing, so only admitted calls appear.
- Signal strings are tags inside the model; the round-trip lemmas connect them to the words.
- Opening, listing and claiming USB devices: opening a handle succeeds or fails by script, handles are numbered in order.
- JSON, fsync and rename: loading and saving the store succeed or fail as a whole.
- StoreObject.PrintStore.Open: does not check slot uniqueness, because the source does not; soundness is an invariant from a sound file.
- Commands the daemon never sends (sensor size, reset, capture, register reads, sub id erase and full erase) are not encoded.
- A re-key of the login keyring is all or nothing, and reading random bytes for the new key is folded into the step that fails.
- Pam.RemoveUndoesInsertExactlyWhen: covers texts insert changes; reading, backing up and writing the file are not modelled.
- Reading two endpoints at once (`recv_first`), the other command line tools, the desktop application, the TPM and the PAM module's subprocess are not part of this model.
