# Verified model of the NodeLink agent's durable and signed cores

The NodeLink agent runs signed commands, replaces its own executable, takes over routing manifests and
reports results, on machines that lose power at any moment. This project models the parts of it, and of the
operator and auditor tools on the server side, whose correctness rests on what survives a crash, what a
signature or a hash commits to, or how a long history is summarised. It proves properties of those models
for every input, every run and every interleaving of failures.

`dafny verify dfyconfig.toml` checks the whole project.

## How to read it

Code that changes things step by step is a class (or a method with loops) whose methods are proved equal to a
function over the abstract state; the theorems are then about those functions, over whole runs. Code made of
expressions is functions. What the programs do not control is a parameter:

- **Failures and time.** `CommandJournal`, `AgentRunner` and `SelfUpdate` read every outcome (how much time
  passed, whether a save, a copy or an upload worked, failed or killed the process, before or after it took
  effect) from an environment, one choice per interaction. A theorem for all environments covers every
  interleaving of crashes and restarts. The clock does not go backwards. What happened (starts, uploads, health
  checks, commits, and what a session last wrote) is recorded beside the state, for the theorems only.
- **Cryptography.** Hashes, digests and signature checks are function parameters. Binding theorems end in
  "equal, or these two hashed inputs differ and have one hash", where the inputs are named: those hashed while the
  two Merkle trees are built, the parts two artifacts seal, the builds a run verified. Nothing is claimed about any
  particular hash.
- **Libraries.** Time parsing, PEM, base64, URL parsing and the JSON-to-struct decoder of manifests are
  function parameters. JSON text, decimal numerals, CSV, UTF-8 boundaries and hexadecimal are modelled.

| file | part of the system |
|---|---|
| `CommandJournal.dfy`, `AgentRunner.dfy`, `JournalProtocol.dfy`, `JournalGates.dfy`, `JournalDelivery.dfy` | the durable command journal, the runtime that drives it, its guarantees over whole runs, when a delivered command starts |
| `SelfUpdate.dfy`, `SelfUpdateProtocol.dfy`, `SelfUpdateRecovery.dfy`, `SelfUpdateProgress.dfy`, `SelfUpdateDescent.dfy`, `Version.dfy` | self-update with rollback, its guarantees over whole runs, what a start can repair, when versions climb and when they come down, the version order |
| `CommandEnvelope.dfy`, `Json.dfy`, `JsonText.dfy`, `JsonReader.dfy`, `PythonJson.dfy`, `CanonicalCommand.dfy` | the fields and the window of a command, JSON in both languages, the canonical bytes of a signed command |
| `IssuedCommands.dfy`, `RelayedCommands.dfy` | from the server to the process: the journal, the gates and the canonical bytes together, and over relays with the chain of manifests |
| `Merkle.dfy`, `EvidenceChain.dfy`, `EvidenceBinding.dfy`, `EvidenceSample.dfy`, `Csv.dfy`, `EvidenceCsv.dfy` | the clean-room evidence verifier and what an accepted artifact commits to |
| `KeyRotation.dfy`, `RoutingManifest.dfy` | the signing-key registry and its fleet; signed routing manifests |
| `OutputLimits.dfy`, `Hysteresis.dfy`, `Software.dfy`, `RotateLog.dfy`, `Routes.dfy` | output capture, monitoring hysteresis, software inventory, log rotation, relay routing |
| `Basics.dfy`, `Lex.dfy`, `Numerals.dfy` | shared datatypes, string order, decimal numerals |

## What the proofs found

- A result can be uploaded a second time while the journal file already calls it acknowledged. Over every run this
  happens exactly when the last save of the session that took effect was the acknowledgement of that very ID and
  reported failure (`JournalProtocol.UploadsArePendingOnDisk`). It is reachable because the first flush of a check-in
  only remembers the error (`JournalProtocol.LateAcknowledgementIsReuploaded`), and an error while routes and keys are
  taken over even replaces that fatal error, so the agent stays up with a file ahead of memory
  (`JournalProtocol.LateAcknowledgementOutlivesTheCheckIn`).
- The journal of the updater does not cover every cut of a swap. `SelfUpdateRecovery.NewBuildStaysUncheckedExactly` says
  exactly when a new build stays in place without a health check. One way needs no crash: the installed journal cannot
  be saved and the backup cannot be restored, and the update still reports that the previous build is back
  (`SelfUpdateRecovery.UncheckedBuildIsReportedAsFailure`).
- The stamp of an artifact is not looked at before the swap. A build whose stamp does not parse is never checked, never
  rolled back, and refuses every later update and rollback (`SelfUpdateRecovery.UnparsableStampIsReached`,
  `SelfUpdateRecovery.UnparsableStampIsNeverResolved`); a start resolves an installed attempt exactly when the stamp
  parses (`SelfUpdateRecovery.OneGoodStartResolves`).
- The versions of committed builds can come back down: a build with a wrong stamp that stays unchecked becomes what later
  updates are compared with (`SelfUpdateDescent.VersionsComeDown`, and with every input written out
  `SelfUpdateDescent.SampleComesDown`). They climb for good exactly when the executable is not below a committed build
  (`SelfUpdateDescent.ClimbsForGoodExactly`), and `SelfUpdateDescent.SwapLowersExactly` says which swap puts it there.
- The refusal of a delivery that does not verify is filed under the ID it names, so for a day a genuine command with that
  ID is answered as a replay and never started (`JournalDelivery.RefusalBlocksItsID`,
  `JournalDelivery.BlockedCommandNeverStarts`).
- The agent's and the server's canonical bytes agree for every accepted command except when an integer of
  the payload is spelled `-0` (`CanonicalCommand.ServerSignsTheSameBytesUnlessMinusZero`).
- `Compare` is antisymmetric exactly when two prerelease lists do not first differ in identifiers that read as the
  same number (`Version.CompareAntisymmetric`).
- The lifetime bound of a manifest holds exactly when the difference in seconds does not overflow a Duration; a
  lifetime of 584 years passes (`RoutingManifest.OverflowingLifetimeIsAccepted`).
- A Merkle root does not bind the number of leaves, and with short leaves on both sides not even their
  boundaries (`Merkle.RootDoesNotBindTheCount`, `Merkle.ShortLeavesAreAmbiguous`).
- `generate` leaves the private key file behind when it fails afterwards; exactly when it then refuses to be repeated
  is `KeyRotation.FailedGenerateCannotBeRepeated`.
- The software list is independent of the enumeration order exactly when, for each program, all
  highest-ranked rows give the same entry (`Software.OneListExactlyWhenTopsAgree`).

## Model

| member | source | states |
|---|---|---|
| `CommandJournal.JournalFile.constructor` | agent/internal/service/replay.go:83-108 | the journal file holds the given entries |
| `CommandJournal.SeenStore.constructor` | agent/internal/service/replay.go:83-108 | a session starts from exactly what the file holds |
| `CommandJournal.SeenStore.Save` | agent/internal/service/replay.go:320-360 | the file becomes the map in memory exactly when the rename happened, whatever the save reports |
| `CommandJournal.SeenStore.MutateAndSave` | agent/internal/service/replay.go:295-303 | memory keeps the change only if the save reports success |
| `CommandJournal.SeenStore.ReserveCommand` | agent/internal/service/replay.go:135-152 | refuses a known ID or nonce, else reserves both in one save |
| `CommandJournal.SeenStore.MarkExecuting` | agent/internal/service/replay.go:154-165 | only a reserved entry becomes executing |
| `CommandJournal.SeenStore.StoreResult` | agent/internal/service/replay.go:167-190 | a stored result is never replaced; a refusal without expiry gets a bounded retention |
| `CommandJournal.SeenStore.Acknowledge` | agent/internal/service/replay.go:192-203 | only a pending result becomes acknowledged |
| `CommandJournal.SeenStore.RequeueAcknowledged` | agent/internal/service/replay.go:205-217 | an acknowledged result becomes pending again, unchanged |
| `CommandJournal.SeenStore.PendingResults` | agent/internal/service/replay.go:219-237 | the walk, in any order, and the sort give a list that holds exactly the pending results, strictly ordered by command ID |
| `CommandJournal.OutboxIsTheOrderedList` | agent/internal/service/replay.go:219-237 | there is one such list: a list is the outbox exactly when it holds every pending result and nothing else, in the order of IDs |
| `CommandJournal.SeenStore.RecoverEntries` | agent/internal/service/replay.go:239-267 | whatever order the map is walked in, reservations and their nonces go and interrupted executions get the unknown-outcome result |
| `CommandJournal.SeenStore.RecoverInterrupted` | agent/internal/service/replay.go:239-277 | recovery is saved when it changed something and undone in memory when the save fails |
| `CommandJournal.SeenStore.Prune` | agent/internal/service/replay.go:279-293 | drops exactly the expired entries that are not reserved, executing or pending |
| `CommandJournal.RecoverOne` | agent/internal/service/replay.go:239-267 | visiting one more key extends the recovered map by that key's effect, so the walk order does not matter |
| `AgentRunner.Agent.FlushPendingResults` | agent/internal/service/runner.go:1105-1126 | uploads the outbox in order, acknowledging after each confirmed upload, and goes on past failures |
| `AgentRunner.Agent.QueueRefusal` | agent/internal/service/runner.go:1086-1103 | stores a refusal unless a result is already stored, then flushes |
| `AgentRunner.Agent.Process` | agent/internal/service/runner.go:746-886 | one delivery: addressee, key, signature over the canonical form, window, ID and nonce are checked in this order; then it is refused, its retained result redelivered, or it is reserved and executed |
| `AgentRunner.Agent.Requeue` | agent/internal/service/runner.go:785-798 | a redelivered command is never executed again, only its retained result requeued |
| `AgentRunner.Agent.ReserveAndExecute` | agent/internal/service/runner.go:808-831 | starts the process only after both saves; a failed save refuses |
| `AgentRunner.Agent.RunStarted` | agent/internal/service/runner.go:832-886 | stores what the process returned before reporting it |
| `AgentRunner.Agent.PruneJournal` | agent/internal/service/runner.go:491-495 | prunes at every check-in and saves when something went |
| `AgentRunner.Agent.Load` | agent/internal/service/runner.go:333-351 | a start loads, recovers and prunes, or leaves the agent down |
| `AgentRunner.Agent.CheckInOnce` | agent/internal/service/runner.go:476-611 | one check-in as a step of the protocol; a stop or a rejected credential ends it before the journal is pruned |
| `AgentRunner.Agent.Answer` | agent/internal/service/runner.go:540-611 | flush, take over routes and keys or end with that error, commands in the order delivered, flush again |
| `AgentRunner.Agent.ProcessAll` | agent/internal/service/runner.go:573-592 | commands run one at a time; a fatal error or a stop ends the batch |
| `JournalProtocol.RunKeepsInvariant` | agent/internal/service/replay.go:135-293 | over every run, what file and memory remember of the past still holds |
| `JournalProtocol.AtMostOnce` | agent/internal/service/runner.go:776-880 | over every run no command ID is started twice, even after its entry is pruned, and no two commands with one nonce are started within the first one's signed window |
| `JournalProtocol.UploadsAreDurableAndIdentical` | agent/internal/service/runner.go:1086-1125 | every upload carries a result the file holds, and all uploads of one ID between prunings are identical |
| `JournalProtocol.UploadsAreGenuine` | agent/internal/service/runner.go:832-880 | until its ID is pruned, every upload for a started command carries what its process returned or the unknown-outcome record |
| `JournalProtocol.SmoothFlushEmptiesTheOutbox` | agent/internal/service/runner.go:1105-1126 | with confirmed uploads and working saves one flush reports everything pending and empties the outbox |
| `JournalProtocol.UploadsArePendingOnDisk` | agent/internal/service/replay.go:192-203 | over every run an upload is in the file as result_pending, except exactly when the last effective save of the session was a late acknowledgement of that ID |
| `JournalProtocol.LateAcknowledgementIsReuploaded` | agent/internal/service/runner.go:557-592 | a run from the first boot in which a redelivered command makes a check-in upload a result that the file calls acknowledged |
| `JournalProtocol.LateAcknowledgementOutlivesTheCheckIn` | agent/internal/service/runner.go:557-564 | a run in which an error of the manifest replaces the fatal one, the agent stays up, and its next check-in uploads the acknowledged result |
| `JournalProtocol.FileRunsAheadExactlyAfterALateFailure` | agent/internal/service/replay.go:354-359 | an acknowledgement leaves memory behind the file exactly when its save failed after the rename, or before it with an earlier attempt failed after |
| `JournalProtocol.StartedCommandsAreRetained` | agent/internal/service/replay.go:167-277 | until the server accepts its result a started command stays in the file, and in the outbox whenever the agent is up |
| `JournalProtocol.NonceShapedIDsAreSkipped` | agent/internal/service/replay.go:219-267 | why command IDs must not start with the nonce prefix |
| `JournalProtocol.AdmittedCommandStarts` | agent/internal/service/runner.go:808-834 | with working saves an admitted command does start |
| `JournalDelivery.DeliveredCommandStartsExactly` | agent/internal/service/runner.go:746-834 | with working saves, the command a heartbeat brings is started exactly when it verifies, is in its window at the gate, and the pruned journal holds nothing under its ID and nothing under its nonce |
| `JournalDelivery.RunRetains` | agent/internal/service/replay.go:167-293 | over every run, what is filed under an ID stays until its expiry, and until then no command with that ID is admitted |
| `JournalDelivery.RefusalBlocksItsID` | agent/internal/service/runner.go:750-775 | after the refusal of a delivery that does not verify, no run admits a command with that ID for 24 hours |
| `JournalDelivery.BlockedCommandNeverStarts` | agent/internal/service/runner.go:785-798 | so a command with that ID that the server had issued by then is never started |
| `JournalGates.StartedCommandsPassedEveryGate` | agent/internal/service/runner.go:746-783 | over every run, with no assumption on deliveries, whatever is started, kind and payload included, was delivered, addressed here, signed over its canonical form with a key the session trusts, and inside its window by the clock that was read when it was admitted, not after the start |
| `JournalGates.LateAcknowledgementsComeFromLateSaves` | agent/internal/service/replay.go:320-360 | a run in which no failing save takes effect knows no late acknowledgement, so all its uploads are in the file as result_pending |
| `IssuedCommands.StartedCommandsWereIssued` | agent/internal/service/runner.go:746-868 | with the real verifier and keys under which only the server's messages pass, every started command, with the kind and the payload handed to the executor, is one the server issued, within the signed window |
| `IssuedCommands.IssuedCommandsStartAtMostOnce` | agent/internal/service/runner.go:785-834 | if the server gives each ID one expiry and issues no ID that starts with the nonce prefix, then whatever else is delivered no issued command is started twice over any run, and none reuses a nonce within its window |
| `RelayedCommands.KeysStayTheServers` | agent/internal/service/runner.go:1188-1268 | if the server's keys sign only what it issued and its manifests hand over its own keys, the keys of a session stay the server's over any answers, relayed ones unrestricted |
| `RelayedCommands.RelayedCommandsWereIssued` | agent/internal/service/runner.go:746-868 | over every run with such sessions, one signature scheme serving commands and manifests, whatever is started was issued by the server |
| `SelfUpdate.Updater.Update` | agent/internal/selfupdate/selfupdate.go:303-494 | the refusals of a signed update in order, then download, stage, back up, swap, mark installed, restart |
| `SelfUpdate.Updater.Rollback` | agent/internal/selfupdate/selfupdate.go:504-560 | the operator's rollback restores the retained build only under its recorded digest |
| `SelfUpdate.Updater.ResolveAttempt` | agent/internal/selfupdate/selfupdate.go:570-616 | what a start does with each journal state |
| `SelfUpdate.Updater.ResolveInstalledAttempt` | agent/internal/selfupdate/selfupdate.go:618-671 | the start is counted durably before path, version, attempts and health are judged |
| `SelfUpdate.Updater.RollBackAttempt` | agent/internal/selfupdate/selfupdate.go:673-691 | an automatic rollback restores the backup under its digest and journals the outcome |
| `SelfUpdate.Updater.CommitAttempt` | agent/internal/selfupdate/selfupdate.go:652-671 | a healthy build is committed and the replaced one retained |
| `SelfUpdate.Updater.Restore` | agent/internal/selfupdate/selfupdate.go:792-818 | a restore refuses a missing backup or a digest that differs |
| `SelfUpdate.Updater.Save` | agent/internal/selfupdate/journal.go:104-142 | the update journal is the old one or the new one |
| `SelfUpdate.Updater.Boot` | agent/internal/selfupdate/selfupdate.go:570-726 | one start: load the image on disk, resolve, report, acknowledge |
| `SelfUpdateProtocol.RunKeepsInvariant` | agent/internal/selfupdate/selfupdate.go:352-560 | executable, backup, retained build and health count stay sound over every run |
| `SelfUpdateProtocol.ExecutableIsAlwaysApproved` | agent/internal/selfupdate/selfupdate.go:352-560 | over updates, rollbacks and crashes the executable is the first build or an artifact whose digest matched its signed metadata, or differs from one of these and has its digest |
| `SelfUpdateProtocol.HealthChecksAreBounded` | agent/internal/selfupdate/selfupdate.go:618-650 | an attempt sees at most three health checks, whatever crashes occur |
| `SelfUpdateRecovery.OneGoodStartResolves` | agent/internal/selfupdate/selfupdate.go:570-691 | from every reachable installed journal one crash-free start commits the healthy new build or brings back exactly the backed-up one, if and only if the stamp of the executable parses; otherwise it changes nothing |
| `SelfUpdateRecovery.UnparsableStampIsReached` | agent/internal/selfupdate/selfupdate.go:303-494 | an accepted update whose artifact carries an unparsable stamp is installed |
| `SelfUpdateRecovery.UnparsableStampIsNeverResolved` | agent/internal/selfupdate/selfupdate.go:570-575 | from there no run of starts, updates, rollbacks and power losses moves anything |
| `SelfUpdateProtocol.PendingUpdateIsForwardAndReversible` | agent/internal/selfupdate/selfupdate.go:336-494 | an update awaiting its restart went forward, holds the verified artifact and has its predecessor backed up |
| `SelfUpdateProtocol.GoodUpdateReachesItsRestart` | agent/internal/selfupdate/selfupdate.go:303-494 | with working operations a newer, verified update reaches its restart |
| `SelfUpdateProtocol.RefusedUpdateTouchesNothing` | agent/internal/selfupdate/selfupdate.go:303-410 | a refused update leaves executable, journal, backups and staged files as they were |
| `SelfUpdateRecovery.NewBuildStaysUncheckedExactly` | agent/internal/selfupdate/selfupdate.go:447-494 | over every environment, exactly when an attempt about to swap ends, after the next good start, with the new build in place and no health check |
| `SelfUpdateRecovery.UncheckedBuildIsReportedAsFailure` | agent/internal/selfupdate/selfupdate.go:447-466 | three such windows, one without a crash, and what the update and the next start report |
| `SelfUpdateProgress.UpdatesClimb` | agent/internal/selfupdate/selfupdate.go:336-350 | over every run without an operator's rollback and with honest stamps, each committed build is above all committed before it, none recurs, and the executable is never below a committed build |
| `SelfUpdateProgress.UpdatesClimbUnlessLowered` | agent/internal/selfupdate/selfupdate.go:336-350 | whatever stamps the artifacts carry, over every run without an operator's rollback the committed builds climb, as long as no activity starts from an executable below a committed build |
| `SelfUpdateDescent.ClimbsForGoodExactly` | agent/internal/selfupdate/selfupdate.go:336-350 | for an agent at rest, every honest continuation climbs if and only if it has climbed so far and its executable is not below a committed build |
| `SelfUpdateDescent.SwapLowersExactly` | agent/internal/selfupdate/selfupdate.go:447-494 | over every environment, which swap puts the executable below a committed build by the next good start |
| `SelfUpdateDescent.VersionsComeDown` | agent/internal/selfupdate/selfupdate.go:336-466 | a run from the first installation that commits a build, has a misstamped one left in place by a power loss, and commits an older build or the first one again |
| `SelfUpdateDescent.SampleComesDown` | agent/internal/selfupdate/selfupdate.go:336-466 | the same for 2.0.0, a 3.0.0 stamped 1.5.0, and 2.0.0 again |
| `Version.ComparePrerelease` | agent/internal/selfupdate/version.go:64-98 | the index loop computes the first difference of the identifier lists |
| `Version.CompareZero` | agent/internal/selfupdate/version.go:41-62 | Compare is 0 exactly for equal versions |
| `Version.CompareAntisymmetric` | agent/internal/selfupdate/version.go:41-98 | Compare is antisymmetric exactly when the first differing identifiers do not read as one number |
| `Version.LeadingZerosBreakAntisymmetry` | agent/internal/selfupdate/version.go:71-78 | two versions each of which compares above the other |
| `Version.CompareIsTotalOrder` | agent/internal/selfupdate/version.go:41-98 | on canonical versions Compare is total, antisymmetric and transitive |
| `Version.CompareFollowsSemVer` | agent/internal/selfupdate/version.go:41-98 | Compare is the precedence of section 11 of Semantic Versioning 2.0.0, both ways |
| `Version.AboveIsTransitive` | agent/internal/selfupdate/selfupdate.go:336-350 | on canonical versions, above something not below a third is above the third |
| `Version.JoinSplit` | agent/internal/selfupdate/version.go:64-66 | splitting into identifiers loses nothing |
| `JsonText.DecodeReadsEveryText` | agent/internal/verify/verify.go:104-118 | whatever the layout, the member order, the escapes and the halves of surrogate pairs, the decoder returns the meaning of the text |
| `JsonReader.DecodesExactlyTheTexts` | agent/internal/verify/verify.go:104-118 | a text decodes to a value exactly when it is whitespace, a concrete text of that value, and whitespace |
| `JsonText.RoundTrip` | agent/internal/verify/canonical.go:17-26 | decoding a canonical text gives back the value, in both printers |
| `JsonText.PrintInjective` | agent/internal/verify/canonical.go:17-26 | equal canonical texts mean equal values |
| `PythonJson.LoadsDumps` | server/scripts/verify_evidence_bundle.py:48-55 | json.loads undoes the canonical json.dumps |
| `PythonJson.LoadsIsLoadable` | server/scripts/verify_evidence_bundle.py:139-147 | what json.loads returns prints and loads again as itself |
| `CanonicalCommand.AcceptsExactlyWellFormedEnvelopes` | agent/internal/verify/verify.go:58-153 | canonical bytes exist exactly for the envelopes that meet every listed demand |
| `CommandEnvelope.WindowIsAnInterval` | agent/internal/verify/verify.go:195-210 | a window opens a bounded skew before issued_at, closes before expires_at, and yields the signed expiry |
| `CanonicalCommand.CommandRunsExactlyInItsWindow` | agent/internal/verify/verify.go:195-210 | the clock policy is one interval, and a command with canonical bytes has already passed the rest of it |
| `CanonicalCommand.CanonicalBytesDecodeToTheDocument` | agent/internal/verify/verify.go:127-153 | decoding the signed bytes gives back the document that was checked |
| `CanonicalCommand.EqualBytesExactlyForTheSameCommand` | agent/internal/verify/verify.go:58-153 | equal bytes exactly for equal envelope fields and equal payload values |
| `CanonicalCommand.AcceptedCommandWasIssued` | agent/internal/verify/verify.go:276-289 | if only issued messages pass the signature check, an accepted command is an issued one field for field |
| `CanonicalCommand.LayoutDoesNotMatter` | agent/internal/verify/verify.go:104-126 | payload texts with one meaning give the same bytes, or the same refusal |
| `CanonicalCommand.ServerPrintsTheSameBytes` | server/app/core/command_envelope.py:243-253 | json.dumps with the two separator replacements prints what the agent's encoder prints |
| `CanonicalCommand.ServerSignsTheSameBytesUnlessMinusZero` | server/app/core/command_envelope.py:227-253 | for every command the agent accepts, the server's bytes are the same exactly when no payload integer is spelled -0 |
| `Merkle.MerkleRoot` | server/scripts/verify_evidence_bundle.py:108-124 | the level loop with odd-node carry computes the root of the recursive tree |
| `Merkle.HashLevel` | server/scripts/verify_evidence_bundle.py:115-122 | one level from the one below it |
| `Merkle.PassKeepsTheRoot` | server/scripts/verify_anchor_receipt.py:36-47 | one pass of the loop keeps the root of the tree split at the largest power of two |
| `Merkle.SplitPointIsTheLargest` | server/scripts/verify_anchor_receipt.py:40-46 | the split is at the largest power of two below the number of leaves |
| `Merkle.RootBindsLeaves` | server/scripts/verify_anchor_receipt.py:36-47 | equal count and equal root mean equal leaves when one side's leaves are full digests, or two different inputs hashed in the two trees have one hash |
| `Merkle.EqualRootsEqualLeaves` | server/scripts/verify_evidence_bundle.py:108-124 | the same for the hexadecimal texts that are compared |
| `Merkle.ShortLeavesAreAmbiguous` | server/scripts/verify_evidence_bundle.py:111-114 | with short leaves on both sides two different lists have one root under every hash |
| `Merkle.RootDoesNotBindTheCount` | server/scripts/verify_anchor_receipt.py:36-47 | every list of two or more leaves has the root of a shorter one |
| `Merkle.HexRoundTrip` | server/scripts/verify_evidence_bundle.py:111-124 | bytes.fromhex undoes hex |
| `EvidenceChain.Verify` | server/scripts/verify_evidence_bundle.py:191-286 | verify returns the bundle ID exactly when every listed check holds, else the first part that fails |
| `EvidenceChain.CheckEvents` | server/scripts/verify_evidence_bundle.py:244-268 | the loop over selected events accepts exactly the events that are in order, in the prefix, linked and correctly hashed |
| `EvidenceChain.IndexHashes` | server/scripts/verify_evidence_bundle.py:218-232 | the prefix check builds the index from sequence numbers to hashes |
| `EvidenceChain.CheckAnchors` | server/scripts/verify_evidence_bundle.py:270-285 | the loop over anchors accepts exactly the anchors that match the prefix and its root |
| `EvidenceBinding.BundleIDCommitsToTheRecords` | server/scripts/verify_evidence_bundle.py:199-217 | two accepted artifacts with one bundle ID hold the same manifest and the same records, or two of the parts they seal differ and have one digest |
| `EvidenceBinding.SnapshotBindsTheHistory` | server/scripts/verify_evidence_bundle.py:218-268 | two accepted artifacts with one range and one snapshot hash that select every event agree on every hashed field and on every audit hash from from_seq - 1 on, or the hashed fields of two of their events differ and have one digest |
| `EvidenceSample.EmptyBundleIsAccepted` | server/scripts/verify_evidence_bundle.py:191-286 | whatever the hashes, the export of an empty tenant passes with its own bundle ID |
| `EvidenceBinding.LinkBack` | server/scripts/verify_evidence_bundle.py:94-105 | where the seal tells the sealed events apart, equal event hashes give equal hashed fields and an equal previous hash |
| `EvidenceBinding.AnchorBindsThePrefix` | server/scripts/verify_evidence_bundle.py:270-281 | two anchors with one count and one root cover the same hashes, or two different inputs hashed in their trees have one hash |
| `Csv.ReadRowsOfRowsText` | server/scripts/verify_evidence_bundle.py:62-91 | the reader returns the rows the QUOTE_ALL writer wrote, whatever text they hold |
| `EvidenceCsv.SerializeCsv` | server/scripts/verify_evidence_bundle.py:62-91 | the loops write header, manifest and the sections in order, with ordinals and digests |
| `EvidenceCsv.ParseCsv` | server/scripts/verify_evidence_bundle.py:127-173 | the loop over rows computes the specified reading |
| `EvidenceCsv.CsvRoundTrip` | server/scripts/verify_evidence_bundle.py:62-173 | parse_csv returns every bundle that serialize_csv writes |
| `EvidenceCsv.AcceptsExactlyTheSerializedBundles` | server/scripts/verify_evidence_bundle.py:127-173 | parse_csv accepts a text exactly when serialize_csv writes it, and returns that bundle |
| `KeyRotation.RegistryTool.Validate` | server/scripts/rotate_command_key.py:75-92 | the two passes decide the registry invariants |
| `KeyRotation.RegistryTool.WriteAtomic` | server/scripts/rotate_command_key.py:95-110 | only a valid registry is written, all of it or nothing |
| `KeyRotation.RegistryTool.InitRegistry` | server/scripts/rotate_command_key.py:162-173 | init |
| `KeyRotation.RegistryTool.GenerateKey` | server/scripts/rotate_command_key.py:176-187 | generate |
| `KeyRotation.RegistryTool.AddKey` | server/scripts/rotate_command_key.py:190-198 | add |
| `KeyRotation.RegistryTool.ActivateKey` | server/scripts/rotate_command_key.py:201-220 | activate |
| `KeyRotation.RegistryTool.RetireKey` | server/scripts/rotate_command_key.py:223-234 | retire |
| `KeyRotation.CommandEffects` | server/scripts/rotate_command_key.py:10-28 | what each successful command does to the signing key and to the trust bundle |
| `KeyRotation.RefusedCommandsChangeNothing` | server/scripts/rotate_command_key.py:39-41 | a command that fails leaves registry and journal as they were |
| `KeyRotation.OnlyBadNewKeysAreInvalid` | server/scripts/rotate_command_key.py:75-92 | on a valid registry only a malformed new key can violate the invariants |
| `KeyRotation.FailedGenerateCannotBeRepeated` | server/scripts/rotate_command_key.py:127-134 | repeating a failed generate ends in KeyFileExists exactly when the first try got past the registry checks and did not fail at the journal line alone |
| `KeyRotation.RegistryStaysValid` | server/scripts/rotate_command_key.py:75-92 | over every run exactly one key is active, the one named, and a retired key never returns |
| `KeyRotation.PatientRotationNeverStrandsACommand` | server/scripts/rotate_command_key.py:19-25 | over every history in which both waits are kept, each command in flight was signed by a key in every agent's bundle |
| `KeyRotation.ActivatingTooEarlyStrandsACommand` | server/scripts/rotate_command_key.py:20-23 | without the first wait the next command is stranded |
| `KeyRotation.RetiringTooEarlyStrandsACommand` | server/scripts/rotate_command_key.py:23-25 | without the second wait a command in flight is stranded |
| `RoutingManifest.VerifyRoutingManifest` | agent/internal/verify/manifest.go:86-181 | the manifest, or the first demand it fails; some signature must be a trusted or legacy key's |
| `RoutingManifest.LifetimeBoundHoldsExactlyWithoutOverflow` | agent/internal/verify/manifest.go:139-143 | the lifetime bound holds exactly when the difference in seconds fits a Duration |
| `RoutingManifest.OverflowingLifetimeIsAccepted` | agent/internal/verify/manifest.go:140-141 | a lifetime that passes by overflow |
| `RoutingManifest.Session.ApplyRoutingAndKeys` | agent/internal/service/runner.go:1199-1227 | a verified manifest is adopted; the unsigned bundle counts only on a direct beat |
| `RoutingManifest.Session.AdoptManifest` | agent/internal/service/runner.go:1229-1268 | keys, stored manifest and routes from one manifest, or nothing |
| `RoutingManifest.Session.ParseKeyBundle` | agent/internal/service/runner.go:1270-1280 | a bundle parses whole or not at all |
| `RoutingManifest.EffectRequires` | agent/internal/verify/manifest.go:94-180 | what a manifest has been checked for when it takes effect, a trusted signature included |
| `RoutingManifest.AllOrNothing` | agent/internal/service/runner.go:1188-1198 | a beat changes keys, routes and stored manifest together; a relayed beat without a good manifest changes nothing |
| `RoutingManifest.RelayedKeysAreVouchedFor` | agent/internal/service/runner.go:1195-1268 | after any run of relayed beats the keys are reached by a chain of manifests each signed by a key trusted at that step |
| `RoutingManifest.HeldManifestNeverGoesBack` | agent/internal/verify/manifest.go:150-152 | the issued_at of the held manifest never decreases |
| `OutputLimits.LimitWriter.Write` | agent/internal/executor/limits.go:28-40 | keeps the first max bytes of everything written and counts it all |
| `OutputLimits.LimitWriter.Truncated` | agent/internal/executor/limits.go:43-43 | true exactly when more was written than is kept |
| `OutputLimits.TrimIncompleteRune` | agent/internal/executor/limits.go:47-64 | the loop drops the bytes the specification drops |
| `OutputLimits.ApplyOutputLimits` | agent/internal/executor/limits.go:70-86 | both streams after both caps, each flagged exactly when fewer bytes survive than were produced |
| `OutputLimits.TrimIsWellFormedPrefix` | agent/internal/executor/limits.go:45-64 | for any cut of a well-formed text the trim leaves its longest well-formed prefix |
| `OutputLimits.PrefixIsLongest` | agent/internal/executor/limits.go:45-64 | no longer prefix is well formed |
| `OutputLimits.CaptureIsTheLongestWellFormedPrefix` | agent/internal/executor/limits.go:67-86 | well-formed streams come out as the longest well-formed prefixes of what the caps leave, stderr untouched by the combined cap, both bounds kept |
| `Hysteresis.CheckState.ApplyHysteresis` | agent/internal/monitoring/evaluator.go:303-355 | one step of the counter machine, in place |
| `Hysteresis.TailRunIsTheLongestConstantTail` | agent/internal/monitoring/evaluator.go:342-347 | the pending count measures the longest constant tail |
| `Hysteresis.CounterRefinesHistory` | agent/internal/monitoring/evaluator.go:303-355 | status and pending count follow from the history alone; an empty status behaves as unknown |
| `Hysteresis.StatusMovesExactlyOnAFullRun` | agent/internal/monitoring/evaluator.go:334-353 | the status moves exactly on unknown or on a full run of the required length |
| `Software.NormalizeSoftware` | agent/internal/inventory/software.go:118-168 | the list of the surviving rows, in order |
| `Software.BestIsTop` | agent/internal/inventory/software.go:119-133 | the survivor of each program is one of its highest-ranked rows |
| `Software.SurvivorIsMostAuthoritative` | agent/internal/inventory/software.go:51-66 | a program is reported from the native machine view if registered there, else the 32-bit view, else the user's |
| `Software.OneEntryPerProgram` | agent/internal/inventory/software.go:100-133 | one entry per dedup key |
| `Software.OrderIsUnique` | agent/internal/inventory/software.go:156-167 | the order determines the list |
| `Software.OneListExactlyWhenTopsAgree` | agent/internal/inventory/software.go:111-167 | every enumeration order gives one list exactly when the highest-ranked rows of each program agree |
| `Software.FitSoftwareEntries` | agent/internal/inventory/software.go:177-209 | ends with a prefix that fits or is empty, flagged exactly when shorter; a list that fits is left alone |
| `RotateLog.RotatingWriter.constructor` | agent/internal/service/rotatelog.go:27-52 | opens the log that is there, or an empty one |
| `RotateLog.RotatingWriter.Shift` | agent/internal/service/rotatelog.go:80-88 | the descending loop moves each segment one further and drops the oldest |
| `RotateLog.RotatingWriter.Rotate` | agent/internal/service/rotatelog.go:71-90 | a rotation, with and without backups |
| `RotateLog.RotatingWriter.Write` | agent/internal/service/rotatelog.go:55-67 | appends, rotating first when the limit would be passed |
| `RotateLog.WriteLosesOnlyTheOldest` | agent/internal/service/rotatelog.go:55-90 | a write adds its bytes and loses at most the oldest segment |
| `RotateLog.LogIsASuffix` | agent/internal/service/rotatelog.go:55-90 | after any run of writes the log is a suffix of what was there and everything written |
| `RotateLog.ActiveFileIsBounded` | agent/internal/service/rotatelog.go:55-67 | after a write the active file is within the limit or holds that write alone |
| `RotateLog.LogStaysBounded` | agent/internal/service/rotatelog.go:11-14 | the number of segments and the bytes on disk stay bounded |
| `Routes.CooldownIsExact` | agent/internal/client/routes.go:129-142 | the wrapped 64-bit cooldown is min(30 s * 2^(f-1), 10 min) for every failure count |
| `Routes.LargeShift` | agent/internal/client/routes.go:138-141 | an overflowed shift is never a small positive number |
| `Routes.FailedRelayRestsExactly` | agent/internal/client/routes.go:113-143 | a failed relay is left alone for exactly its cooldown |
| `Routes.Client.SetRoutes` | agent/internal/client/routes.go:57-86 | the new list with the old counts and deadlines, or no change |
| `Routes.RefreshKeepsCooldowns` | agent/internal/client/routes.go:72-82 | a refresh keeps count and deadline of every surviving relay |
| `Routes.Client.ActiveRoutes` | agent/internal/client/routes.go:113-127 | exactly the relays out of cooldown, in order, while the manifest lasts |
| `Routes.Client.MarkRoute` | agent/internal/client/routes.go:129-143 | one relay's count and deadline, the others unchanged |
| `Routes.Client.Do` | agent/internal/client/client.go:580-598 | the first relay that does not fail over answers, those before it rest, the origin answers last |
| `Routes.OriginIsTheLastResort` | agent/internal/client/client.go:580-598 | the origin answers exactly when every relay tried fails over |

## Left out

- AgentRunner: the keys of a session come with each heartbeat; how they change is the subject of `RoutingManifest`, whose outcome is one flag here; `RelayedCommands` puts the two together. What an executor does with a command, credential recovery and the monitoring outbox are not modelled.
- SelfUpdateProgress.UpdatesClimb: assumes that an artifact which passes its signed digest and size carries the version stamp its metadata name; without that the exact conditions are `SelfUpdateDescent.ClimbsForGoodExactly` and `SelfUpdateDescent.SwapLowersExactly`.
- JournalProtocol assumes of the commands that verify one signed expiry per ID and IDs that do not start with the nonce prefix, and a clock that does not go backwards; the server side of rotation and result idempotency is taken from the comments.
- Every effect of a save other than old file or new file (a torn file, two renames, file permissions), and the first load of a damaged journal.
- SelfUpdate: `atomicReplace` is one step, so the two renames on Windows are not modelled; the staging directory keeps one artifact; health deadlines use the modelled clock.
- Unicode: ill-formed UTF-8 in JSON texts (Go replaces it), lone surrogates in Python (it keeps them), the nesting limit of Go's decoder and the digit limit of Python's int are not modelled.
- PythonJson.LoadsDumps: floats and NaN; a number that is not an integer keeps its literal.
- PythonJson.LoadsIsLoadable: the same.
- EvidenceChain.Verify: sequence numbers written as floats are refused, where Python would compare them as equal to integers.
- EvidenceChain.IndexHashes: the same.
- EvidenceCsv.ParseCsv: ordinals in the other spellings Python's int accepts (signs, spaces, underscores) are refused at once rather than by the final comparison; exceptions Python does not catch count as refusals.
- EvidenceChain: the artifact loader, and that the two hash parameters are one function.
- Hash functions, signatures, PEM, base64, url.Parse and time.Parse are parameters; nothing is proved about them.
- KeyRotation: the registry file as JSON text, key material, and the delay between a registry change and the server serving it.
- RoutingManifest: two JSON members with one name in a manifest, and the session's first load of the stored manifest.
- Hysteresis: `Evaluate` around it (due times, probes, the bounded outbox) and `classifyNumeric`, which compares floats.
- Software: Unicode case folding and spaces; `sort.Slice` is represented by an insertion sort with the same contract.
- RotateLog: I/O errors and segments left by a larger earlier backup count; a negative backup count behaves as zero.
- Routes: which paths a relay may carry, the HTTP exchange, concurrent calls (states are values in the list, so a mark on a route that was replaced meanwhile is not represented).
- PowerShell collectors, Windows APIs, TLS, the dashboard, deploy, power, service-process and event-log validators: one branch each, they would add only easy members.
