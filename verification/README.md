# A model of the authorization gateway engine

`mcp-authz-gateway` stands between an agent and an upstream tool server. This project models its engine,
`internal/authz`, and proves what the engine is for:

- **The ledger.** `state.db` and the hash-chained `audit.jsonl`, written under one lock by any number of
  processes. The model goes from characters and lines (`Framing`, `StateLine`, `AuditLine`, `StateFile`,
  `AuditFile`) over records and their replay (`LedgerState`, `Compaction`, `AuditChain`) and the operations
  (`LedgerOps`, the class `LedgerProcess.Ledger`) to runs, one durable write at a time (`LedgerTrace`,
  `LedgerSafety`), operations that crash between any two writes (`LedgerRuns`), and a system of processes
  that crash, reopen and forward committed calls (`LedgerSystem`, and `LedgerService`, which says that they do get
  through). `LedgerCaches` refines that system to the text of the files and a cache per process, `LedgerDrift` says
  how far clocks may fall behind, `StateFits` and `LedgerSound` which contents the real line formats carry.
  `LedgerRevoke` is the revocation command, `Repair` the torn-tail repair, `Sod` the Separation of Duties check.
  What all this means to a caller is said on inputs, files and states alone: which files replay and to what
  (`LedgerReplay`), what each operation changes (`LedgerEffects`), the limits in terms of the calls made (`LedgerRequests`), what startup accepts
  (`LedgerStartup`), what a compaction leaves (`CompactionSize`), which requests conflict (`SodRules`), what the
  lines and digests consist of (`LineMembers`).
- **Secrets.** `Redaction`, `Scrubber`, `Base64`, `SecretScanner`, and `SecretFlow`, which joins them; `NeedleRules`
  spells out the needles, `ScrubberOutput` what the scrubber lets through.
- **Canonical JSON.** `Utf16`, `Json`, `JsonRoundTrip`, `JsonWriter`, `JsonRecord`, `JsonSize`, with `Terminal` and
  `Sanitize` for text that leaves the gateway. `JsonGrammar` gives the texts of JSON documents independently of
  the decoder, `TextRules` the treatment of single characters.
- **The manifest epoch.** `Epoch`: every interleaving of any number of threads. `EpochProgress` says what calls
  achieve, `EpochNotices` that they heed notifications.
- **Policy paths and step-up approval.** `Paths`, `StepUp`, and `ApprovalRules`, which spells out acceptance.

`dafny verify dfyconfig.toml` checks the whole project.

## Assumptions

- A digest (SHA-256) is an arbitrary function whose results have 64 digits; where injectivity would be
  needed, the theorem says "or here are two different texts with the same digest" instead. The CRC32C
  function, signature schemes and regular expressions are arbitrary functions or predicates.
- The policy is fixed for a run. The device and inode number name one file, which only grows until a rename
  puts another one in its place.
- A failed write is a crash of the process. A crash stops all processes, and `OpenLedger` runs before the next
  operation.
- A file, a line and a string are sequences of Unicode characters; sizes in `StateFile` and `LedgerProcess`
  count characters. `Json.Utf8Length` gives the byte length where the decoder's cap is concerned.

## Findings

- A needle of at least 12 bytes is removed from every text by every list of needles exactly when it does not
  overlap the marker `[REDACTED]`: no end of the marker starts it, no start of the marker ends it, and it does not
  contain the marker (`Redaction.NeedleAlwaysRemovedIff`). The same holds of the scanners that `NewSecretScanner`
  builds, for secrets of more than 16 bytes: when a secret overlaps the marker, a second secret, a run of one
  letter, and a text around that run bring it back (`SecretFlow.SecretAlwaysRedactedIff`). Base64 forms never
  overlap the marker, so they are always removed (`SecretFlow.RedactionHidesEncodedSecrets`).
- With needles that do not overlap the marker, the stderr scrubber is safe for every stream exactly when every
  needle contains one of at most 16385 bytes (`Scrubber.ScrubberSafeIff`).
- Single use of tokens needs clocks that fall less than 60 seconds behind, and 60 is exact for all policies
  together: with any larger bound there is a history of opening, a commit, a compaction by a process 60 seconds
  ahead and a second commit that consumes one token twice (`LedgerDrift.SingleUseIff`).
- Compaction at time `now` changes the replay verdict at `now` itself for tokens remembered until `now`, and at
  no later time (`Compaction.CompactionPreservesMeaning`). Such a token left its time window 60 seconds before, so
  this matters only to clocks that far behind.
- The loader refuses `reverify_manifest_before_write: false` when a write tool is enabled
  (`internal/authz/policy.go:326`). Under every policy it accepts no upstream call, read or write, overlaps
  poisoning (`Epoch.PoisonStopsCalls`), and the check is exactly what write calls need: under every policy it
  refuses, some interleaving would call on a poisoned gateway (`Epoch.WritesAvoidPoisonIff`).
- A policy path may resolve through `properties` declared on a node that is no object; then some conforming
  arguments are refused with a type error (`Paths.PathIsSoundIff`).
- `FormatStateRecordLine` has no length limit, the parser of `state.db` has one of 64 KiB. The arguments of
  `revoke-grant` are checked for characters but not for length (`internal/authz/statedb.go:1434-1455`), so a
  subject of more than 65536 characters is written as a `grant_revoke` line that no later load accepts
  (`LedgerRevoke.OverlongSubject`), whatever is appended after it (`LedgerRevoke.OverlongRevocationStops`). A
  ledger of sound records loads after a checked revocation exactly when the line takes at most 64 KiB
  (`LedgerRevoke.RevokedLedgerLoadsIff`). With safe strings of at most 800 characters every operation's writes
  read back (`LedgerSound.RealOpKeepsLedger`).

## Model

| member | source | states |
|---|---|---|
| Framing.UnframeFrame | internal/authz/statedb.go:60-71 | a file made of formatted lines reads back as exactly its records |
| Framing.FrameUnframe | internal/authz/statedb.go:514-536 | a file all of whose lines verify is character for character the framing of its records |
| Framing.SplitConcat | internal/authz/statedb.go:442-445 | splitting at newlines distributes over joining two texts with a newline |
| StateLine.LineCodecOk | internal/authz/statedb.go:46-71 | for every checksum function a state line parses exactly when it is the canonical line of a record with safe strings, int53 numbers and at most 64 KiB, and then to that record |
| LineMembers.StateLineMembers | internal/authz/statedb.go:31-45 | a state line has the version, ledger, kind, gateway, key and the two times under their names, and sub_key, value, count, audit_seq, audit_hash and crc32c exactly when they are not empty |
| LineMembers.KindNames | internal/authz/statedb.go:31-45 | the record kinds under their names |
| LineMembers.ChecksumCovers | internal/authz/statedb.go:46-58 | an accepted line is the canonical text of an object whose crc32c is the checksum of the canonical text of the object without it |
| StateFits.LineParsesIff | internal/authz/statedb.go:46-71 | the line written for a record of a known kind reads back exactly when its strings are safe and it takes at most 64 KiB, and is refused otherwise |
| StateFits.OverlongKey | internal/authz/statedb.go:58-71 | a record whose key has more than 65536 characters is written and never read again, for every checksum |
| StateFits.SoundFits | internal/authz/statedb.go:46-71 | safe strings of at most 800 characters and int53 numbers always read back |
| AuditLine.LineCodecOk | internal/authz/statedb.go:638-669 | an audit line parses exactly when it is the canonical line of a record within the decoder's limits, with the descriptive members of AuditRecordV1, their types and no others, and then to that record |
| LineMembers.AuditLineMembers | internal/authz/audit.go:20-44 | an audit line has its chain members and contents under their names, the descriptive members, and no others |
| StateFile.ApplyStateRecordsBytes | internal/authz/statedb.go:435-512 | the loop computes the replay function on every text, with the same errors in the same order |
| StateFile.TextDeltaReplay | internal/authz/statedb.go:401-433 | once a prefix of the file replays, replaying all of it equals applying the rest as a delta, for every text and every error |
| StateFile.AcceptedIsFramed | internal/authz/statedb.go:435-512 | a state.db that replays is exactly the lines of some records, and its replay is theirs |
| StateFile.CachedDelta | internal/authz/statedb.go:401-414 | the cached state with the unread rest applied means what a full replay of the current file gives |
| StateFile.CacheStaysOk | internal/authz/statedb.go:397-433 | appends and renames by other processes keep every cache valid |
| StateFile.LoadThroughMeans | internal/authz/statedb.go:380-433 | through a valid cache a process sees what a full replay gives, errors included, and its new cache is valid |
| LedgerState.DeltaReplay | internal/authz/statedb.go:435-512 | the delta law on records |
| LedgerReplay.ReplaysIff | internal/authz/statedb.go:435-512 | records replay exactly when a header with a 32-digit ledger id comes first, all others are of a known kind and of the same ledger and gateway, the marks never fall, and the last mark has a number and a hash of 64 digits |
| LedgerReplay.ReplaySays | internal/authz/statedb.go:468-507 | and then the state holds the charges and challenges in order, the last record of each token, the grants not revoked since with the time stamp of their last record, and the last mark |
| LedgerState.ApplySameMeaning | internal/authz/statedb.go:483-501 | states that differ only in empty grant sets and time stamps of grants stay so under any records, with equal errors |
| LedgerProcess.Ledger.constructor | internal/authz/statedb.go:293-311 | a new process starts with a cold, hence valid, cache |
| LedgerProcess.Ledger.Load | internal/authz/statedb.go:352-433 | on every content of the two files the loaded state is the delta on the cached state or the full replay, either way what a full replay gives, and the cache then covers the whole file |
| LedgerProcess.Ledger.CompactFile | internal/authz/statedb.go:1019-1195 | the new file is the compaction of the given state and the cache is that file |
| LedgerProcess.Ledger.AppendAuditAndHwm | internal/authz/statedb.go:673-761 | the files change by exactly the chained audit line and its mark, and by a compaction exactly when state.db has passed 4 MiB |
| LedgerProcess.Ledger.FinishOp | internal/authz/statedb.go:673-761 | on any files that loaded, the operation's writes end with the audit record, its mark and the compaction; a ledger held before is held after |
| LedgerProcess.Ledger.AppendAudit | internal/authz/statedb.go:764-768 | on any content of the files: the error of a full replay and nothing written, or one audit record and its mark |
| LedgerEffects.AuditKeeps | internal/authz/statedb.go:764-768 | an audit record alone changes nothing but the log: one record with the template's contents, chained to the last one, and the mark at it |
| LedgerProcess.Ledger.RecordChallenge | internal/authz/statedb.go:773-823 | on any content of the files: counts, then records the challenge or its denial; files that held a ledger hold that of the operation's run |
| LedgerEffects.ChallengeIsCounted | internal/authz/statedb.go:773-823 | a challenge is admitted exactly when fewer than the limit are live; it is then counted for 60 seconds, otherwise only its denial is logged |
| LedgerProcess.Ledger.Revoke | internal/authz/statedb.go:1465-1510 | on any content of the files: the load error, or one revocation record, the audit record and the mark |
| LedgerEffects.RevokeRevokes | internal/authz/statedb.go:1465-1510 | after a revocation, on the files and in memory, a subject holds an entitlement exactly when it held it before and it is not the revoked pair; charges, tokens and challenges stay; one record is appended to the log |
| LedgerRevoke.CheckRevocation | internal/authz/statedb.go:1434-1461 | the loop over the four arguments and the checks after it |
| LedgerRevoke.CheckedIff | internal/authz/statedb.go:1434-1461 | exactly the arguments without refused characters and line breaks or tabs pass that are not blank and whose ticket matches, and they come out trimmed |
| LedgerRevoke.RevocationParsesIff | internal/authz/statedb.go:1434-1484 | for everything the checks let through, the revocation line reads back exactly when it takes at most 64 KiB |
| LedgerRevoke.OverlongIsChecked | internal/authz/statedb.go:1434-1461 | the checks let subjects of any length through |
| LedgerRevoke.OverlongSubject | internal/authz/statedb.go:1470-1484 | for every checked subject of more than 65536 characters the written line is never read again |
| LedgerRevoke.OverlongRevocationStops | internal/authz/statedb.go:1470-1514 | after such a revocation no load succeeds, whatever other processes append |
| LedgerRevoke.RevokedLedgerLoadsIff | internal/authz/statedb.go:1470-1514 | a ledger of sound records loads after a checked revocation exactly when its line takes at most 64 KiB |
| LedgerProcess.Ledger.Check | internal/authz/statedb.go:855-917 | replay, Separation of Duties and budget are decided in that order |
| LedgerProcess.Ledger.Commit | internal/authz/statedb.go:830-1006 | on any content of the files: the load error, or the decision of the replayed state; budget, grants and token precede the allow record; a denial writes only its audit record |
| LedgerEffects.CommitCommits | internal/authz/statedb.go:888-1006 | an allowed commit charges exactly the requested targets for the policy window, grants exactly the requested pairs, remembers exactly its token until its expiry plus skew plus 60 seconds, and is audited as allowed |
| LedgerEffects.DeniedCommitKeeps | internal/authz/statedb.go:851-917 | a denied commit changes nothing but the log, where it is recorded as denied |
| LedgerRequests.DecisionIs | internal/authz/statedb.go:851-917 | refused as replayed exactly when its token is remembered up to now; else for duties exactly when a rule refuses it for one of its subjects; else for the budget exactly when it exceeds it |
| LedgerProcess.Ledger.ForceCompact | internal/authz/statedb.go:1010-1017 | on any content of the files: the load error, or the file replaced by the compaction of what it replays to |
| LedgerProcess.Ledger.Recover | internal/authz/statedb.go:540-598 | on any content of the files: succeeds exactly when the log verifies and its tail is the mark or one ahead, with the corruption error otherwise; writes the catch-up mark exactly when the log is one ahead |
| LedgerProcess.CrashedFilesAreAccepted | internal/authz/statedb.go:540-598 | startup refuses nothing that a crash may have left, unless a file has outgrown the size limit |
| LedgerStartup.StartupAcceptsIff | internal/authz/statedb.go:540-598 | for every content of the two files startup succeeds exactly when they hold a ledger that is in sync or one record ahead of its mark, and are within the size limit |
| LedgerStartup.MarkedPart | internal/authz/statedb.go:540-598 | such a log is as long as its mark says or one longer, and its record at the mark has the marked hash |
| LedgerStartup.AcceptedLogsAgree | internal/authz/statedb.go:540-598 | two accepted logs under one state.db agree up to its mark, or exhibit two records with one hash |
| LedgerProcess.GrantLines | internal/authz/statedb.go:919-937 | the nested loops write one grant line per subject and entitlement, in order |
| LedgerProcess.CommitLines | internal/authz/statedb.go:888-961 | the buffer is the lines of the commit's records |
| LedgerProcess.UpdateForCommit | internal/authz/statedb.go:968-1000 | the in-memory loops compute the state that the commit is specified by |
| LedgerOps.CountBudgets | internal/authz/statedb.go:873-886 | the loop counts calls and targets of the principal within a minute and within the window |
| LedgerOps.CountChallenges | internal/authz/statedb.go:781-786 | the loop counts the live challenges of the principal |
| LedgerOps.CommitReplays | internal/authz/statedb.go:888-1002 | replaying a commit's records gives the in-memory update, up to empty grant sets |
| LedgerFiles.RepresentsAll | internal/authz/statedb.go:723-757 | writing to the files is writing to the records they hold, and files only grow or are replaced |
| LedgerFiles.OpKeepsFiles | internal/authz/statedb.go:352-433 | after an operation the files hold the records of its run and the remembered state is what they replay to |
| LedgerFiles.PerformedKeepsLedger | internal/authz/statedb.go:352-433 | the same from the contract of the class's operations |
| LedgerSound.OpIsSound | internal/authz/statedb.go:673-1195 | from sound contents and inputs every write of every operation, compactions included, is one its parser reads back, and so is what the process remembers |
| LedgerSound.RealOpKeepsLedger | internal/authz/statedb.go:673-1195 | with the real line formats an operation on a ledger of sound records leaves files that hold the ledger of its run, again of sound records |
| LedgerSound.GenesisIsSound | internal/authz/statedb.go:179-266 | a new ledger in the real formats is one of sound records |
| LedgerSound.ColdStartIsSound | internal/authz/statedb.go:415-430 | what a process with a cold cache sees of a ledger of sound records is sound again |
| Compaction.CompactLocked | internal/authz/statedb.go:1019-1195 | the loops produce the compacted file, tokens and grants in key order, and the in-memory state that goes with it |
| Compaction.CompactionIsDetermined | internal/authz/statedb.go:1040-1130 | the state determines the compacted file: map iteration order leaves no trace |
| Compaction.CompactedFileReplays | internal/authz/statedb.go:1019-1195 | the compacted file replays to the state left in memory and keeps the time stamps of grants |
| Compaction.CompactionPreservesMeaning | internal/authz/statedb.go:1019-1195 | same ledger, marks and grants; same budget sums and challenge counts at every later time; same replay verdicts except at now for tokens expiring at now |
| CompactionSize.CompactionLeavesTheLive | internal/authz/statedb.go:1019-1195 | the compacted file is its header, each live token, charge and challenge and each grant exactly once, and its mark; nothing that has run out or been revoked |
| AuditChain.AppendKeepsChain | internal/authz/statedb.go:673-722 | the record made by an append extends every valid chain to a valid chain |
| AuditChain.ValidChainIff | internal/authz/statedb.go:600-669 | exactly the logs numbered from 1, linked to the record before or to 64 zeros, of one gateway and ledger, each with the hash of all it says |
| AuditChain.SameTailSameLog | internal/authz/statedb.go:600-669 | two verified logs with the same last hash hold the same records, up to null and empty, or exhibit two records with one hash |
| AuditLine.PreimageIsInjective | internal/authz/audit.go:47-64 | different records have different hash inputs, up to null and empty |
| LineMembers.HashCovers | internal/authz/audit.go:47-64 | the hash covers the domain and the line of the record without its hash, with null scopes and arguments written as empty ones |
| AuditLine.SameTailSameLogOrDigestCollision | internal/authz/audit.go:47-64 | the same for the real hash input: a disagreement is a collision of the digest itself |
| AuditFile.VerifyAuditChainFile | internal/authz/statedb.go:600-636 | accepts exactly the files whose lines form a valid chain, and returns its tail |
| LedgerTrace.RunStaysRecoverable | internal/authz/statedb.go:540-598 | wherever a run of writes stops, the log is a valid chain whose tail is the mark or exactly one past it |
| LedgerTrace.SwapEffect | internal/authz/statedb.go:1019-1195 | a compaction from any process's view keeps the files synced and their meaning |
| LedgerSafety.TokensAreSingleUse | internal/authz/statedb.go:851-861 | in every run whose time stamps fall less than 60 seconds behind, no approval token is consumed twice |
| LedgerDrift.SingleUseIff | internal/authz/statedb.go:851-861 | for all policies together, no history of operations, crashes and recoveries whose time stamps fall less than b seconds behind consumes a token twice exactly when b is at most 60 |
| LedgerDrift.TokenUsedTwice | internal/authz/statedb.go:1010-1017 | open, commit, compact 60 seconds ahead, commit: a history that consumes one verified token twice |
| LedgerSafety.BudgetsHold | internal/authz/statedb.go:873-917 | with ordered time stamps every principal stays within the call limit in every 60 seconds and within the target limit in every window, across compactions |
| LedgerSafety.ChallengesHold | internal/authz/statedb.go:773-823 | with ordered time stamps a principal is never given more challenges than the limit in any 60 seconds |
| LedgerRequests.CallsStayWithinLimits | internal/authz/statedb.go:873-917 | over histories with ordered time stamps, a principal's allowed commits in every 60 seconds, their requested targets in every window and its admitted challenges in every 60 seconds, all counted from the operations, stay within the limits |
| LedgerRequests.VerdictIff | internal/authz/statedb.go:873-917 | a commit that no token and no duty stands against is allowed exactly when, with the calls made so far, it stays within both limits; a challenge is refused exactly when the minute already holds as many as the limit |
| LedgerRequests.TokenVerdict | internal/authz/statedb.go:851-861 | a token is refused only if it was consumed and is still to be remembered, and always while it is to be remembered longer |
| LedgerSafety.SodHoldsThroughout | internal/authz/statedb.go:863-937 | in every run, where each grant belongs to a request that passed the check against the replayed state, a subject with a conflicting ledger grant holds at most one member of the conflict set, the static baseline included |
| LedgerRuns.CommitRun | internal/authz/statedb.go:888-1006 | every record of an allowed commit is a checked step, whatever stale snapshot preceded it |
| LedgerRuns.OpIsRun | internal/authz/statedb.go:673-1006 | every operation's writes are steps of a run that ends synced and in the state kept in memory |
| LedgerEffects.OperationGoes | internal/authz/statedb.go:673-1006 | every operation that may start goes through |
| LedgerRuns.CrashedOpRecovers | internal/authz/statedb.go:540-598 | an operation cut short anywhere leaves a recoverable ledger that obeys the rules |
| LedgerSystem.GenesisIsFresh | internal/authz/statedb.go:179-266 | initialisation gives a synced ledger without budgets, challenges, tokens or grants |
| LedgerSystem.HistoryInvariant | internal/authz/statedb.go:293-311 | the system invariant holds in every state of every history |
| LedgerSystem.CommitBeforeForward | internal/authz/proxy.go:619-646 | each forwarded call has its own earlier durable commit, and forwards are at most allow records, which are at most budget records |
| LedgerSystem.OpenAlwaysRecovers | internal/authz/statedb.go:540-598 | startup accepts every reachable state and ends with the tail equal to the mark, also after crashed recoveries |
| LedgerService.OpensAgain | internal/authz/statedb.go:540-598 | after every history, however it crashed, opening the ledger brings the system up with the log at its mark |
| LedgerService.AllowedCallsAreForwarded | internal/authz/proxy.go:619-646 | while the system is up, a commit that the checks allow completes and its call is forwarded under the number of its audit record |
| LedgerSystem.SystemIsSafe | internal/authz/statedb.go:830-1006 | the three guarantees of runs hold of the whole system |
| LedgerCaches.HostsRefine | internal/authz/statedb.go:352-433 | every history of processes with their own caches, on the text of the files, is a history of the system |
| LedgerCaches.EveryCacheIsFaithful | internal/authz/statedb.go:397-433 | in every such history each process sees what a full replay of the text gives |
| LedgerService.ProcessesSee | internal/authz/statedb.go:352-433 | of files within the size limit every process in every such history sees a state, not an error |
| LedgerService.ProcessesServe | internal/authz/statedb.go:830-1006 | a process can open the ledger, and any process can complete an allowed commit and forward its call, provided that the lines it writes are ones that its parser reads back |
| Repair.ValidateOrTruncateFinalStateLine | internal/authz/statedb.go:1350-1384 | the loop with its byte offset computes the truncation |
| Repair.ValidateOrTruncateFinalAuditLine | internal/authz/statedb.go:1386-1425 | the same for the audit log, with the tail of what is kept |
| Repair.TornStateIsCut | internal/authz/statedb.go:1350-1384 | a valid file followed by any part of a further line is cut back to exactly the valid file |
| Repair.TornAuditIsCut | internal/authz/statedb.go:1386-1425 | the same for the audit log |
| Repair.TruncationRemovesOneLine | internal/authz/statedb.go:1350-1384 | on every text, truncation removes at most the last line, and only an incomplete one or one that does not verify |
| Repair.RepairLedger | internal/authz/statedb.go:1240-1347 | the whole repair, error cases included, with what each leaves in the files |
| Repair.RepairRestores | internal/authz/statedb.go:1240-1347 | from everything a crash may leave, torn lines included, an uninterrupted repair loses no complete record and ends synced |
| Repair.RepairSucceedsIff | internal/authz/statedb.go:1240-1347 | a repair succeeds exactly on files that hold a ledger in sync or one record ahead of its mark, each followed by at most one incomplete or bad line, within the size limit |
| Sod.CheckSoDRules | internal/authz/policy.go:952-1021 | an error exactly when some subject would hold two members of a rule's conflict set |
| SodRules.ViolatesIff | internal/authz/policy.go:952-1021 | a rule refuses a request exactly when it asks for a conflicting entitlement and the subject would have two different ones, by request, baseline or ledger |
| SodRules.ConflictIff | internal/authz/policy.go:952-1021 | a request is refused exactly when a rule refuses it for one of its subjects |
| Sod.CommitKeepsSod | internal/authz/policy.go:952-1021 | granting what passed the check keeps every rule for every subject, case-folded subjects included |
| SodRules.SubjectSafeIff | internal/authz/policy.go:952-1021 | what is kept: a subject to whom the ledger grants a conflicting entitlement has no two different ones |
| Redaction.RedactString | internal/authz/audit.go:170-181 | the loop computes the redaction function |
| Redaction.RedactRemoves | internal/authz/audit.go:170-181 | a needle that does not overlap the marker is gone, whatever the other needles are |
| Redaction.RedactLeavesNoNeedle | internal/authz/audit.go:170-181 | needles that do not overlap the marker are all gone, however they overlap each other |
| Redaction.RedactIsIdentityIffClean | internal/authz/audit.go:170-181 | for needles longer than the marker, a text is unchanged exactly when it holds none |
| Redaction.RedactOnlyRemovesNeedles | internal/authz/audit.go:170-181 | the result is the text with occurrences of needles replaced by the marker and everything else kept in order |
| Redaction.NeedleAlwaysRemovedIff | internal/authz/audit.go:170-181 | a needle of at least 12 bytes is removed from every text by every list of needles exactly when it does not overlap the marker |
| Scrubber.DrainAndRedactChildStderr | internal/authz/pin.go:326-356 | the read loop writes the output function of the chunks read |
| Scrubber.ShortNeedleNeverWritten | internal/authz/pin.go:326-356 | a needle of at most 16385 bytes that does not overlap the marker never appears in the concatenated output, whatever the other needles, the stream and its reads |
| Scrubber.ScrubberSafeIff | internal/authz/pin.go:326-356 | exactly which needle sets are safe for all streams |
| ScrubberOutput.CleanStreamPasses | internal/authz/pin.go:326-356 | a stream in which no needle occurs comes out as it is, whatever its reads |
| ScrubberOutput.ScrubberOnlyRemovesNeedles | internal/authz/pin.go:326-356 | for every stream and its reads the output is the stream with occurrences of needles replaced by the marker and everything else kept in order, for needles that do not overlap the marker |
| ScrubberOutput.WindowIsBounded | internal/authz/pin.go:326-356 | never more than 32768 bytes are held back after a read |
| ScrubberOutput.ReadsUpToError | internal/authz/pin.go:331-347 | the reads up to the first error count, the data that comes with it included |
| Base64.EncodeRawAt | internal/authz/audit.go:98-103 | symbol k of the unpadded encoding carries six determined bits (sections 4 and 5 of RFC 4648) |
| NeedleRules.FullGroup | internal/authz/audit.go:98-103 | every full group of three bytes is carried by four symbols, most significant bits first (section 4 of RFC 4648) |
| NeedleRules.LastGroup | internal/authz/audit.go:98-103 | of a last group filled up with zeros exactly the symbols that hold its bits are kept |
| NeedleRules.PaddingFills | internal/authz/audit.go:120-121 | padding fills the last group up to four symbols |
| SecretScanner.AddAligned | internal/authz/audit.go:97-118 | the two alphabets' needles for one byte alignment |
| SecretScanner.AddAllVariants | internal/authz/audit.go:82-121 | the variants of one secret |
| SecretScanner.NewSecretScanner | internal/authz/audit.go:73-148 | the needles are exactly the variants of all values, extra secrets and token parts, the longest first and then in string order |
| NeedleRules.NeedlesIff | internal/authz/audit.go:124-132 | exactly the needles of the secret values, the extra secrets, and the second and third parts of the three-part ones |
| NeedleRules.VariantIff | internal/authz/audit.go:82-121 | exactly the needles of one secret: at least 12 bytes, of a trimmed secret of at least 16; its plain form, an escaped form, a padded encoding, or what of it shows in the encoding of a larger text |
| NeedleRules.AlignedNeedleIs | internal/authz/audit.go:91-118 | the aligned needle is the stretch of every larger encoded text that carries bits of the secret only |
| NeedleRules.EscapedByte | internal/authz/audit.go:87-89 | how url.QueryEscape and url.PathEscape write each byte |
| NeedleRules.TrimIs | internal/authz/audit.go:82-83 | white space falls away at either end, and nothing else does |
| NeedleRules.SplitsInThree | internal/authz/audit.go:129-132 | a token has three parts exactly when it is three texts without dots joined by dots |
| NeedleRules.OrderIs | internal/authz/audit.go:136-146 | a longer needle stands before a shorter one, and needles of one length stand in byte order |
| NeedleRules.ContainsSecretIff | internal/authz/audit.go:151-167 | a text is taken for secret exactly when it holds a needle or both ends of a PEM private-key header |
| SecretScanner.OrderIsUnique | internal/authz/audit.go:140-146 | the list is determined by its needles: map iteration order leaves no trace |
| SecretScanner.EncodedSecretIsDetected | internal/authz/audit.go:91-167 | a secret of at least 16 bytes is found inside the base64 text of any surrounding bytes, either alphabet, padded or not |
| SecretScanner.NeedleShape | internal/authz/audit.go:73-148 | a needle is the plain text of a source or free of brackets, of at least 12 bytes and at most three times its source |
| SecretScanner.NeedlesRedactableIff | internal/authz/audit.go:73-148 | all needles of a scanner are redactable exactly when no secret of at least 16 bytes overlaps the marker |
| SecretFlow.RedactionHidesEncodedSecrets | internal/authz/audit.go:91-181 | after redaction no base64 text around a secret remains, whatever characters the secrets hold |
| SecretFlow.ScrubberHidesEncodedSecrets | internal/authz/pin.go:326-356 | nor in the scrubbed stream, for each secret of at most 5461 bytes, whatever the others |
| SecretFlow.SecretAlwaysRedactedIff | internal/authz/audit.go:73-181 | for secrets of more than 16 bytes, every scanner with the secret removes its plain text from every text exactly when it does not overlap the marker |
| SecretFlow.ScannerRedactableIff | internal/authz/audit.go:73-148 | all needles of a scanner are redactable exactly when no configured secret overlaps the marker |
| Utf16.CompareUTF16 | internal/authz/jcs.go:516-541 | the loop compares the UTF-16 code units |
| TextRules.CompareIff | internal/authz/jcs.go:516-541 | a key comes before another at the first different code unit or as its beginning |
| TextRules.EncodedChar | internal/authz/jcs.go:516-541 | a character is one code unit, or a high and a low surrogate with ten bits each |
| Utf16.EncodeInjective | internal/authz/jcs.go:516-541 | different strings have different code units |
| Utf16.CompareIsAntisymmetric | internal/authz/jcs.go:516-541 | comparison is antisymmetric and zero only on equal strings |
| Utf16.CompareIsTransitive | internal/authz/jcs.go:516-541 | comparison is transitive |
| Utf16.SortedIsUnique | internal/authz/jcs.go:407-434 | a key set has one sorted order, so enumeration order does not matter |
| Utf16.SortKeys | internal/authz/jcs.go:407-434 | sorting any enumeration of the keys gives that order |
| JsonWriter.WriteString | internal/authz/jcs.go:451-488 | the escaping loop (section 3.2.2.2 of RFC 8785) |
| TextRules.EscapedChar | internal/authz/jcs.go:451-488 | each character of a canonical string literal (section 3.2.2.2 of RFC 8785) |
| JsonWriter.WriteObject | internal/authz/jcs.go:400-434 | members in UTF-16 order (section 3.2.3 of RFC 8785), whatever the enumeration |
| TextRules.CanonicalObject | internal/authz/jcs.go:406-434 | canonical objects have no white space and their keys in order |
| TextRules.CanonicalList | internal/authz/jcs.go:390-405 | canonical arrays have no white space |
| TextRules.WordsAndIntegers | internal/authz/jcs.go:334-450 | literals, and integers as decimal digits without leading zeros |
| JsonWriter.MarshalJCS | internal/authz/jcs.go:303-434 | succeeds exactly on values with int53 integers, with their canonical text |
| JsonRoundTrip.RoundTrip | internal/authz/jcs.go:166-300 | strict decoding of a canonical text returns the value exactly when size, depth, strings and keys pass, and fails otherwise |
| JsonGrammar.DecodesIff | internal/authz/jcs.go:166-300 | strict decoding of any text gives v exactly when the text is within the byte cap and is, between white space, the text of a JSON document that means v, with int53 integers, safe strings, at most 16 levels and no key twice (nor in another case, if asked for); all else fails |
| JsonGrammar.ObjectDecodesIff | internal/authz/jcs.go:150-164 | arguments and claims: blank text counts as no members, everything else must be the text of an object of at most 64 KiB |
| JsonGrammar.OneMeaning | internal/authz/jcs.go:187-300 | a text has one meaning |
| TextRules.SafeCharIff | internal/authz/jcs.go:57-79 | exactly the refused characters |
| TextRules.SafeIntegers | internal/authz/jcs.go:20-26 | exactly the integers of absolute value below 2 to the power of 53 |
| TextRules.HexValueIs | internal/authz/jcs.go:187-300 | the value of a hexadecimal digit of either case |
| TextRules.CodeUnitIs | internal/authz/jcs.go:187-300 | four hexadecimal digits of either case, the most significant first |
| TextRules.NatValueIs | internal/authz/jcs.go:274-289 | a decimal number, digit by digit |
| JsonRoundTrip.TextIsInjective | internal/authz/jcs.go:334-488 | equal canonical texts mean equal values, with no limit on depth or strings |
| Terminal.FormatSafeTerminalASCII | internal/authz/jcs.go:546-566 | the escaping loop |
| TextRules.ShownChar | internal/authz/jcs.go:546-566 | printable ASCII stands for itself, quote and backslash aside; anything else is shown by its code point in four or eight digits |
| Terminal.FormatIsInjective | internal/authz/jcs.go:546-566 | different texts are shown differently |
| Terminal.FormatIsPrintable | internal/authz/jcs.go:546-566 | only printable ASCII is shown |
| Sanitize.SanitizeSafeJSONString | internal/authz/jcs.go:82-112 | the escaping loop |
| TextRules.SanitizedChar | internal/authz/jcs.go:82-112 | a refused character is replaced by the text of its escape, any other is kept |
| Sanitize.SanitizedIsSafe | internal/authz/jcs.go:82-112 | the result is always safe, and equals the input exactly when that was safe |
| Sanitize.AppendedLineReparses | internal/authz/statedb.go:673-722 | whatever strings reach the audit log, an appended line with arguments nested at most 15 deep parses again to its record |
| Epoch.CheckWriteTools | internal/authz/policy.go:303-329 | the loop over the tools and the check: refused exactly when a write tool is enabled and re-verification is off |
| Epoch.CountersOnlyGrow | internal/authz/proxy.go:140-142 | in every interleaving verifiedGen stays at most notifiedGen, both only grow, and poison stays |
| Epoch.PoisonStopsCalls | internal/authz/proxy.go:322-356 | under every policy that the loader accepts no upstream call, read or write, overlaps poisoning; no read call does under any policy |
| Epoch.ReadCallsAreVerified | internal/authz/proxy.go:517-543 | each read call has held the read lock since a moment when the counters were equal |
| Epoch.WriteCallsAreReverified | internal/authz/proxy.go:607-646 | under every accepted policy each write call's manifest fetch started and ended well inside its own exclusive hold |
| EpochProgress.WriteCallsGetThrough | internal/authz/proxy.go:556-646 | under every accepted policy with a write tool, on a gateway in service, a write call can go through to the upstream by steps of its own thread, whatever the counters, with the manifest verified for the last notification |
| EpochProgress.ReadCallsGetThrough | internal/authz/proxy.go:509-555 | the same for read calls, through the loop that re-verifies after a late notification |
| EpochProgress.CallsReturn | internal/authz/proxy.go:517-555 | a call that returns gives back its lock and changes nothing else |
| EpochProgress.BadFetchEnds | internal/authz/proxy.go:322-375 | a fetch that finds another manifest poisons the gateway, closes the session and frees the lock; one that loses the upstream marks it dead and frees the lock |
| EpochProgress.DeadUpstreamRefusesCalls | internal/authz/proxy.go:145-148 | once the upstream process has ended, no call that starts afterwards reaches it or fetches from it |
| EpochNotices.NotificationsAreHeeded | internal/authz/proxy.go:140-143 | when the upstream has announced another tool list, every call that starts afterwards reaches it only after a manifest fetch that started after the announcement and ended well |
| Epoch.CalledToolsAreEnabled | internal/authz/proxy.go:456-513 | only enabled tools are called, as what they are |
| Epoch.WriteOnPoisoned | internal/authz/policy.go:326-329 | why the loader's check is needed: under every policy it refuses, an interleaving would call on a poisoned gateway, with its session closed |
| Epoch.WritesAvoidPoisonIff | internal/authz/policy.go:326-329 | write calls avoid a poisoned gateway in every interleaving exactly under the policies that the loader's check accepts |
| Epoch.PoisonedCallsMeetClosed | internal/authz/proxy.go:351-356 | whatever the policy, a write call on a poisoned gateway runs on a session that poisoning has closed |
| Paths.ExtractFromSegments | internal/authz/policy.go:687-741 | the recursive method with its loop computes the extraction |
| Paths.ExtractStrings | internal/authz/policy.go:679-686 | an invalid path is a type error, any other is extracted from the arguments |
| Paths.PathIsSoundIff | internal/authz/policy.go:1636-1667 | a path that resolves to string meets no type error on conforming arguments exactly when it goes on only from objects |
| Paths.WildcardExtractsEach | internal/authz/policy.go:687-741 | a wildcard path extracts exactly one non-blank string per element, in order, from an array of 1 to 1000 |
| Paths.ExtractStringsIff | internal/authz/policy.go:663-741 | ExtractStrings yields strings exactly when the path is valid and denotes them: one leaf, or the leaf of every element of an array of 1 to 1000 |
| Paths.ExtractsNothingIff | internal/authz/policy.go:663-741 | nothing is extracted, without an error, exactly when the path is optional and a member that it goes through before any wildcard is missing or null |
| StepUp.VerifyMakerChecker | internal/authz/stepup.go:349-380 | refused exactly when approver and principal share a name in any namespace |
| StepUp.VerifyApproval | internal/authz/stepup.go:212-328 | acceptance means registered signer, ledger, time window, digest and separation; refusal means the chosen approver fails one of them |
| ApprovalRules.ApprovesIff | internal/authz/stepup.go:212-328 | exactly which tokens an approver's registration makes acceptable: version, jti of 32 to 64 hexadecimal digits, registration, signature, gateway, ledger, ticket, terminal, time to live and clock skew with their defaults, digest, and no name shared with the principal |
| ApprovalRules.ApprovalExpires | internal/authz/stepup.go:290-304 | two calls that one token is accepted for are at most its time to live and twice the clock skew apart |
| ApprovalRules.CanonIs | internal/authz/stepup.go:349-353 | names are compared with outer white space gone and upper-case ASCII letters made lower-case |
| StepUp.DigestBindsIntent | internal/authz/stepup.go:77-122 | equal intent digests mean equal intents, or a digest collision |
| LineMembers.IntentMembers | internal/authz/stepup.go:33-49 | the intent digest covers all fifteen members under their names, and no others |
| StepUp.OneTokenOneIntent | internal/authz/stepup.go:212-328 | one token is accepted for one intent only, or two intents collide |
| StepUp.NoSelfApproval | internal/authz/stepup.go:349-380 | no name of an accepted approver is a name of the principal, case and outer white space aside |

## Left out

- AuditLine.LineCodecOk: does not model the case-insensitive member matching of the struct decoder; the comparison with the canonical line refuses what it would let through.
- SecretFlow.SecretAlwaysRedactedIff: secrets of exactly 16 bytes are covered only for arbitrary lists of needles (Redaction.NeedleAlwaysRemovedIff).
- LedgerSound.RealOpKeepsLedger: asks for strings of at most 800 characters, and for the audit line to stay within 4 MiB.
- StateLine.LineCodecOk: does not model the case-insensitive member matching of the struct decoder; the comparison with the canonical line refuses what it would let through.
- StepUp.VerifyApproval: starts from a token whose base64 parts and claims have been decoded, and takes the signature scheme and the ticket pattern as given; version and jti are checked.
- LedgerDrift.TokenUsedTwice: compacts by ForceCompact; outside tests the code compacts when state.db has passed 4 MiB, which a system history leaves open.
- LedgerCaches.HostsRefine: an operation that stops half-way is a crash of all processes, and what is written must read back (LedgerSound says when it does).
- Epoch.CheckWriteTools: the loader's other conditions on write tools (JWT, budgets) are not part of this model.
- Paths.PathIsSoundIff: conformance covers types, properties and items; other keywords only narrow the arguments further.
- Paths.ExtractFromSegments: takes a path as its segments; the path regular expression is not modelled.
- Repair.RepairRestores: covers the uninterrupted repair only; the source appends without first writing a catch-up mark.
- LedgerSystem.CommitBeforeForward: counts the call as forwarded when the upstream call is made; its result and the audit record after it are ordinary operations.
- Floating-point numbers: JSON numbers are int53 integers; bare integers printed for large floats are refused by the decoder.
- Strings that are no valid UTF-8: characters are Unicode scalar values.
- Error returns that keep a process running after a failed write, and a crash of one process inside an operation while another stays open.
- LedgerSystem.GenesisIsFresh: starts from the completed files of an initialisation; a crash inside it is not modelled.
- VerifyAuditCLI and ActiveGrantsSnapshot: they read what the modelled operations read.
- RedactArgsForAudit and redactPathInMap: which argument paths are blanked before auditing.
- FetchAndCanonicalizeUpstreamTools and VerifyManifestAgainstLockfile: in the epoch protocol a fetch ends as matching, as failing, or with the upstream gone.
- walkSchemaSubset's keyword list, default and additionalProperties rules; limit defaults and caps, identifier normalisation, JWT and scope checks.
- Sanitising and time stamps inside the ledger's append: the record template of the runs stands for the sanitised one; Sanitize states what sanitising gives, and LedgerSound uses it.
- Files, locks, permissions, process spawning and terminal prompts: only append, truncate and rename remain, as steps.
- The provider packages, command line and test hook.
