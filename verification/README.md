# SOC2 Sentinel: a verified model of its evidence, telemetry, policy and scoring cores

This project models the parts of SOC2 Sentinel on which its compliance claims rest, and proves what
those parts promise on every input, over every run and at every interruption.

- **Evidence vault** (`Digests`, `Ordering`, `Merkle`, `MerkleCompletion`, `Decimal`, `Ledger`,
  `LedgerFile`, `EvidenceRoots`, `Vault`): a Merkle root over the reports of a day goes into a
  hash-linked ledger with one JSON block a line.
- **Evidence writer, manifest and audit pack** (`Manifests`, `EvidenceWriter`, `WriterGuarantees`,
  `WrittenContents`, `EvidenceReading`, `AuditPack`): a control directory is wiped and rewritten file by
  file, the manifest last; the model records every state the directory passes through, partly written
  files included.
- **Telemetry** (`Dispatcher`, `DispatcherGuarantees`, `DirectDelivery`, `Draining`, `RotatingLog`,
  `EventRing`): the dispatcher is a step system over all interleavings of emitting threads, one worker,
  sink registration and shutdown. The rotating log file is a class with a ghost history and file
  operations that may fail.
- **Policies** (`PolicyValues`, `PolicyExpressions`, `PolicyMeaning`, `FailClosed`,
  `TypedConditions`, `ConditionWalk`, `OperatorLaws`, `ValueLaws`, `PolicyEngine`, `PolicyDefaults`,
  `DefaultVerdicts`): the whitelist walk, the evaluator with its treatment of None, and the engine that
  turns outcomes into a report.
- **Scoring** (`Rounding`, `Scoring`, `ScoreMonotonicity`, `Omissions`, `MetricNames`,
  `ControlCosts`, `Scorecard`, `ScorecardGuarantees`, `PostureFormula`, `ReadinessExample`):
  seven controls, four frameworks, one posture score, with all three rounding layers.
- **Tokens and blobs** (`Base64Url`, `Tokens`, `Utf8`, `EncryptedBlobs`): signed tokens and the SSENC2
  container.

Where the source updates state step by step, the model has a class or a method with the same loop,
proved against a function that says what the result is; the properties are then proved of that
function. `dafny verify dfyconfig.toml` checks everything.

## Assumptions, all of them premises of the theorems that need them

- SHA-256 is any function from texts to 64 hexadecimal digits. No function on all texts is
  injective, so the theorems say exactly which texts must not collide: those hashed in the
  situation at hand (`NoCollision`).
- JSON: a printed document parses back, and no proper prefix of a printed manifest parses. A
  document that parses but has not the shape the code relies on counts as one that does not parse.
- The cipher: decrypting an encryption with the same key, nonce and associated data gives the
  plaintext. HMAC: any function. UTF-8 (RFC 3629) is not assumed but defined, except for the text that
  stands for octets that are not UTF-8.
- Scores are exact real numbers; `round(x, 1)` rounds ties to the even digit.
- Text formatting with `%` in a condition gives a value or an error of the runtime (`HonestFormat`).
- Time, nonces, salts, environment variables and the failures of file operations are inputs.

## Where the code does less than its documentation or its callers may expect

Each of these is a theorem: a concrete run or input, and where possible the exact condition.

- `shutdown` is documented to drain the queue. It clears the running flag before it puts its stop
  entry, so with nothing accepted meanwhile it loses nothing exactly when the queue fits the room
  left in the worker's batch: 50 while the worker waits for a first event, 50 less the batch while it
  collects, none anywhere else (`Draining.ShutdownLosesNothingIff`). Events left behind make every later
  `flush` wait for ever (`DispatcherGuarantees.LeftoversBlockFlushForever`), its `timeout` argument being
  unused. Flushing first is safe (`FlushThenShutdownLosesNothing`).
- `verify_chain` compares Merkle roots but not counts. While a day holds the recorded number of
  reports, no change is missed (`Vault.SameCountChangePassesIff`). In general a change passes exactly
  when the day is empty or its sorted digests complete to the same list when odd ends are doubled,
  level by level (`Vault.AnyChangePassesIff`), as when the report with the greatest digest is repeated in
  an odd day. That a report may spell the digests of two others is the one exception
  (`Vault.PairTextGoesUnnoticed`), since leaves and inner nodes are hashed alike.
- Cutting off the newest blocks is not noticed (`Ledger.PrefixStaysLinked`), nor is removing a whole
  day (`Vault.RemovedDayPasses`), and a seal on a ledger
  whose last line was only partly written can succeed without its block being read afterwards
  (`Vault.SealIsReadIff`).
- The joined payload of a block binds its fields exactly when the free-text fields hold equally many
  `|` (`Ledger.HeadBindsLedger`). The Merkle root is one of these fields, although only a forged
  block can have a `|` there (`Ledger.PipeInRootDefeatsBinding`).
- An unencrypted extra file may be called `manifest.json`, and then a half-written directory can
  verify; for every list of names this is the only way to break the guarantee
  (`WriterGuarantees.GuaranteeForAllContentsIff`). An extra called `a.tmp` followed by
  one called `a` makes the call fail (`ArtifactsSurviveIff`, `TmpThenPlainFails`).
- `!=` and `is not` conditions pass when the metric is missing (`FailClosed.MissingMetricPassesIff`).
- A compliance score of 100.0 does not mean that no rule failed (`PolicyEngine.PerfectScoreIff`), and
  a published 85.0 does not mean "Audit Ready" (`ScorecardGuarantees.PublishedButNotReadyIff`, reached by
  the evidence in `ReadinessExample`).
- A rotation that stops half way can leave a gap in the numbering of the backups, which the following
  complete rotations close (`RotatingLog.StoppedNoGapsIff`, `RotationsCloseGaps`).
- Withholding the date of an overdue access review, a missed recovery objective or any other metric
  whose absence reads as no penalty, or reporting no repositories at all, can raise a control score
  (`ScoreMonotonicity.WithholdingReviewPaysIff`, `LosingRepositoriesPaysIff`, `Omissions`).
- Losing the last zero-trust flags can raise the score, because the maturity level steps in
  (`ScoreMonotonicity.ZeroTrustNeverRisesIff`, `LosingFlagsIsSafeIff`, `ScorecardGuarantees.LosingLastFlagRaisesPosture`).
- A key id cut inside a UTF-8 character by the limit of 32 octets produces blobs that cannot be
  decrypted (`EncryptedBlobs.DecryptOfEncryptIff`, `AccentedIdCannotBeRead`).
- `get_events(limit=0)` returns everything (`EventRing.LimitHoldsIff`); a `backup_count` below one
  still keeps one backup (`RotatingLog.FileSink.Limit`).

## Model

| member | source | states |
|---|---|---|
| Ordering.SortAgreesIff | sentinel/vault.py:35-37 | sorting the leaves forgets their arrangement and nothing else: two lists sort alike iff they are equal as multisets |
| Ordering.LeqIsLexicographic | sentinel/vault.py:35-37 | texts are ordered by the first character in which they differ, a prefix coming first |
| Merkle.BuildTree | sentinel/vault.py:40-53 | the recursion over levels terminates and returns the root of the node list, an odd end paired with itself |
| Merkle.MerkleTree.constructor | sentinel/vault.py:34-38 | the tree holds the sorted leaves (one zero digest for none) and their root |
| Merkle.RootBindsNodes | sentinel/vault.py:40-53 | equal roots of equally long node lists mean equal lists, in order, unless two hashed pairs collide |
| Merkle.RootsAgreeIffSameLeaves | sentinel/vault.py:34-53 | for equally many leaves, equal roots exactly when the leaves are equal as multisets |
| Merkle.DuplicatedGreatestKeepsRoot | sentinel/vault.py:47-51 | why the count is needed: an odd list of three or more leaves has the root of that list with its greatest leaf repeated |
| Merkle.TreesOfOneAndTwo | sentinel/vault.py:40-53 | a lone leaf is its own root, and two leaves have the hash of the smaller followed by the greater |
| Merkle.TreeOfThree | sentinel/vault.py:47-51 | of three leaves in order the third is paired with itself |
| MerkleCompletion.RootsAgreeIffLevels | sentinel/vault.py:40-53 | for any two lengths: the roots agree exactly when one list, completed by doubling odd ends level by level, is a level of the other one's completion |
| MerkleCompletion.RootsAgreeIffSameCompletion | sentinel/vault.py:40-53 | when no leaf is the digest of an inner pair of the other tree, the roots agree exactly when both lists complete to the same list |
| MerkleCompletion.CompletionKeepsRoot | sentinel/vault.py:47-53 | completing a list changes neither its root nor the pairs hashed on the way |
| MerkleCompletion.SixAndSeven | sentinel/vault.py:47-51 | an even list of six whose last two leaves agree completes like the list with a third copy |
| Decimal.PrintIsInjective | sentinel/vault.py:86 | the printed index and count determine the numbers |
| Ledger.PayloadText | sentinel/vault.py:86 | the hashed text is the eight fields in their order, with a separator between each two |
| Ledger.JoinIsInjective | sentinel/vault.py:86 | a joined text determines its fields when all but the last hold equally many separators |
| Ledger.EqualPayloadsEqualFields | sentinel/vault.py:86-87 | equal payloads mean equal values of all eight hashed fields, whatever the signatory contains |
| Ledger.EqualHashesEqualIndex | sentinel/vault.py:220-247 | a recorded hash never reappears at another position, separators or not |
| Ledger.HeadBindsLedger | sentinel/vault.py:220-259 | two linked ledgers with one head hash are equally long, and agree on every hashed field everywhere iff their free-text fields hold equally many separators |
| Ledger.HeadBindsPipeFreeLedger | sentinel/vault.py:220-259 | with separator-free time, tenant, date and root the head hash fixes the whole ledger, the signatory being arbitrary |
| Ledger.PipeInRootDefeatsBinding | sentinel/vault.py:86-87 | for any root there is a pair of different linked one-block ledgers with the same head, one of them with a separator in the root field |
| Ledger.PrefixStaysLinked | sentinel/vault.py:216-266 | every prefix of a linked ledger is linked, so truncation shows only against a remembered head |
| Ledger.AppendKeepsLinked | sentinel/vault.py:161-188 | appending keeps a ledger linked exactly when the block has the next index, the old head as previous hash and its own correct hash |
| LedgerFile.LinesAfterBreak | sentinel/vault.py:115 | splitting at a line break is splitting both sides |
| LedgerFile.BreaksAndSpaces | sentinel/vault.py:115-118 | the ten characters that end a line, and the nineteen others that count as white space |
| LedgerFile.StripCutsSpace | sentinel/vault.py:115-118 | stripping cuts white space off both ends, and all of it |
| LedgerFile.AppendedBlockIsRead | sentinel/vault.py:114-124 | on a file that ends with a complete line, as every append leaves it, reading back gives the old blocks and the new one, even when unreadable lines came before |
| LedgerFile.AppendedBlockReadIff | sentinel/vault.py:114-124 | on any file, the appended block is what the reader gains iff the last line read as nothing before and, joined with it, reads as the block |
| LedgerFile.AppendedBlockIsLost | sentinel/vault.py:119-123 | when that joined line does not parse, the block is lost and the reader sees no more than before |
| LedgerFile.LedgerReadsBack | sentinel/vault.py:107-124 | a ledger built by appending alone reads back as the blocks that were appended, in order |
| EvidenceRoots.HashChildren | sentinel/vault.py:133-140 | the loop over the children hashes `report.json`, or `evidence.json` in its absence, of every control directory except `manifests` |
| EvidenceRoots.HashNested | sentinel/vault.py:141-145 | the fallback loop hashes every nested file with one of these two names |
| EvidenceRoots.ComputeEvidenceMerkleRoot | sentinel/vault.py:126-148 | root and count of the covered reports, none for a missing or empty day |
| EvidenceRoots.CoveredIff | sentinel/vault.py:133-145 | a content is covered exactly when a control directory other than `manifests` holds it as `report.json`, or as `evidence.json` without one, or, if there is no such directory, when a nested file of either name holds it |
| EvidenceRoots.CountIsDirectories | sentinel/vault.py:133-140 | the count is the number of control directories with a report |
| EvidenceRoots.RootAndCountBindCoveredFiles | sentinel/vault.py:126-148 | root and count agree exactly when the covered reports are the same up to order |
| EvidenceRoots.RootBindsCompletion | sentinel/vault.py:126-148 | for days of any sizes: equal roots exactly when the sorted digests complete to the same list, as long as no report is the text of a pair hashed in the other tree |
| EvidenceRoots.PairTextKeepsRoot | sentinel/vault.py:49-50 | that premise is needed: one report spelling the digests of two reports has their root |
| EvidenceRoots.RepeatedReportKeepsRoot | sentinel/vault.py:126-148 | a day of three or more reports, oddly many, keeps its root when the report of greatest digest is added again |
| Vault.EvidenceVault.SealRun | sentinel/vault.py:150-207 | the new state is the old one with the sealed block appended to the tenant's ledger; it fails, changing nothing, exactly when there is no evidence |
| Vault.EvidenceVault.VerifyChain | sentinel/vault.py:209-266 | the reported errors are exactly those that hold, and the verdict is valid exactly for a chain that is linked and whose evidence is intact |
| Vault.EvidenceVault.CheckBlock | sentinel/vault.py:221-257 | the errors reported for one position are exactly the violated checks there |
| Vault.NoFindingsIffValid | sentinel/vault.py:261-263 | an empty list of the errors that hold is the same as declarative validity |
| Vault.SealAppends | sentinel/vault.py:159-207 | on a ledger that ends with a complete line, a seal adds one block to its tenant's chain; the other tenants' ledgers stay untouched |
| Vault.SealIsReadIff | sentinel/vault.py:203-205 | on any ledger, the sealed block is read afterwards iff the last line read as nothing and, joined with it, reads as the block; every later seal is on a complete line |
| Vault.SealedBlockRecordsDay | sentinel/vault.py:178-200 | a sealed block counts the reports of its day, at least one, and carries the root and name of that day and the time, tenant and signatory of the request |
| Vault.SealedDayIsCounted | sentinel/vault.py:159-200 | after sealing a day under the evidence directory the day is there with as many reports as the block counts |
| Vault.SealByDate | sentinel/vault.py:159-163 | a plain name seals the day of that name under the evidence directory, and the block carries it |
| Vault.SealByPath | sentinel/vault.py:159-163 | so does the full path of such a day |
| Vault.SealKeepsValidIff | sentinel/vault.py:164-170 | a seal keeps a valid chain valid exactly when the evidence directory's day of the sealed name is absent, empty or has the sealed root |
| Vault.RunsAppendAndStayValid | sentinel/vault.py:150-207 | over every run of seals and collections that leaves sealed days alone, every tenant's old ledger is a prefix of the new one and stays valid |
| Vault.RunsKeepCounts | sentinel/vault.py:150-207 | over every orderly run the recorded counts stay those of the days on disk |
| Vault.HeadBindsEvidence | sentinel/vault.py:249-257 | two valid ledgers with one head agree on the evidence itself wherever the recorded number of reports is still on disk |
| Vault.EqualHeadsEqualEvidence | sentinel/vault.py:150-266 | end to end: two vaults, each after its own orderly run from an empty ledger, hold the same reports for every sealed day still on disk once the heads of their ledgers agree |
| Vault.CheckedDirectory | sentinel/vault.py:249-257 | a block is checked against the day of its date under the evidence directory, or at an absolute date as it stands, and only where there are reports |
| Vault.ChangedDayPassesIff | sentinel/vault.py:249-257 | after a change to a sealed day the chain is valid exactly when the day has no reports left or kept its root |
| Vault.RemovedDayPasses | sentinel/vault.py:250-251 | removing a day keeps a valid chain valid |
| Vault.RemovedDayHidesOnlyItself | sentinel/vault.py:250-251 | and hides nothing else: the chain is then valid exactly when it is linked and the other days match |
| Vault.SameCountChangePassesIff | sentinel/vault.py:249-257 | with the recorded number of reports still there, it is valid exactly when the reports are the same up to order |
| Vault.AnyChangePassesIff | sentinel/vault.py:249-257 | with any number of reports, it is valid exactly when there are none left or their sorted digests complete to the same list, unless a report spells a hashed pair |
| Vault.PairTextGoesUnnoticed | sentinel/vault.py:249-257 | a report spelling the digests of a day's two reports can replace them unnoticed |
| Vault.RepeatedReportGoesUnnoticed | sentinel/vault.py:249-257 | the shortest family of changes that pass: in an odd day of three or more reports, the report of greatest digest once more |
| Manifests.BuildManifest | sentinel/integrity.py:23-47 | lists the digests of exactly those named files that exist, signed iff there is a key |
| Manifests.VerifyManifest | sentinel/integrity.py:57-96 | reports exactly the issues that hold and accepts exactly when none does |
| Manifests.CheckArtifacts | sentinel/integrity.py:67-73 | a missing file is reported as missing and an altered one as altered, never both |
| Manifests.NoIssuesIffAccepted | sentinel/integrity.py:57-96 | an empty issue list is the same as declarative acceptance |
| Manifests.OtherKeyAcceptsIff | sentinel/integrity.py:83-95 | a directory accepted under one key is accepted under another exactly when both sign its artifacts alike, and never where only one of the two is set |
| Manifests.AcceptanceFixesContents | sentinel/integrity.py:66-81 | two accepted directories with one manifest hold the same files, the lock file aside |
| Manifests.AcceptedIffContentsKept | sentinel/integrity.py:66-81 | tamper detection: with the manifest kept, a directory is accepted exactly when no file was changed, removed or added, other than the lock file |
| Manifests.LockFileIgnored | sentinel/integrity.py:76-81 | the file `.lock` may come, change and go |
| EvidenceWriter.SanitizeAdmitsIff | sentinel/validation.py:86-96 | a name is admitted exactly when, with its surrounding white space gone, it is a file name of 1 to 128 letters, digits, dots, underscores and hyphens that starts with a letter or digit, has no two dots in a row and is not reserved |
| EvidenceWriter.NameLetters | sentinel/validation.py:86-96 | the ranges of admitted characters end where they should, and reserved names are reserved in any case |
| WriterGuarantees.PlainNameKept | sentinel/output.py:98-128 | so the second check of a name, before it is written, gives the same name |
| EvidenceWriter.ControlDirectory.AtomicWrite | sentinel/output.py:41-55 | the file has its content, its temporary file is gone, and no state on the way has a new manifest |
| EvidenceWriter.ControlDirectory.Wipe | sentinel/output.py:115-121 | in any order of deletion the lock file and the undeletable files remain, and no state on the way has a new manifest |
| EvidenceWriter.ControlDirectory.WriteExtras | sentinel/output.py:126-136 | the loop performs the writes of all non-blank extras in order |
| EvidenceWriter.ControlDirectory.WriteArtifacts | sentinel/output.py:115-163 | succeeds exactly when the schema accepts and every artifact is still there, and then leaves all artifacts written |
| EvidenceWriter.ControlDirectory.WriteEvidence | sentinel/output.py:105-175 | interruption safety: unless an extra takes the manifest's name, every accepted state of the directory, at any file operation and with any file half written, holds the old contents or is the finished directory; the call succeeds iff names, schema and artifacts are in order |
| EvidenceWriter.OldManifestMeansOldContents | sentinel/output.py:115-163 | an accepted state with the old manifest has the old contents |
| EvidenceWriter.PartialManifestRejected | sentinel/integrity.py:50-54 | while the manifest is being written nothing is accepted before its last byte |
| WriterGuarantees.LastWriteDecides | sentinel/output.py:41-55 | the last write touching a name leaves its data there, or removes it if the name was its temporary one |
| WriterGuarantees.ArtifactsSurviveIff | sentinel/output.py:58-61 | the existence check passes exactly when no artifact serves as the temporary file of another one, unless rewritten later |
| WriterGuarantees.TmpThenPlainFails | sentinel/output.py:41-61 | the shortest failing job: extras called `a.tmp` and then `a` |
| WriterGuarantees.EncryptedArtifactsSurvive | sentinel/output.py:46-53 | encrypted artifacts always pass it |
| WrittenContents.FinishedHolds | sentinel/output.py:115-168 | name by name what a finished directory holds: the manifest, the stub of an encrypted one, the data of the last write that decides a name, nothing where that write was to a temporary file, and otherwise what survived the wipe |
| WrittenContents.PlainReportIsThere | sentinel/output.py:144-149 | without encryption `report.json` holds the report text word for word |
| WrittenContents.PlainExtraIsThere | sentinel/output.py:126-136 | an unencrypted extra that is not blank is there with its content when nothing later touches its name |
| WrittenContents.PlainNameHolds | sentinel/output.py:126-149 | for any number of extras: the name of an unencrypted extra other than the manifest holds what the last write to it or to the name it is the temporary file of says, the report counting as the last of all |
| WrittenContents.ManifestListsArtifacts | sentinel/output.py:150-168 | the manifest of a successful call lists exactly the artifacts, and the stub, each with the digest of its file |
| WrittenContents.ArtifactNames | sentinel/output.py:46-53 | the last artifact is the report; encrypted artifacts carry `.enc` |
| WriterGuarantees.UnlistedAreStrays | sentinel/integrity.py:76-81 | the unlisted files of a finished directory are exactly the undeletable old ones that no write touched |
| WriterGuarantees.FinishedVerifiesIff | sentinel/output.py:115-168 | a finished directory verifies exactly when there is no such file and no extra took the manifest's name with another digest |
| WriterGuarantees.WriteThenVerify | sentinel/output.py:123-168 | with everything deletable and the manifest's name untouched it always verifies, encrypted or not, signed or not |
| WriterGuarantees.ManifestNameAllowed | sentinel/validation.py:86-96 | `manifest.json` is an admitted name for an extra |
| WriterGuarantees.ManifestExtraAcceptsHalfWritten | sentinel/output.py:126-136 | such an extra can make the directory verify before the report exists |
| WriterGuarantees.EmptyManifestExtra | sentinel/output.py:126-136 | a single such extra with the text of an empty manifest is accepted as soon as it is there |
| WriterGuarantees.GuaranteeForAllContentsIff | sentinel/output.py:98-136 | for a list of admitted names, no contents at all are accepted before the report is written exactly when the job is encrypted or no name is that of the manifest; the premise of interruption safety then holds for all contents |
| EvidenceReading.VerifyAndDecryptArtifact | sentinel/integrity.py:99-116 | each of the four errors exactly in its case, a failed verification with exactly the issues that hold; otherwise the decrypted content of a listed file in an accepted directory |
| EvidenceReading.ReportReadsBack | sentinel/output.py:144-149 | what is decrypted from a finished directory as the report is the report that was written |
| EvidenceReading.ExtraReadsBack | sentinel/output.py:126-136 | so is every extra that no later extra of its name, nor the report, replaced |
| AuditPack.EvidenceDay.VerifyTree | sentinel/integrity.py:119-137 | sorts every control directory except `manifests` into verified or failed, according to acceptance, each failed one with exactly its issues; a missing day directory is told apart |
| AuditPack.EvidenceDay.PackControl | sentinel/reporting.py:407-425 | archives the manifest and exactly the listed files that exist |
| AuditPack.EvidenceDay.PackControls | sentinel/reporting.py:400-425 | every control directory is archived into its own folder, behind the report and readme |
| AuditPack.EvidenceDay.ExportAuditPack | sentinel/reporting.py:349-434 | fails, changing nothing, exactly when the directory is missing or a control directory fails, naming these; otherwise the pack lies at its path in the destination, each of its folders verifies and has the contents of its directory, and the tree with report and readme written into it still verifies |
| AuditPack.PackedIsAcceptedAndComplete | sentinel/reporting.py:404-425 | what is archived for an accepted directory is accepted again and lacks at most the lock file |
| AuditPack.ManifestsDirectoryIsLeftOut | sentinel/reporting.py:400-405 | whatever a child directory called `manifests` holds, the verdict and the pack stay the same |
| Dispatcher.StepConserves | sentinel/telemetry.py:515-553 | every step keeps: accepted events are the dispatched ones, then the worker's batch, then the queue, in order |
| Dispatcher.StepCounts | sentinel/telemetry.py:520-548 | every step keeps: the unfinished counter is the queue, stop entries included, plus what the worker has not marked |
| Dispatcher.StepBatches | sentinel/telemetry.py:523-535 | every step keeps: batches have 1 to 50 events, sink lists no repetition |
| Dispatcher.StepDelivers | sentinel/telemetry.py:534-545 | every step keeps: what each sink was offered is exactly the batches dispatched to it so far |
| Dispatcher.StepAlive | sentinel/telemetry.py:687-695 | every step keeps: while the running flag holds, the worker is alive and no stop entry is queued |
| Dispatcher.StepDirectOnce | sentinel/telemetry.py:616-624 | every step keeps: a directly emitted event was never queued and reaches each sink at most once |
| Dispatcher.RunHolds | sentinel/telemetry.py:515-703 | every interleaving of steps keeps the whole invariant |
| DirectDelivery.DoneMeansServed | sentinel/telemetry.py:616-666 | when a thread is done with its sends, every sink on the list has been offered its event |
| DirectDelivery.DirectEventsReachEverySink | sentinel/telemetry.py:581-666 | no directly emitted event is lost: after `emit_sync`, or `emit` on a full queue, in every run the thread still holds the event, or every sink registered when the thread finished had been offered it |
| DirectDelivery.OffersOnlyGrow | sentinel/telemetry.py:515-666 | what a sink was offered stays offered, in its order |
| DirectDelivery.EveryEventIsTaken | sentinel/telemetry.py:609-626 | a new event is taken by the queue below 10000 entries and by the emitting thread otherwise |
| DirectDelivery.RegistrationIsExact | sentinel/telemetry.py:555-568 | registering adds one sink at the end unless it is there, removing takes out that sink alone, clearing leaves the memory sink |
| DirectDelivery.MemorySinkSeesEverything | sentinel/telemetry.py:478-680 | a sink registered from the start that no one removes, as the memory sink, has been offered every accepted event in order by the time a flush returns |
| DispatcherGuarantees.JoinConditionIff | sentinel/telemetry.py:668-673 | `join` may return exactly when nothing is queued and nothing is in the worker's hands |
| DispatcherGuarantees.FlushMeansDelivered | sentinel/telemetry.py:668-679 | when it returns, exactly the accepted events were dispatched, in acceptance order, and each batch was offered to its whole sink list |
| DispatcherGuarantees.TaskDoneNeverFails | sentinel/telemetry.py:520-548 | the unfinished counter never goes below zero |
| DispatcherGuarantees.OfferedAtMostOnce | sentinel/telemetry.py:534-545 | no event is offered twice to a sink, by the worker, the fallback or `emit_sync` |
| DispatcherGuarantees.OffersFollowAcceptance | sentinel/telemetry.py:534-545 | at any moment an ever-registered sink has received an initial stretch of the accepted events |
| DispatcherGuarantees.ExitLosesNothingButTheQueue | sentinel/telemetry.py:516-521 | at worker exit every accepted event was dispatched or is still queued |
| DispatcherGuarantees.ShutdownMayAbandonQueue | sentinel/telemetry.py:687-697 | from every reachable state with the worker at its loop test, a full queue included, shutdown can end with the whole queue abandoned |
| DispatcherGuarantees.ShutdownMayAbandonEvents | sentinel/telemetry.py:687-697 | the shortest such run: one accepted event that no sink sees |
| DispatcherGuarantees.LeftoversBlockFlushForever | sentinel/telemetry.py:668-673 | after worker exit the unfinished counter never falls again |
| DispatcherGuarantees.NothingDispatchedAfterExit | sentinel/telemetry.py:515-553 | after the worker has exited, or found the stop entry first, nothing more is dispatched in any run |
| DispatcherGuarantees.FlushThenShutdownLosesNothing | sentinel/telemetry.py:668-703 | with nothing accepted after a flush, nothing is lost at exit |
| Draining.ShutdownLosesNothingIff | sentinel/telemetry.py:515-553 | in every reachable running state: all runs without further accepted events leave nothing behind exactly when the queue fits the room left in the worker's batch |
| Draining.IdleShutdownLosesNothingIff | sentinel/telemetry.py:516 | with the worker at its loop test, exactly when the queue is empty |
| Draining.ShutdownRoom | sentinel/telemetry.py:515-553 | in numbers: up to 50 queued events while the worker waits, and up to 50 with its batch while it collects |
| Draining.OverfullCanExit | sentinel/telemetry.py:687-697 | once a shutdown has begun, a worker with more queued than it will take can be driven to its exit with events still queued |
| DispatcherGuarantees.WorkerReachesJoin | sentinel/telemetry.py:515-553 | no deadlock: a running worker with the sink lock free can always reach the state in which `join` returns |
| RotatingLog.FileSink.ShiftBackups | sentinel/telemetry.py:274-280 | the renaming loop moves every backup up by one; interrupted, it stands exactly between two of its file operations |
| RotatingLog.FileSink.Rotate | sentinel/telemetry.py:274-285 | the current file becomes backup 1; a failure leaves it in place and the backups between two file operations |
| RotatingLog.FileSink.RotateIfNeeded | sentinel/telemetry.py:268-285 | rotates exactly when the file has reached the limit, and keeps the retained text a suffix of everything written |
| RotatingLog.FileSink.Append | sentinel/telemetry.py:291-295 | the appended data, all or the part that reached the file, extends text and history alike |
| RotatingLog.FileSink.RotateAndAppend | sentinel/telemetry.py:287-301 | after any outcome the files hold a contiguous suffix of everything written, each smaller than the limit plus its own last write; a call that succeeds also keeps the numbering free of gaps |
| RotatingLog.FileSink.Send | sentinel/telemetry.py:287-301 | the same for one event, with the backups as they were, rotated, or where the rotation stopped |
| RotatingLog.FileSink.SendBatch | sentinel/telemetry.py:303-320 | the same for a batch, which is one write with one rotation test, reported as all or none; an empty batch does nothing |
| RotatingLog.RotatedText | sentinel/telemetry.py:268-285 | a rotation keeps the text of all files in order and drops the oldest backup only when its place is taken |
| RotatingLog.RotatedNumbering | sentinel/telemetry.py:274-285 | backups 1 to n become 1 to n + 1, up to the limit |
| RotatingLog.StoppedText | sentinel/telemetry.py:274-285 | wherever a rotation is stopped, the backups hold the old text or that without its oldest file |
| RotatingLog.StoppedNoGapsIff | sentinel/telemetry.py:274-285 | backups 1 to n stopped in turn i have no gap exactly when n is at most i or the turn is the first one |
| RotatingLog.RotationsCloseGaps | sentinel/telemetry.py:274-285 | whatever gaps a failure left, complete rotations close them: as many as there are slots fill every slot |
| RotatingLog.StoppedKeeps | sentinel/telemetry.py:268-285 | a stopped rotation keeps numbers, sizes and text as an open log promises |
| RotatingLog.JoinedIsInjective | sentinel/telemetry.py:287-321 | events stand in the file one to a line: as long as no event text has a line break, the written text determines the events |
| EventRing.MemorySink.Send | sentinel/telemetry.py:232-235 | the ring holds the newest events ever sent |
| EventRing.MemorySink.GetEvents | sentinel/telemetry.py:237-244 | the selected tenant's events among them, cut from the end and newest first |
| EventRing.SelectedAt | sentinel/telemetry.py:237-244 | each selected event is one of the tenant, standing behind exactly as many of its events as were selected before it |
| EventRing.SelectsAll | sentinel/telemetry.py:237-244 | and every event of the tenant is selected |
| EventRing.TenantNewestFirst | sentinel/telemetry.py:237-244 | with a positive limit the i-th answer has exactly i later events of its tenant |
| EventRing.LimitHoldsIff | sentinel/telemetry.py:244 | the answer is within the limit exactly for a positive limit, or zero with nothing to return |
| EventRing.NewestFirst | sentinel/telemetry.py:244 | with a positive limit, the i-th answer is the i-th newest selected event |
| PolicyExpressions.EvalNode | sentinel/policy/engine.py:79-183 | the recursive walk computes the meaning of every expression |
| PolicyExpressions.EvalCompare | sentinel/policy/engine.py:136-171 | so does the comparison loop that carries its right operand over |
| PolicyExpressions.EvalBoolean | sentinel/policy/engine.py:130-134 | and the short-circuiting `all` and `any` |
| PolicyMeaning.AdmittedIsSupported | sentinel/policy/engine.py:70-76 | an expression the whitelist admits never reaches the final raise |
| PolicyMeaning.EvaluateNeverUnsupported | sentinel/policy/engine.py:60-76 | so for every expression and context, and a result is always a truth value |
| PolicyMeaning.OnlyNamesMatter | sentinel/policy/engine.py:89 | evaluation depends only on the metrics a condition names |
| PolicyMeaning.ChainedComparison | sentinel/policy/engine.py:136-171 | a chained comparison has the outcome of the conjunction of its links, errors included |
| PolicyMeaning.DeMorgan | sentinel/policy/engine.py:107-134 | negating a conjunction is the disjunction of the negations, short-circuiting and errors included |
| ConditionWalk.AllowedIffAllListed | sentinel/policy/engine.py:60-76 | a condition is admitted exactly when the nodes at all paths in it are of listed types with listed operators |
| ConditionWalk.ListDisplayMeaning | sentinel/policy/engine.py:173-174 | a list display is the list of its elements, or raises as its first raising element does |
| ConditionWalk.SpreadChangesNothing | sentinel/policy/engine.py:176-184 | a `**` item anywhere in a dict display changes nothing, not even by what it would raise |
| OperatorLaws.NumbersCompare | sentinel/policy/engine.py:136-171 | the six comparisons of two numbers are those of their values |
| OperatorLaws.NameMeaning | sentinel/policy/engine.py:82-89 | three names are constants whatever the metrics, every other name is a metric or None |
| OperatorLaws.TextsCompare | sentinel/policy/engine.py:136-171 | texts compare alphabetically |
| OperatorLaws.MetricAgainstNumber | sentinel/policy/engine.py:136-171 | for any metric: it passes against a number exactly when it is there, a number and in the stated order, and raises exactly when it is something else than a number or None |
| OperatorLaws.ComparisonLaws | sentinel/policy/engine.py:136-171 | `>=` is not `<`, `<=` is not `>`, `!=` is not `==`, and `>` is `<` turned round |
| OperatorLaws.AtMostIsLessOrEqual | sentinel/policy/engine.py:136-171 | `a <= b` is `a < b or a == b` |
| OperatorLaws.NoneTests | sentinel/policy/engine.py:136-171 | a metric is None exactly when it is missing or null, by `is` as by `==` |
| OperatorLaws.MemberOfList | sentinel/policy/engine.py:158-163 | membership in a list is equality with an item, `not in` its negation |
| OperatorLaws.ProductOfNumbers | sentinel/policy/engine.py:116-124 | a product of numbers, booleans and integers among them, has the value of the product |
| OperatorLaws.QuotientOfNumbers | sentinel/policy/engine.py:125-126 | a quotient times its divisor is the dividend |
| OperatorLaws.RemainderOfNumbers | sentinel/policy/engine.py:127-128 | a remainder lies between zero and the divisor and differs from the dividend by a multiple of it |
| OperatorLaws.SetThenLookup | sentinel/policy/engine.py:176-184 | a dict gives back what was last set under a key |
| ValueLaws.PyEqReflexive | sentinel/policy/engine.py:136-145 | every value equals itself, however deeply it nests |
| ValueLaws.PyEqTransitive | sentinel/policy/engine.py:136-145 | equality is transitive on values without dicts (and symmetric, `PyEqSymmetric`) |
| ValueLaws.EqualDictsAgree | sentinel/policy/engine.py:136-145 | equal dicts with text keys have the same keys and equal values under them |
| ValueLaws.ListsCompareAt | sentinel/policy/engine.py:136-171 | lists compare at their first difference, and without one by length |
| ValueLaws.TextInTextIff | sentinel/policy/engine.py:158-163 | a text is in another exactly when the other splits around it |
| ValueLaws.RepeatAdds | sentinel/policy/engine.py:123-124 | repeating n + m times is repeating n times and then m times |
| FailClosed.FewerMetricsNeverHelp | sentinel/policy/engine.py:130-163 | when the full evaluation raises nothing, removing metrics never turns a failing fail-closed condition into a passing one |
| FailClosed.AtomsFailClosed | sentinel/policy/engine.py:136-157 | a metric compared with a constant, by order or equality and either way round for equality, is such a condition |
| FailClosed.MissingMetricPassesIff | sentinel/policy/engine.py:138-169 | a missing metric compared with a number or text passes exactly for `!=` and `is not` |
| FailClosed.NotEqualFailsOpen | sentinel/policy/engine.py:143-145 | a `!=` condition that fails and passes once its metric is gone |
| FailClosed.RemovingAnErrorCanPass | sentinel/policy/engine.py:457-474 | the premise is needed: removing a metric that makes a fail-closed condition raise can make it pass |
| TypedConditions.TypedEvaluates | sentinel/policy/engine.py:107-171 | a condition well typed over numbers, booleans and None evaluates without error, to a value of its type |
| TypedConditions.TypedIsAllowed | sentinel/policy/engine.py:70-74 | well-typed conditions pass the whitelist |
| TypedConditions.TypedConditionDecides | sentinel/policy/engine.py:60-76 | so they always yield a verdict |
| TypedConditions.ZeroDivisorGivesZero | sentinel/policy/engine.py:125-128 | division and modulo by zero give 0 whenever both operands evaluate |
| PolicyValues.IntFloorModSign | sentinel/policy/engine.py:127-128 | `%` takes the sign of its divisor and differs from the dividend by a multiple of it |
| PolicyEngine.BuildIndex | sentinel/policy/engine.py:423-430 | the index gives, for every target, the metrics of the last payload naming it by collector or control id |
| PolicyEngine.LastRegistrationWins | sentinel/policy/engine.py:381-391 | the last rule registered for an id is the one in force |
| PolicyEngine.FirstRegistrationOrders | sentinel/policy/engine.py:381-391 | each id occurs once, at the place of its first registration |
| PolicyEngine.RegistryOfEngine | sentinel/policy/engine.py:381-391 | defaults, custom and later rules together: each id once, at its first place among them all, with the last rule given for it |
| PolicyEngine.Engine.constructor | sentinel/policy/engine.py:381-387 | the registry is the defaults overridden and extended by the custom rules in order |
| PolicyEngine.Engine.Evaluate | sentinel/policy/engine.py:410-507 | one result per enabled rule in registry order, with the counts, critical failures and score of these results |
| PolicyEngine.Judge | sentinel/policy/engine.py:436-474 | a rule without metrics is skipped, one that raises is an error, otherwise its condition decides |
| PolicyEngine.StatusIff | sentinel/policy/engine.py:434-475 | a rule is skipped exactly without metrics, and raises exactly on a condition that does not parse, is not admitted or raises |
| PolicyEngine.LaterPayloadDecides | sentinel/policy/engine.py:422-431 | a later payload decides for its collector and for the control it names, and for nothing else |
| PolicyEngine.CriticalIff | sentinel/policy/engine.py:464-469 | listed as critical are exactly the critical rules that failed without raising, by id and name |
| PolicyEngine.CountsCoverResults | sentinel/policy/engine.py:491-503 | passed, failed (errors included) and skipped add up to the number of results |
| PolicyEngine.ScoreIsPercentage | sentinel/policy/engine.py:491-494 | the compliance score lies between 0 and 100 |
| PolicyEngine.ScoreIsPassRate | sentinel/policy/engine.py:491-494 | the score is the rate of passes among passes and failures, to within 0.05 |
| PolicyEngine.PerfectScoreIff | sentinel/policy/engine.py:491-494 | it is 100.0 exactly when something was evaluated and at most one in 2000 failed |
| PolicyEngine.FewerMetricsFewerPasses | sentinel/policy/engine.py:410-507 | for fail-closed rules that raise nothing on the full data, withholding metrics or collectors never raises the number of passes |
| PolicyDefaults.DefaultsFailClosed | sentinel/policy/engine.py:187-375 | every built-in rule has a fail-closed condition |
| DefaultVerdicts.MfaVerdict | sentinel/policy/engine.py:188-204 | passes exactly for a number of at least 100, raises exactly for something that is neither null nor a number |
| DefaultVerdicts.OrphansVerdict | sentinel/policy/engine.py:205-221 | passes exactly for the number 0 and never raises |
| DefaultVerdicts.ReviewCadenceVerdict | sentinel/policy/engine.py:222-233 | passes exactly for at most 90 days |
| DefaultVerdicts.AuditLoggingVerdict | sentinel/policy/engine.py:234-250 | passes exactly for at least 1 stream and a completeness of at least 95, the second looked at only after the first |
| DefaultVerdicts.LogRetentionVerdict | sentinel/policy/engine.py:251-262 | passes exactly for at least 365 days |
| DefaultVerdicts.IngressVerdict | sentinel/policy/engine.py:263-279 | passes exactly for 0 open groups and never raises |
| DefaultVerdicts.EncryptionAtRestVerdict | sentinel/policy/engine.py:280-296 | passes exactly for 0 unencrypted stores and at least 100 percent at rest |
| DefaultVerdicts.EncryptionInTransitVerdict | sentinel/policy/engine.py:297-313 | passes exactly for at least 100 percent in transit |
| DefaultVerdicts.BranchProtectionVerdict | sentinel/policy/engine.py:314-329 | passes exactly for a true protection flag and at least 1 approval |
| DefaultVerdicts.VulnerabilitiesVerdict | sentinel/policy/engine.py:330-341 | passes exactly for 0 critical vulnerabilities and never raises |
| DefaultVerdicts.DailyBackupVerdict | sentinel/policy/engine.py:342-358 | passes exactly for at least 1 backup |
| DefaultVerdicts.RestoreTestVerdict | sentinel/policy/engine.py:359-375 | passes exactly for a true restore flag and never raises |
| DefaultVerdicts.RulesInForce | sentinel/policy/engine.py:187-375 | twelve rules, all enabled, each with its collector and severity, five of them critical |
| Rounding.Round1Error | sentinel/scoring.py:971-973 | one rounding moves a number by at most 0.05 |
| Rounding.Round1Monotone | sentinel/scoring.py:971-973 | and keeps the order |
| Rounding.NearestTenth | sentinel/scoring.py:978 | a number closer than 0.05 to a tenth rounds to that tenth |
| Scoring.TakeIam | sentinel/scoring.py:163-170 | the identity metrics are read name by name, with the fallbacks and defaults of the specification function |
| Scoring.TakeLogging | sentinel/scoring.py:259-274 | the logging metrics are read name by name, with the fallbacks and defaults of the specification function |
| Scoring.TakeDrift | sentinel/scoring.py:366-378 | the drift metrics are read name by name, with the fallbacks and defaults of the specification function |
| Scoring.TakeEncryption | sentinel/scoring.py:471-495 | the encryption metrics are read name by name, with the fallbacks and defaults of the specification function |
| Scoring.TakeRetention | sentinel/scoring.py:590-618 | the retention metrics are read name by name, with the fallbacks and defaults of the specification function |
| Scoring.TakeResilience | sentinel/scoring.py:709-735 | the backup and recovery metrics are read name by name, with the fallbacks and defaults of the specification function |
| Scoring.TakeZeroTrust | sentinel/scoring.py:848-884 | the zero-trust metrics and composite checks are read name by name, with the fallbacks and defaults of the specification function |
| Scoring.EvalIam | sentinel/scoring.py:123-216 | the step-by-step deductions compute the graded score, missing and failed evidence included |
| Scoring.EvalLogging | sentinel/scoring.py:219-323 | the same for logging |
| Scoring.EvalConfigDrift | sentinel/scoring.py:326-428 | the same for configuration drift |
| Scoring.EvalEncryption | sentinel/scoring.py:431-547 | the same for encryption |
| Scoring.EvalRetention | sentinel/scoring.py:550-666 | the same for retention |
| Scoring.EvalResilience | sentinel/scoring.py:669-805 | the same for backups and recovery |
| Scoring.EvalZeroTrust | sentinel/scoring.py:808-941 | the same for zero trust |
| ControlCosts.IamCosts | sentinel/scoring.py:172-188 | what each finding costs: 5 points for each of six orphaned accounts, 0.8 for each of fifty missing percent of MFA, 20 for an overdue review; 100 exactly for none |
| ControlCosts.LoggingCosts | sentinel/scoring.py:276-295 | the same for logging: 50, 1.5 a point up to 40, 20 and 20 |
| ControlCosts.DriftCosts | sentinel/scoring.py:380-402 | the same for configuration drift: 50, 20 up to 40, 15 up to 30 |
| ControlCosts.DriftRateCosts | sentinel/scoring.py:396-402 | half the drift rate, at most 30 |
| ControlCosts.EncryptionCosts | sentinel/scoring.py:497-519 | the same for encryption: 40, 25 up to 50, 0.4 a percent twice, 10 |
| ControlCosts.RetentionCosts | sentinel/scoring.py:620-642 | the same for retention: 40, 10 up to 40, 70 for no lifecycle, 20 |
| ControlCosts.LifecycleCosts | sentinel/scoring.py:626-636 | 0.7 for each percent of repositories without a lifecycle |
| ControlCosts.ResilienceCosts | sentinel/scoring.py:737-777 | the same for backups and recovery: 40, 20, 5 up to 25, 30, 15 and 15 |
| ControlCosts.ZeroTrustShares | sentinel/scoring.py:886-912 | the share of passed checks, or 25 points a flag, or 25 times the maturity level |
| ControlCosts.StatusIff | sentinel/scoring.py:189-196 | a control passes exactly from 85 points with complete evidence and is partial exactly from 50 |
| ControlCosts.ReadingNumbers | sentinel/scoring.py:55-66 | `int()` cuts off toward zero, and what is not a number takes the default |
| MetricNames.IamNames | sentinel/scoring.py:163-170 | under which names the identity metrics are read, which name wins and what absence reads as |
| MetricNames.EncryptionCounts | sentinel/scoring.py:471-495 | without reported percentages: the share of encrypted resources, and full TLS exactly without weak endpoints |
| MetricNames.CompliantByDifference | sentinel/scoring.py:590-618 | without a count of compliant repositories they are those not missing a lifecycle, under any of its three names |
| MetricNames.ResilienceNames | sentinel/scoring.py:709-735 | a backup within 24 hours stands for one good job, a restore test less than 91 days ago for a tested restore |
| MetricNames.CompositeChecksStandIn | sentinel/scoring.py:848-884 | each zero trust flag falls back on one composite check |
| MetricNames.UnreadableIsZero | sentinel/scoring.py:55-66 | a figure that is no number counts as zero, a malformed review date as 999 days |
| MetricNames.FlagsRead | sentinel/scoring.py:709-735 | a flag is set unless null, zero or empty, and a recovery objective is missed only when reported so |
| ScoreMonotonicity.IamNeverRises | sentinel/scoring.py:172-188 | worse values read never raise the score before capping |
| ScoreMonotonicity.LoggingNeverRises | sentinel/scoring.py:276-295 | the same for logging |
| ScoreMonotonicity.DriftNeverRises | sentinel/scoring.py:380-402 | the same for configuration drift |
| ScoreMonotonicity.EncryptionNeverRises | sentinel/scoring.py:497-519 | the same for encryption |
| ScoreMonotonicity.RetentionNeverRises | sentinel/scoring.py:620-642 | the same for retention; the repositories stay or grow from a positive number |
| ScoreMonotonicity.ResilienceNeverRises | sentinel/scoring.py:737-777 | the same for backups and recovery |
| ScoreMonotonicity.ZeroTrustRisesOnlyByFallback | sentinel/scoring.py:854-912 | fewer checks and flags and a lower maturity level never raise the score before capping exactly when the maturity level does not step in for more flags than were lost |
| ScoreMonotonicity.ZeroTrustNeverRisesIff | sentinel/scoring.py:854-920 | the same for the finished score, at the same or a lower quality: exactly when that is so or what the maturity level adds is cut off |
| ScoreMonotonicity.IamReadsWorse | sentinel/scoring.py:163-170 | moving raw metrics in the bad direction, under whichever name, gives worse values read |
| ScoreMonotonicity.LoggingReadsWorse | sentinel/scoring.py:259-274 | the same for logging |
| ScoreMonotonicity.DriftReadsWorse | sentinel/scoring.py:366-378 | the same for configuration drift |
| ScoreMonotonicity.EncryptionReadsWorse | sentinel/scoring.py:471-495 | the same for encryption |
| ScoreMonotonicity.RetentionReadsWorse | sentinel/scoring.py:590-618 | the same for retention, with a larger number of repositories when the compliant ones are given |
| ScoreMonotonicity.ResilienceReadsWorse | sentinel/scoring.py:709-735 | the same for backups and recovery |
| ScoreMonotonicity.ZeroTrustReadsWorse | sentinel/scoring.py:848-884 | the same for zero trust, without any premise on the maturity level |
| ScoreMonotonicity.LosingFlagsIsSafeIff | sentinel/scoring.py:886-920 | without checks, losing flags from one number to another never raises the finished score exactly when a flag is left, there was none, the maturity level does not exceed the flags there were, or all it adds is cut off |
| ScoreMonotonicity.LosingAnyFlagsIsSafeIff | sentinel/scoring.py:886-920 | so it is safe from any number to any number exactly at a maturity level of at most 1 |
| ScoreMonotonicity.LosingStreamsIsSafeIff | sentinel/scoring.py:219-323 | losing streams never raises the logging score exactly when the collection failed anyway or it does not lead from zero to a negative count |
| ScoreMonotonicity.WithholdingReviewPaysIff | sentinel/scoring.py:169-195 | leaving out the date of the last review raises the control score exactly when the review is overdue, the collection has not failed, and it is complete or scored below the cap |
| ScoreMonotonicity.LosingRepositoriesPaysIff | sentinel/scoring.py:620-645 | reporting no repositories instead of some raises the retention score exactly when fewer than three in seven were compliant, the collection has not failed and something is left of the score |
| Omissions.OrphanedOmissionPaysIff | sentinel/scoring.py:164-176 | leaving out the orphaned accounts raises the control score exactly when there are some and the score counts |
| Omissions.MfaOmissionNeverPays | sentinel/scoring.py:165-182 | leaving out both MFA metrics never does |
| Omissions.GapOmissionPaysIff | sentinel/scoring.py:272-295 | leaving out the logging gap pays exactly when it is above 24 hours and the score counts |
| Omissions.StreamsOmissionNeverPays | sentinel/scoring.py:260-281 | leaving out the streams never pays |
| Omissions.CompletenessOmissionNeverPays | sentinel/scoring.py:263-285 | nor does leaving out the completeness |
| Omissions.RetentionDaysOmissionNeverPays | sentinel/scoring.py:269-291 | nor the days of log retention |
| Omissions.DriftOmissionPaysIff | sentinel/scoring.py:366-402 | leaving out the drifted resources pays exactly when there are some among some evaluated and the score counts |
| Omissions.OpenGroupsOmissionPaysIff | sentinel/scoring.py:366-402 | the same for open security groups |
| Omissions.UnapprovedOmissionPaysIff | sentinel/scoring.py:366-402 | the same for unapproved changes |
| Omissions.EvaluatedOmissionNeverPays | sentinel/scoring.py:366-402 | leaving out the evaluated resources never pays, although drift is then not counted |
| Omissions.UnencryptedOmissionPaysIff | sentinel/scoring.py:471-519 | leaving out the unencrypted stores pays exactly when there are some and the score counts |
| Omissions.TlsOmissionPaysIff | sentinel/scoring.py:480-519 | leaving out the TLS percentage pays exactly when it is below what its absence reads as, 100 with no weak endpoint among some resources and 0 otherwise, and the score counts |
| Omissions.PastRetentionOmissionPaysIff | sentinel/scoring.py:590-642 | with the certificates reported, leaving out the objects past retention pays exactly when there are some and the score counts |
| Omissions.FailedJobsOmissionPaysIff | sentinel/scoring.py:709-777 | the same for failed backup jobs |
| Omissions.RecoveryTimeOmissionPaysIff | sentinel/scoring.py:709-777 | leaving out the recovery time objective pays exactly when it was missed and the score counts |
| Omissions.RecoveryPointOmissionPaysIff | sentinel/scoring.py:709-777 | the same for the recovery point objective |
| Omissions.BackupsOmissionNeverPays | sentinel/scoring.py:709-777 | leaving out everything about the last backups never pays |
| Omissions.RestoreOmissionNeverPays | sentinel/scoring.py:709-777 | nor does leaving out everything about restore tests |
| ScoreMonotonicity.GradedRange | sentinel/scoring.py:189-196 | every control score is a percentage, and partial evidence never passes |
| ScoreMonotonicity.GradedMonotone | sentinel/scoring.py:189-195 | missing, failed, partial and complete evidence are ordered through cap and clamp |
| Scorecard.ComputeFrameworkSummary | sentinel/scoring.py:944-1005 | pillar scores, framework mean, counts and readiness, with no evidence as its own case |
| Scorecard.EveryStatusCounted | sentinel/scoring.py:964-966 | passed, partial and failed cover all controls |
| Scorecard.ComputeComplianceScorecard | sentinel/scoring.py:1008-1113 | the published posture is the rounded weighted mean of the four rounded framework scores of the seven controls |
| ScorecardGuarantees.OverallLower | sentinel/scoring.py:968-978 | lower control scores never raise a framework mean, rounded pillars or not |
| ScorecardGuarantees.WorseEvidenceNeverRaisesPosture | sentinel/scoring.py:1008-1113 | end to end: worse values read, lower quality or missing evidence, in any number of controls, never raise the posture score |
| ScorecardGuarantees.WorseMetricsNeverRaisePosture | sentinel/scoring.py:1008-1113 | the same for the raw metrics moved in the bad direction |
| ScorecardGuarantees.EveryCollectionIsRelated | sentinel/scoring.py:1008-1113 | both theorems hold for a single metric that gets worse, since every collection is related to itself, however malformed the metrics that stay what they are |
| ScorecardGuarantees.PostureError | sentinel/scoring.py:1096-1102 | it is within 0.15 of the exact weighted mean of pillar means, for any control scores |
| PostureFormula.ExactPostureIsLinear | sentinel/scoring.py:1042-1102 | the exact composite is 43/420 CC6.1 + 139/840 CC7.1 + 81/560 CC6.2 + 239/1680 C1.2 + 221/1680 C1.4 + 59/280 A1.2 + 173/1680 ZT-1: pillar tables, means and weights in one formula |
| PostureFormula.UnmatchedPillar | sentinel/scoring.py:968-972 | a pillar none of whose controls is there scores nothing |
| ScorecardGuarantees.PostureRange | sentinel/scoring.py:1096-1102 | it lies between 0 and 100 for any evidence, however malformed |
| ScorecardGuarantees.PublishedButNotReadyIff | sentinel/scoring.py:980-997 | the published framework score reaches 85.0 without the word "Audit Ready" exactly for means from 84.95 up to 85 |
| ReadinessExample.EvidenceIsPublishedButNotReady | sentinel/scoring.py:980-997 | evidence whose published SOC 2 score is at least 85.0 and whose readiness is not "Audit Ready" |
| ReadinessExample.PostureOfExample | sentinel/scoring.py:1008-1113 | and whose published posture is exactly 84.5 |
| ScorecardGuarantees.LosingLastFlagRaisesPosture | sentinel/scoring.py:911-912 | whatever the other controls, losing the only flag at maturity 4 raises the published posture |
| Base64Url.DecodeOfEncode | sentinel/auth.py:237 | decoding undoes encoding on every octet string, and encodings come in groups of four (section 4 and 5 of RFC 4648) |
| Base64Url.RepadRestores | sentinel/auth.py:252-254 | stripping the padding and adding it again restores the encoding, which contains no dot |
| Base64Url.UrlSafeLetters | sentinel/auth.py:237 | the alphabet is the URL-safe one (section 5 of RFC 4648) |
| Tokens.TokenParts | sentinel/auth.py:245-250 | prefix and first dot split a token into its payload and signature |
| Tokens.TokenIsItsParts | sentinel/auth.py:217-272 | verifying an issued token comes down to comparing its code under the verifying key and then reading its claims |
| Tokens.TokenRoundTrip | sentinel/auth.py:217-272 | an issued token gives its identity at every time up to its expiry and nothing later, for every identity, key and lifetime |
| Tokens.TokenGivesUserBack | sentinel/auth.py:217-272 | up to the expiry a token gives back user id, role, tenant and service flag, and the whole user if there is an e-mail address; a missing one becomes the id at `sentinel.local` |
| Tokens.TokenText | sentinel/auth.py:234-238 | a token is `sentinel_`, the claims in unpadded base64, a dot and their code |
| Tokens.ClaimsCarried | sentinel/auth.py:222-235 | the claims carry each field of the user under its name and expire `lifetime` seconds after the second of issue |
| Tokens.UnframedIsRefused | sentinel/auth.py:245-250 | a text without the prefix or without a dot is refused |
| Tokens.IncompleteClaims | sentinel/auth.py:259-270 | claims without user id, without a known role or without an expiry give nobody, and a missing tenant is `default` |
| Tokens.OtherKeyRefuses | sentinel/auth.py:255-257 | while it lives it is refused under another key exactly when that key signs the claims differently |
| Tokens.RewrittenPayloadGainsNothing | sentinel/auth.py:250-257 | another payload with the old signature is refused, or decodes to octets with the same code |
| EncryptedBlobs.SlicesTile | sentinel/security.py:94-121 | the slices the reader takes are the salt, key id, nonce and ciphertext the writer joined, and the header decides the version |
| EncryptedBlobs.DecryptOfEncryptIff | sentinel/security.py:76-131 | decryption undoes encryption exactly when the first 32 octets of the key id are whole characters of it, and then the reader finds the id the key was derived from |
| EncryptedBlobs.ShortKeyIdComesBack | sentinel/security.py:87-91 | a key id of up to 32 octets comes back whole, and the data with it |
| EncryptedBlobs.AccentedIdCannotBeRead | sentinel/security.py:87-119 | 31 plain letters and an accented one make a key id whose blobs cannot be read |
| EncryptedBlobs.SecretNeeded | sentinel/security.py:83-108 | neither direction works without a secret, and every blob written has the version 2 header |
| EncryptedBlobs.VersionOneOpens | sentinel/security.py:123-127 | a version 1 blob opens under the key of the secret alone |
| EncryptedBlobs.OtherHeadersRefused | sentinel/security.py:129 | any other header is refused |
| EncryptedBlobs.HeaderTexts | sentinel/security.py:76-129 | the two headers are the texts SSENC1 and SSENC2 |
| EncryptedBlobs.NoIdMeansDefault | sentinel/security.py:113 | a blob without a key id is opened under the id `default` |
| EncryptedBlobs.CutIdHasReplacedKey | sentinel/security.py:87-94 | a blob under an id cut inside a character still opens with the key of the id whose half character is replaced |
| Utf8.DecodeOfEncode | sentinel/security.py:87-91 | strict UTF-8 decoding undoes encoding on every text (section 3 of RFC 3629) |
| Utf8.CutIsValidIff | sentinel/security.py:87-119 | the first octets of a text are valid exactly when they end with a whole character |

## Left out

- Cloud providers, connectors, onboarding, dashboard, command line, HTML and CSV output, access
  review, vendor risk and drift reports: no protocol or law to prove, or behaviour that lives in
  foreign services.
- `HttpSink` and `SyslogSink`, their retries, and the RFC 5424 text of an event: a sink is a receiver
  that may do anything with what it is offered; lines of the log file are given as texts.
- Subscribers of the telemetry manager, which run before an event is queued, and `sink.flush` and
  `sink.close` after `join`.
- Real time: the 0.2 second poll may time out only on an empty queue, and the 2 second limit of
  `shutdown` is any moment.
- Manifest backups, file permissions and the lock itself: the control directory lock is taken as
  mutual exclusion, and the `.lock` file is there or not.
- Concurrent seals: the code takes no lock, so sealing is modelled as one call after another.
- A crash in the middle of an append: an append to the ledger is one step. What a partly written last
  line does to later seals is part of the model.
- Message texts: errors are modelled by what they mean, findings and critical findings of the
  scorecard not at all.
- NaN, infinities, overflow and the rounding of binary floating point, in policies and in scoring.
- `bytes` and complex constants in conditions, metric objects other than JSON values, and the
  identity of values other than None and the booleans, which the runtime decides (`Host`).
- The text of a condition: parsing is an input, and a text that does not parse is a rule without a
  condition, which raises.
- Loading rules from a file: it registers them one by one until an entry fails.
- Choosing and reading the evidence files of a scorecard: the collected documents are the input, an
  empty document counting as none.
- Key material lookup, the version 1 key derivation and the missing `cryptography` package.
- Permission checks and the ephemeral signing secret.
- Directories inside a control directory, and manifest entries that are paths: every name is that of
  a file in the directory itself.
- WorseMetricsNeverRaisePosture: raw metrics are compared when they are in both documents or in neither, because leaving one out can raise the score (`Omissions`); a few changing counts must not fall below zero, because a negative one escapes the penalty for zero (`LosingStreamsIsSafeIff`). WorseEvidenceNeverRaisesPosture compares the values read and does not ask which metrics they came from. Both ask of zero trust evidence exactly what its score needs (`ZeroTrustNeverRisesIff`).
- Omissions: metrics whose absence switches to other metrics (encryption at rest, FIPS, repositories and their lifecycle, deletion certificates, zero trust checks and flags) are not in the list.
- RetentionReadsWorse: the number of repositories may grow only when the compliant ones are given, because otherwise they are derived from it.
- SealRun: paths are normalised texts, the block's details hold the leaf count only.
- ExportAuditPack: the order of the archive's members is left open, and the destination is not itself inside the day directory.
- RunsAppendAndStayValid: seals name days under the evidence directory and collections leave sealed days alone, as sealing a day elsewhere can break the chain (`SealKeepsValidIff`).
- BuildIndex: a payload whose metrics are null counts as one without metrics; payloads that are not dictionaries are not modelled.
