# A verified model of the certification ledger and its neighbours

This project models the parts of the repository that decide what is recorded, promoted,
delivered or allowed, and proves what those parts promise.  `dafny verify dfyconfig.toml`
checks all of it.

* **The certification ledger** (`LedgerRecords`, `LedgerTransaction`, `LedgerChain`,
  `LedgerHistory`, `LedgerRuns`, `LedgerProgress`, `LedgerFile`).  One attempt of
  `append_or_replay` is an atomic function on the rows (idempotency fence, request-id fence,
  generation compare-and-swap, signing, insert, three failpoints).  `LedgerProgress` says which
  calls are appended and what every other call is answered.  A run is any interleaving of the attempts of any number
  of clients, with busy and broken databases; the retry loop of a client is proved to be such a
  run.  `verify_chain` is a loop proved to answer VALID or EMPTY for exactly the clean chains.
  Hashes, JSON and signers are function parameters; every theorem holds for all of them.  The
  tamper theorem does not assume that the digest is injective: it returns a collision instead.
* **NightShift** (`WorkTree`, `NightShiftRuns`, `NightShift`, `Gitlinks`, `PendingManifest`).  A
  round may leave HEAD, index and work tree in any state, and any git step may fail and leave any
  state.  `NightShiftRuns` gives the states of a run as a function of all that the outside
  decides and proves the theorems about every run; the round loop is a class whose fields are
  proved to be those states.
* **Auto-flow delivery** (`AutoFlow`).  Every path of probe, baseline, sprint, rescue and guard
  fallback over one target file, with refused locks, raised tests and torn writes.
* **Diff guard and command checker** (`OracleGuard`, `HeaderPatterns`, `PrintedPatches`,
  `CommandGrammar`).  The header parser against its two patterns and against a printer, and the
  argument loop against its grammar.
* **Arithmetic and order cores** (`WindowGate`, `RoutingTuner`, `PathPolicy`).  `Rounding` and
  `Text` hold the Python operations that several of them lean on.

## Where the code does less than its text says

Each of these is stated and proved exactly: when the property holds, for all inputs, and with
inputs on which it fails.

* A reachable ledger verifies if and only if every commit of its run stored a sound entry
  (`LedgerRuns.ReachableVerifiesIff`).  An entry is not sound when its disposition is not a
  string (the text column changes it), or when the signer returns metadata that Python's `==`
  takes for the declared metadata although they differ, or when both are empty.  One call on an
  empty ledger shows each (`LedgerRuns.NumericDispositionDoesNotVerify`,
  `LedgerRuns.InconsistentSignerDoesNotVerify`, `LedgerHistory.InconsistentMetadataExists`).
* The successive base commits form a parent chain if and only if no promoted round moved HEAD
  (`NightShiftRuns.BasesFormChainIff`); what rejected and refused rounds do never matters.  A
  promoted round that moved HEAD hangs its commit off the moved HEAD, so the run's earlier winner
  is lost to the chain (`NightShiftRuns.MovedHeadBreaksChain`).
* A round starts with the work tree of its base if and only if the round just before it was
  promoted or left a restorable state (`NightShiftRuns.StartIsSettledIff`): no tracked embedded
  repository moved, and every ignored leftover also ignored by the ignore files that
  `git clean -ffd` will spare (`WorkTree.RestoreSettlesIff`).  A round that leaves a new, untracked
  ignore file defeats that, and its leftover rides along into the next commit
  (`WorkTree.RejectedFileRidesAlong`).  Without such files nothing rides into a commit if and only
  if the promoted rounds leave the ignored leftovers alone (`NightShiftRuns.NothingRidesIntoCommitsIff`).
* A stop on an exhausted model skips the restore, so tier 2 judges what that round left: exactly
  when it moved HEAD, off the promoted commit (`NightShiftRuns.JudgedAtBaseIff`), and after a
  mere extra file, a tree that was not promoted (`NightShiftRuns.ExhaustedAfterPromotion`).
* A refused commit sets the streak to one and skips the patience test, so a run of refused
  commits goes through all its rounds (`NightShiftRuns.RefusedRunUsesAllRounds`).
* The delivered file disagrees with the reported status if and only if the time guard withdrew a
  sprint with a changed text and the fallback did not pass (`AutoFlow.SelectFlow`,
  `AutoFlow.RejectedFallbackHappens`): SUCCESS is reported over the original text.
* With the default thresholds the run-of-three test changes nothing for any number of rounds
  except 1, 2 and 5 (`WindowGate.RunTestIsRedundantIff`).  The gate fails at a freeze ratio of
  exactly the limit, the fail bucket calls the same ratio "none" (`WindowGate.BucketAgreesIff`).
* The path "." is a valid policy path that covers and forbids nothing but itself
  (`PathPolicy.PermissionReachesDown`, `PathPolicy.AllowedKeepsClear`).

## Model

| member | source | states |
|---|---|---|
| LedgerRecords.StorageRoundTrip | product/ledger.py:375-427 | storing an entry and loading it back loses nothing but the type of a non-string disposition, and is the identity exactly for string dispositions |
| LedgerRecords.GenesisIsZeros | product/ledger.py:30 | the link of the first row is "sha256:" and 64 zeros |
| LedgerRecords.RequestHashIff | product/ledger.py:324-330 | a text that is already a digest is its own hash, any other text is digested, and an object has a hash exactly when it holds no float |
| LedgerRecords.AdmittedIff | product/ledger.py:442-465 | a request is admitted exactly with a request hash, an identity envelope and a certification receipt, and which hash, disposition and claims each of them gives |
| LedgerRecords.RefusedIff | product/ledger.py:442-465 | otherwise the first of the three that is missing is the error |
| LedgerRecords.DispositionIff | product/ledger.py:643-676 | the text column keeps a string, and a whole number or truth value as the text of the number it equals |
| LedgerTransaction.SealKeepsDraft | product/ledger.py:561-636 | signing fills in the hash and the signer columns and changes no other field |
| LedgerTransaction.InsertIsAllOrNothing | product/ledger.py:638-688 | insert and commit add exactly the stored entry, with a hash that was not taken, or change nothing, at every failpoint |
| LedgerTransaction.CommitPassesChecks | product/ledger.py:482-555 | a commit has passed the key fence, the request-id fence and the generation check, with a sealed entry |
| LedgerTransaction.EffectIsAllOrNothing | product/ledger.py:478-721 | an attempt either commits one fresh row with the facts that were asked for, right after the durable head, or leaves the rows as they were |
| LedgerTransaction.CommittedRow | product/ledger.py:643-714 | the committed row is the stored form of the entry that was sealed |
| LedgerTransaction.CompareAndSwap | product/ledger.py:543-555 | among fresh requests exactly those that name another generation get STALE_GENERATION, with the current one |
| LedgerTransaction.AppendedEntryIsStored | product/ledger.py:690-721 | the entry reported with APPENDED is what a later read of the row gives |
| LedgerChain.CheckRow | product/ledger.py:774-966 | one turn of the checker: the row loads, has its ledger id, sequence, rising generation, link, stored documents and own hash, and extends the prefix of such rows; or the verdict names what fails first |
| LedgerChain.VerifyChain | product/ledger.py:774-966 | VALID exactly for the non-empty chains whose every row meets all those conditions, which are stated on the stored row and not through the checker; EMPTY exactly for the empty one; otherwise the first failure of the first row that fails; VALID reports the head |
| LedgerChain.VerdictIff | product/ledger.py:774-966 | for each of the verdicts, exactly which conditions on the row hold and which one fails first |
| LedgerChain.CleanIff | product/ledger.py:774-966 | a chain passes exactly when every row, at its place, has the expected ledger id, sequence i + 1, a rising generation, the link, envelope bytes whose canonical document has the stored hash, receipt bytes that carry the stored receipt hash, and recomputes to its entry hash |
| LedgerChain.CleanRow | product/ledger.py:859-940 | a passed row has its place as sequence, links to the hash before it and recomputes to its own hash |
| LedgerChain.PrefixIsClean | product/ledger.py:774-966 | every prefix of a clean chain is clean, so the chain check alone cannot see a cut tail |
| LedgerChain.EqualHashesLinkBack | product/ledger.py:333-372 | clean rows with one hash agree on all 14 hashed fields, stand at one place and link to one hash, or a digest collision is exhibited |
| LedgerChain.AgreeDownFrom | product/ledger.py:333-372 | the same for every row below, by induction to the genesis hash |
| LedgerChain.HeadHashFixesChain | product/ledger.py:774-966 | two clean chains with one head hash have one length and agree on the hashed fields everywhere, or a collision is exhibited |
| LedgerChain.TamperEvidence | product/ledger.py:774-966 | under a collision-free digest a chain with the recorded head hash that differs in any hashed field is not clean |
| LedgerChain.AnchorFixesLedger | product/ledger.py:971-1027 | VALID plus VERIFIED from a verifier that accepts only the anchored payload fixes the whole ledger to the anchored one |
| LedgerChain.AnchorSeesCutTail | product/ledger.py:971-1027 | a proper prefix of the anchored ledger is clean and is never VERIFIED |
| LedgerChain.AnchorAnswers | product/ledger.py:971-1027 | unavailable without a verifier or an entry; otherwise the verifier's own answer about the head under the given or stored ledger id, UNVERIFIABLE for an answer that is none of the three |
| LedgerHistory.ExtendHistory | product/ledger.py:528-676 | the row of a passed compare-and-swap keeps the ledger linked, duplicate-free and documented |
| LedgerHistory.NextHashIsFree | product/ledger.py:561-676 | unless the digest collides, the hash of the next entry is in no row of the ledger |
| LedgerHistory.ExtendClean | product/ledger.py:774-966 | appending keeps a chain clean exactly when the new row passes and the old chain was clean |
| LedgerHistory.StoredDocuments | product/ledger.py:442-465 | what admission accepted is what the checker's document tests accept from the stored row |
| LedgerHistory.FenceFindsRow | product/ledger.py:482-493 | in a duplicate-free ledger the key lookup finds the very row of that key |
| LedgerHistory.FenceAnswers | product/ledger.py:492-510 | a call with a stored key is answered REPLAYED with the stored entry or IDEMPOTENCY_CONFLICT, at any time, and adds nothing |
| LedgerHistory.StaleAnswers | product/ledger.py:543-555 | a fresh call that names any generation but the length of the ledger is STALE_GENERATION |
| LedgerHistory.HashedIsStoredIff | product/ledger.py:567-619 | the hashed signer metadata is the stored metadata exactly for consistent signers |
| LedgerHistory.SealedHash | product/ledger.py:561-636 | which entry the fixed hash belongs to, and exactly when that is the stored one |
| LedgerHistory.StoredHashIff | product/ledger.py:561-676 | the stored row recomputes to its stored hash exactly when the entry was sound |
| LedgerHistory.AppendedRowIsCleanIff | product/ledger.py:774-966 | the appended row passes every check exactly when it was sound and under the expected ledger id |
| LedgerHistory.InconsistentMetadataExists | product/ledger.py:600-619 | two inconsistent pairs of declared and returned metadata that can be hashed: nothing and nothing, and 1 with true |
| LedgerRuns.CommitAppends | product/ledger.py:468-721 | a commit appends one row and keeps the invariant of the ledger |
| LedgerRuns.InvokeStarts | product/ledger.py:430-468 | a client that is not in a call may start one at any time; it tries if admitted and else ends |
| LedgerRuns.NextKeepsInv | product/ledger.py:467-741 | every event of any client keeps the invariant |
| LedgerRuns.RunKeepsInv | product/ledger.py:467-741 | so does every interleaving |
| LedgerRuns.ReachableHistory | product/ledger.py:430-741 | in every reachable ledger the i-th row has sequence and generation i, links back, is free of duplicates and has matching documents |
| LedgerRuns.NextAppendsAtMostOne | product/ledger.py:478-741 | only a committing transaction changes the rows, and it appends one |
| LedgerRuns.RunAppendsOnly | product/ledger.py:430-741 | a run only appends |
| LedgerRuns.ExactlyOnce | product/ledger.py:482-510 | once a row is stored, every later call with its key, whatever generation it names and however many rows followed, is REPLAYED with that entry or refused as a conflict, and adds nothing |
| LedgerRuns.UnknownEffectIsReplayed | product/ledger.py:683-688 | a transaction that committed but whose caller saw an exception is replayed to every later identical call |
| LedgerRuns.OneRowPerGeneration | product/ledger.py:543-558 | at most one request is ever appended for each expected generation, and it commits the next one |
| LedgerRuns.LaterNamerIsStale | product/ledger.py:543-555 | every other fresh request naming that generation later is STALE_GENERATION |
| LedgerRuns.CommittingAppends | product/ledger.py:643-688 | the row that a committing event leaves holds what its request asked for |
| LedgerRuns.CommitIsCleanIff | product/ledger.py:774-966 | a commit keeps the chain clean exactly when it is sound |
| LedgerRuns.RunIsCleanIff | product/ledger.py:774-966 | a run ends clean exactly when it began clean and all its commits were sound |
| LedgerRuns.ReachableVerifiesIff | product/ledger.py:774-966 | every reachable ledger verifies exactly when every commit of the run was sound |
| LedgerRuns.UnsignedRunsAreSound | product/ledger.py:620-636 | without signers and with string dispositions every commit is sound |
| LedgerRuns.OneCallCommits | product/ledger.py:430-741 | one call on an empty ledger stores its sealed entry, and its commit is sound exactly when the entry is |
| LedgerProgress.SealsIff | product/ledger.py:561-636 | sealing succeeds exactly when the payload can be hashed and the signer, if any, answers with metadata that can be hashed; with exactly the entry of the next sequence, generation and link |
| LedgerProgress.MayAppendAppends | product/ledger.py:478-721 | progress on every linked ledger: a call with a fresh key and request id, the current generation, and an entry that can be sealed and stored under a hash not yet taken adds exactly that row; the answer at each failpoint, with secure and insecure sidecars |
| LedgerProgress.HashStaysFree | product/ledger.py:638-676 | unless the digest collides, such an entry never meets a taken hash |
| LedgerProgress.TakenRequestAnswers | product/ledger.py:512-527 | a fresh key with a taken request id is a conflict without an entry |
| LedgerProgress.UnsealableRaises | product/ledger.py:561-688 | a fresh call on the current generation that cannot be sealed or stored raises and leaves the rows alone |
| LedgerProgress.AppendedIff | product/ledger.py:478-721 | on every ledger of the invariant APPENDED is answered exactly to those calls, without a failpoint and with secure sidecars |
| LedgerProgress.RunAppendsIff | product/ledger.py:430-741 | the same in every state that any interleaving of any number of clients reaches |
| LedgerRuns.InconsistentSignerDoesNotVerify | product/ledger.py:567-619 | one call with any inconsistent signer leaves a ledger of one entry that does not verify |
| LedgerRuns.NumericDispositionDoesNotVerify | product/ledger.py:462-465 | one call with a whole number for a disposition leaves a ledger of one entry that does not verify |
| LedgerFile.FirstServed | product/ledger.py:467-476 | the first of at most five attempts that the database does not refuse as busy |
| LedgerFile.LedgerFile.AppendOrReplay | product/ledger.py:430-741 | admission errors leave the file alone; otherwise the first served attempt decides rows and answer; the rows grow by one exactly on a commit; BUSY exactly when all five attempts are refused; APPENDED exactly when a quiet attempt is served to a call that may append |
| LedgerFile.ServedBusyIff | product/ledger.py:467-476 | the retries are exhausted exactly when five attempts in a row find the database busy |
| LedgerFile.ServedAppendedIff | product/ledger.py:467-721 | APPENDED exactly when the first served attempt is quiet and the call may append on those rows |
| LedgerFile.LedgerFile.GetByRequestId | product/ledger.py:744-771 | found exactly when some row has that request id, with that row's entry |
| LedgerFile.LedgerFile.Verify | product/ledger.py:774-966 | the chain check of the file's rows |
| LedgerFile.FinishedStaysFinished | product/ledger.py:468-476 | a finished call ignores further attempts |
| LedgerFile.LoopIsRun | product/ledger.py:467-741 | the retry loop of one client is a run of its attempts: same rows, same answer |
| WorkTree.CleanKeepsIgnores | nexus/app/nightshift_runner_service.py:1443-1448 | the ignore files that clean leaves are the tracked and the ignored ones |
| WorkTree.IgnoreFileIff | nexus/app/nightshift_runner_service.py:1443-1448 | an ignore file stands at the root or in any directory, under that very name |
| WorkTree.AddedIff | nexus/app/nightshift_runner_service.py:1479-1481 | `git add .` stages what stands in the work tree and is tracked or not ignored, with its content |
| WorkTree.RestoredIff | nexus/app/nightshift_runner_service.py:1431-1448 | what a restore leaves at each path: the base's item, or an untracked item that the ignore files of the reset tree spare |
| WorkTree.RestoreSettlesIff | nexus/app/nightshift_runner_service.py:1431-1448 | a restore always puts HEAD and index back, and the work tree exactly from a state that meets two conditions on it before the restore |
| WorkTree.NoStrayIgnoreFileSuffices | nexus/app/nightshift_runner_service.py:1443-1448 | without an untracked, unignored ignore file everything that clean spares stays ignored |
| WorkTree.RejectedFileRidesAlong | nexus/app/nightshift_runner_service.py:1431-1434 | a rejected round with a new ignore file leaves a file that the next `git add .` stages |
| WorkTree.CommitSettles | nexus/app/nightshift_runner_service.py:1496-1513 | after a commit of `git add .` the work tree stands at the new commit |
| WorkTree.AddedIsStable | nexus/app/nightshift_runner_service.py:1479-1481 | adding twice is adding once |
| WorkTree.NothingRidesAlongIff | nexus/app/nightshift_runner_service.py:1431-1434 | from a settled start what is staged is the base's or this round's own exactly when the round neither stages an ignored leftover nor takes away the rule that ignores it |
| WorkTree.SameIgnoresSuffice | nexus/app/nightshift_runner_service.py:1431-1434 | a round that touches no ignore file and stages nothing it found untracked leaves the leftovers alone |
| NightShiftRuns.ExtendMarks | nexus/app/nightshift_runner_service.py:1247-1290 | the streak and the end-of-run condition, one round further |
| NightShiftRuns.RunIsPatient | nexus/app/nightshift_runner_service.py:1283-1290 | a run that goes on has had no rejected round whose streak reached the patience |
| NightShiftRuns.ConvergedRun | nexus/app/nightshift_runner_service.py:1283-1290 | a converged run ends with the first rejected round whose streak reaches the patience |
| NightShiftRuns.RefusedRounds | nexus/app/nightshift_runner_service.py:1253-1262 | while every commit is refused nothing is promoted and the streak stays at one |
| NightShiftRuns.RefusedRunUsesAllRounds | nexus/app/nightshift_runner_service.py:1253-1262 | a run whose rounds all beat zero and are refused ends only with its last round, whatever the patience |
| NightShiftRuns.NextState | nexus/app/nightshift_runner_service.py:1247-1274 | a promotion sets base, HEAD and best score to the new child; any other round leaves base and best and returns HEAD and index to the base |
| NightShiftRuns.BestIsHighestWinner | nexus/app/nightshift_runner_service.py:1247-1269 | the best score is zero or that of a promoted round, and no promoted round had a higher one |
| NightShiftRuns.PromotedIff | nexus/app/nightshift_runner_service.py:1247-1274 | a round is promoted exactly when its status is SCORED, its score exceeds zero and that of every promoted round before it, and all steps of its commit work without moving an embedded repository; refused exactly when only the latter fails; rejected otherwise |
| NightShiftRuns.WinnerOf | nexus/app/nightshift_runner_service.py:1247-1269 | every promoted commit is the staged work of a scored round, with its score |
| NightShiftRuns.StopInIff | nexus/app/nightshift_runner_service.py:1229-1290 | exactly when a round ends the run for time, for an exhausted model, for a failed restore, for quota and for patience |
| NightShiftRuns.StartsAtBase | nexus/app/nightshift_runner_service.py:1221-1290 | however earlier rounds ended, each round starts with HEAD and index at the base, which is the last promoted commit or the lease |
| NightShiftRuns.BasesFormChainIff | nexus/app/nightshift_runner_service.py:1221-1290 | the bases form a parent chain from the lease exactly when no promoted round moved HEAD |
| NightShiftRuns.PromotionsKeepGitlinks | nexus/app/nightshift_runner_service.py:1482-1495 | every promoted commit has the embedded repositories of its parent |
| NightShiftRuns.ChainKeepsGitlinks | nexus/app/nightshift_runner_service.py:1482-1495 | along a parent chain every promoted commit has the embedded repositories of the lease |
| NightShiftRuns.BestIsLastPromoted | nexus/app/nightshift_runner_service.py:1247-1269 | scores rise with every promotion; the best score is that of the last one, also after refused commits, and is positive exactly when there is one |
| NightShiftRuns.StartIsSettledIff | nexus/app/nightshift_runner_service.py:1431-1448 | a round starts with the work tree of its base exactly when the round just before was promoted or left a restorable state |
| NightShiftRuns.NoStraySettles | nexus/app/nightshift_runner_service.py:1431-1448 | after rounds that leave no stray ignore file every start is settled |
| NightShiftRuns.NothingRidesIntoCommitsIff | nexus/app/nightshift_runner_service.py:1431-1434 | in such a run every promoted tree holds its base's items and that very round's work exactly when the promoted rounds leave the ignored leftovers alone |
| NightShiftRuns.NothingRidesIntoCommits | nexus/app/nightshift_runner_service.py:1431-1434 | in particular when they change no ignore file and stage nothing they found untracked |
| NightShiftRuns.JudgedAtBaseIff | nexus/app/nightshift_runner_service.py:1240-1294 | tier 2 judges with HEAD at the promoted commit exactly unless an exhausted round moved it |
| NightShiftRuns.JudgedSettledIff | nexus/app/nightshift_runner_service.py:1240-1294 | exactly when the judged work tree is that of the promoted commit |
| NightShiftRuns.MovedHeadBreaksChain | nexus/app/nightshift_runner_service.py:1496-1513 | two promoted rounds of which the second moved HEAD: its commit does not descend from the first |
| NightShiftRuns.ExhaustedAfterPromotion | nexus/app/nightshift_runner_service.py:1240-1245 | a promotion, then an exhausted round with one extra file: tier 2 judges a tree that was not promoted |
| NightShift.Runner.CommitImprovement | nexus/app/nightshift_runner_service.py:1476-1513 | true exactly when every git step works and the gitlinks are unchanged; then HEAD, index and work tree stand at a child of the old HEAD, which is the new base; else the base stays and the state is the one the failing step left |
| NightShift.Runner.RestoreWorkTree | nexus/app/nightshift_runner_service.py:1431-1448 | false for the project root or a failed step; else the restored state, settled exactly from a restorable one |
| NightShift.Runner.PromoteRound | nexus/app/nightshift_runner_service.py:1247-1269 | a landed commit is the new base with the new best score; a refused one gives the score back and sets the streak to one |
| NightShift.Runner.FinishRound | nexus/app/nightshift_runner_service.py:1247-1290 | one finished round advances the fields as the run does, and ends it for the same reason |
| NightShift.Runner.TurnRound | nexus/app/nightshift_runner_service.py:1232-1290 | one turn of the loop: the fields are the run's next state, or those of its end |
| NightShift.Runner.RunRounds | nexus/app/nightshift_runner_service.py:1221-1290 | the loop ends in the first round in which the run may end, for that reason, with the fields and the git state of the run; the theorems of `NightShiftRuns` speak of that run |
| NightShift.Runner.Run | nexus/app/nightshift_runner_service.py:1292-1324 | tier 2 judges the state in which the run ended, exactly when it did not fail and something was promoted; the queued commit is the last promoted one with its score, the staged work of a scored round |
| Gitlinks.ReadLinks | nexus/app/nightshift_runner_service.py:1463-1474 | the loop gives the links of all records, or raises on a gitlink record without an object id |
| Gitlinks.BrokenIff | nexus/app/nightshift_runner_service.py:1463-1474 | reading raises exactly on a bare mode 160000, alone or with the bare type |
| Gitlinks.PrintedLinks | nexus/app/nightshift_runner_service.py:1463-1474 | from any listing whose meta parts describe their entries exactly the gitlinks of the entries are read back |
| Gitlinks.ListingsCompareRepositories | nexus/app/nightshift_runner_service.py:1486-1495 | the index listing and the tree listing read equal exactly when the embedded repositories are the same, for paths with tabs and spaces |
| PendingManifest.Manifest.Append | nexus/app/nightshift_runner_service.py:1555-1622 | the file is the complete requeued list or the complete old content |
| PendingManifest.LastAfterArrival | nexus/app/nightshift_runner_service.py:1600-1602 | dropping the prior item of the task and appending is keeping the last item of each task |
| PendingManifest.ManifestHoldsLastOfEachTask | nexus/app/nightshift_runner_service.py:1590-1602 | from distinct tasks any interleaving of appends leaves the last item of each task, in the order of those arrivals |
| PendingManifest.LastsAreDistinct | nexus/app/nightshift_runner_service.py:1600-1602 | one item for each task that was ever queued |
| AutoFlow.EveryLockReleasedOnce | nexus/app/research_flow_service.py:1269-1277 | a log that ends with the lock free has as many releases as acquisitions |
| AutoFlow.CandidatesWrittenUnderLock | nexus/app/research_flow_service.py:1197-1236 | candidate text is written only while the lock is held |
| AutoFlow.Delivery.Write | nexus/app/research_flow_service.py:1236 | a write lands, or raises and leaves anything |
| AutoFlow.Delivery.TryCandidate | nexus/app/research_flow_service.py:1181-1304 | success exactly for a changed, permitted candidate that passes; the file is the candidate if it is to stay and the original otherwise; it raises exactly when generation, write, test or a due restore does; the lock is released on every path |
| AutoFlow.Delivery.WriteUnderLock | nexus/app/research_flow_service.py:1507-1514 | nothing happens when another task holds the target; else one write, with the lock released |
| AutoFlow.Delivery.HyperApply | nexus/app/research_flow_service.py:1434-1534 | a successful sprint leaves its patch in the file, any other outcome the original, unless the symmetric comparison keeps the model's file |
| AutoFlow.Delivery.Rescue | nexus/app/research_flow_service.py:1407-1432 | the original text is in the file, and success means that it passed |
| AutoFlow.Delivery.HyperWithRescue | nexus/app/research_flow_service.py:1582-1590 | the rescue runs exactly after a failed sprint where it is allowed; success of either, with the elapsed time of both |
| AutoFlow.Delivery.GuardFallback | nexus/app/research_flow_service.py:1665-1679 | a passing fallback replaces the sprint in file and report; a rejected one keeps the report over the original text |
| AutoFlow.ProbeFastPath | nexus/app/research_flow_service.py:1604-1648 | a fast probe's patch is in the file with SUCCESS, or the original with FAILED when the lock is gone |
| AutoFlow.ProbeThenHyper | nexus/app/research_flow_service.py:1601-1698 | exactly when the fast path, the guard and the rejected fallback are taken, and what the file then holds |
| AutoFlow.HyperDirectly | nexus/app/research_flow_service.py:1568-1596 | the direct sprint, its ignored probe and its rescue leave the file as reported |
| AutoFlow.SelectFlow | nexus/app/research_flow_service.py:1536-1698 | exactly when the flow raises, when SUCCESS is reported and for which text, and when the model's file is kept; over every path the file agrees with the report, except exactly on the rejected guard fallback; outside the symmetric comparison FAILED leaves the original; every reported text has passed; every lock is released once; a thrown flow leaves the original when every rewrite lands |
| AutoFlow.RescueSucceedsIff | nexus/app/research_flow_service.py:1583-1656 | where the sprint delivers nothing and no fast path is taken, SUCCESS is reported about the original text exactly outside the symmetric comparison, for a cross-module refactor that allows verification-only success, when that text passes |
| AutoFlow.FastPathLimits | nexus/app/research_flow_service.py:1604-1611 | a passing probe is fast up to the tuned time and not above it, never without one and never for a forced flow |
| AutoFlow.GuardLimits | nexus/app/research_flow_service.py:1658-1664 | the guard needs a probe of 0.05 seconds or more and a sprint strictly above the allowed ratio to it |
| AutoFlow.DirectRoutes | nexus/app/research_flow_service.py:1566-1572 | which plans skip the probe, each reason alone |
| AutoFlow.ReplanLimits | nexus/app/research_flow_service.py:1544-1550 | a failed baseline is replanned only in model mode, unforced, with a model that was asked, outside the comparison |
| AutoFlow.RejectedFallbackHappens | nexus/app/research_flow_service.py:1664-1679 | inputs on which the guard withdraws a delivered sprint, the fallback fails and SUCCESS stands over the original text |
| OracleGuard.LeadingPartIsNeutral | nexus/committee/oracle_touch_guard.py:67-78 | a leading directory that is no test directory does not change the classification |
| OracleGuard.SideIsNeutral | nexus/committee/oracle_touch_guard.py:62-78 | stripping one leading a/ or b/ never changes the classification |
| OracleGuard.IdlePartIsNeutral | nexus/committee/oracle_touch_guard.py:67-70 | an empty part or a single dot at the front, at the end or inside a path changes nothing |
| OracleGuard.BuiltIsTestPathIff | nexus/committee/oracle_touch_guard.py:36-78 | over paths built from directories and a name with either separator, in any ASCII case: a test path exactly when a directory reads tests, test or testing, or the name reads conftest.py, test_*.py, *_test.py, *_tests.py or one of the seven oracle scripts |
| OracleGuard.UniqueKeepsMembers | nexus/committee/oracle_touch_guard.py:136 | removing duplicates keeps exactly the non-empty paths, once each |
| OracleGuard.PatchPaths | nexus/committee/oracle_touch_guard.py:81-136 | the loop gives the paths and the malformed headers of all lines |
| OracleGuard.PatchViolations | nexus/committee/oracle_touch_guard.py:139-148 | no reasons exactly for patches whose headers all read and name no test or oracle path; each such path has its reason |
| OracleGuard.AcceptableIff | nexus/committee/oracle_touch_guard.py:139-148 | a patch is accepted exactly when each line on its own reads and names no test path |
| OracleGuard.EscapedHeaderRejects | nexus/committee/oracle_touch_guard.py:90-97 | a header with a quoted escape rejects the patch wherever it stands |
| OracleGuard.QuotedTargetIsRead | nexus/committee/oracle_touch_guard.py:56-64 | a quoted target without escapes reads as the path between the quotes, without its side |
| OracleGuard.EmptyTargetRejects | nexus/committee/oracle_touch_guard.py:114-127 | a header pair, rename or copy whose target is white space or quotes around nothing rejects the patch |
| HeaderPatterns.GitHeaderIff | nexus/committee/oracle_touch_guard.py:47 | which lines match the git pattern and what they name, for quoted and unquoted sides: the shortest old side after which the rest reads as a new one |
| HeaderPatterns.BinaryHeaderIff | nexus/committee/oracle_touch_guard.py:48 | which lines match the pattern for binary files and what they name: the longest old side, neither side empty |
| HeaderPatterns.GitHeaderReports | nexus/committee/oracle_touch_guard.py:108-113 | a git header without escapes, quoted or not, gives the sides that it names |
| HeaderPatterns.UnreadableHeaderRejects | nexus/committee/oracle_touch_guard.py:108-135 | a `diff --git` line that names no two sides, and a notice that does not split, reject the patch |
| PrintedPatches.StampedTarget | nexus/committee/oracle_touch_guard.py:56-64 | a target with a time stamp reads as the path without its side |
| PrintedPatches.GitGroupsFind | nexus/committee/oracle_touch_guard.py:108-113 | the lazy pattern finds the printed paths and no shorter split |
| PrintedPatches.GitLineGivesSides | nexus/committee/oracle_touch_guard.py:108-113 | a git header gives both of its sides |
| PrintedPatches.PairGivesTargets | nexus/committee/oracle_touch_guard.py:98-121 | an adjacent pair of old and new headers gives both targets |
| PrintedPatches.RenameLineGivesPath | nexus/committee/oracle_touch_guard.py:122-127 | the four rename and copy lines give their path |
| PrintedPatches.BinaryGroupsFind | nexus/committee/oracle_touch_guard.py:128-135 | the greedy pattern finds the printed sides |
| PrintedPatches.BinaryLineGivesSides | nexus/committee/oracle_touch_guard.py:128-135 | a binary notice gives both sides |
| PrintedPatches.ChangeIsReported | nexus/committee/oracle_touch_guard.py:86-135 | wherever the headers of a change stand, every path it touches is reported |
| PrintedPatches.TestChangesAreRejected | nexus/committee/oracle_touch_guard.py:81-148 | in every printed patch, with any lines between the headers, both sides of every change are reported, and a test or oracle path on any side is rejected |
| PrintedPatches.PrintedIsAcceptableIff | nexus/committee/oracle_touch_guard.py:81-148 | a printed patch with quiet lines between its headers is accepted exactly when no side of any change is a test or oracle path |
| PrintedPatches.BuiltTestIsRejected | nexus/committee/oracle_touch_guard.py:67-148 | a printed change to a file under a test directory or with the name of a test file, in any case, is rejected |
| PrintedPatches.BuiltChangeIsAcceptedIff | nexus/committee/oracle_touch_guard.py:67-148 | a printed change of one built path is accepted exactly when no directory and no name of it is that of a test |
| CommandGrammar.FirstItem | nexus/committee/execution_verifier.py:191-205 | a legal item is known by how the arguments start |
| CommandGrammar.ReadingsShareItems | nexus/committee/execution_verifier.py:191-205 | two readings agree on the items they share |
| CommandGrammar.ReadingIsUnique | nexus/committee/execution_verifier.py:191-208 | an argument list has at most one reading as flags, valued flags and paths |
| CommandGrammar.StoppedIsUnreadable | nexus/committee/execution_verifier.py:191-208 | a list refused somewhere has no reading |
| CommandGrammar.CheckPytestArgs | nexus/committee/execution_verifier.py:185-208 | the loop accepts exactly the readable lists, unchanged, and otherwise names what stops the reading |
| CommandGrammar.ReadableHasPlaces | nexus/committee/execution_verifier.py:185-208 | every accepted argument is a listed flag, a value flag with its value, such a value, or a scoped path |
| CommandGrammar.DashedArgsAreListed | nexus/committee/execution_verifier.py:185-208 | every dashed argument is on the allowlist, and each value flag has one value that is not dashed |
| CommandGrammar.LoneFlagIff | nexus/committee/execution_verifier.py:49-64 | exactly the fourteen listed flags are accepted on their own |
| CommandGrammar.ValuedFlagIff | nexus/committee/execution_verifier.py:66 | -k and -m take any value that does not start with a dash |
| CommandGrammar.ConfinementIsKept | nexus/committee/execution_verifier.py:185-256 | no accepted argument sets the plugins, configuration, root, conftest or option flags of the fixed words again |
| CommandGrammar.MirrorKeepsReading | nexus/committee/execution_verifier.py:170-208 | parsing and building read the list in the same way |
| CommandGrammar.MirrorReadsIff | nexus/committee/execution_verifier.py:170-182 | what the mirror adds is that every path argument is inside it |
| CommandGrammar.CheckScriptArgs | nexus/committee/execution_verifier.py:209-218 | exactly scripts inside the scope with undashed, scoped arguments, the script resolved in the mirror |
| CommandGrammar.CheckRuffArgs | nexus/committee/execution_verifier.py:219-227 | exactly lists of allowed flags and scoped paths; otherwise the first bad argument decides the reason |
| CommandGrammar.CheckedArgs | nexus/committee/execution_verifier.py:185-227 | the three kinds together |
| CommandGrammar.PytestForms | nexus/committee/execution_verifier.py:151-167 | the two ways to ask for pytest, and no other |
| CommandGrammar.ScriptForms | nexus/committee/execution_verifier.py:151-167 | the two ways to ask for a script, whose name ends in .py and is no flag |
| CommandGrammar.RuffForms | nexus/committee/execution_verifier.py:151-167 | ruff with check or format, and everything behind it |
| CommandGrammar.FormRefusals | nexus/committee/execution_verifier.py:151-167 | the reason of a refused form goes by the program |
| CommandGrammar.SplitCommand | nexus/committee/execution_verifier.py:131-141 | a list is taken as it is, a line is split unless it holds one of nine shell characters or does not split, and nothing else is a command |
| CommandGrammar.ParseCommand | nexus/committee/execution_verifier.py:127-148 | accepts exactly the admitted commands and returns their words unchanged; otherwise the first test that fails gives the reason |
| CommandGrammar.BuildArgv | nexus/committee/execution_verifier.py:230-262 | succeeds exactly for admitted commands with the tool at hand, and appends the checked arguments to the fixed words; the reason of a refusal goes by form, arguments, tool |
| CommandGrammar.AcceptedPytestIsPrinted | nexus/committee/execution_verifier.py:127-208 | the accepted pytest commands are exactly the printed ones: an interpreter, perhaps -I, then flags, valued flags and relative paths, in words without NUL or two dots |
| CommandGrammar.AcceptedPytestIsBuiltIff | nexus/committee/execution_verifier.py:230-256 | an accepted pytest command is built exactly when the mirror holds its paths, and runs its own words after the fixed prefix |
| CommandGrammar.AcceptedScriptIff | nexus/committee/execution_verifier.py:127-218 | the accepted scripts are exactly an interpreter, perhaps -I, a relative .py path and relative paths, in plain words |
| CommandGrammar.AcceptedRuffIff | nexus/committee/execution_verifier.py:127-227 | the accepted ruff commands are exactly check or format with listed flags and relative paths, in plain words |
| CommandGrammar.PathPartEnds | nexus/committee/execution_verifier.py:174 | the path part ends at the first two colons in a row, or is the whole value |
| CommandGrammar.ScopedIff | nexus/committee/execution_verifier.py:170-182 | without a mirror a value is in scope exactly when its path is not empty, not absolute and has no parent step among its parts |
| CommandGrammar.ParentStepShows | nexus/committee/execution_verifier.py:144-145 | a parent step in a path part is visible to the search for two dots |
| CommandGrammar.NoParentStepIsLeft | nexus/committee/execution_verifier.py:144-182 | after that search a path argument is accepted exactly when it is non-empty and relative |
| Rounding.RoundHalfEvenIsNear | Autoresearch/formal_research_hardening.py:36-39 | rounding is at most half a step away, and even at exactly half |
| Rounding.RoundingIsMonotone | Autoresearch/formal_research_hardening.py:36-39 | rounding keeps order |
| WindowGate.PctReachesIff | Autoresearch/formal_research_hardening.py:36-39 | exactly which quotients reach a rounded rate, even or odd |
| WindowGate.SumsOfOneMore | Autoresearch/formal_research_hardening.py:55-60 | what one more row adds to the counts |
| WindowGate.GatePassesIff | Autoresearch/formal_research_hardening.py:55-80 | the gate on the counts and without rounding, for any thresholds, also for no rows and no patches |
| WindowGate.DefaultGateIff | Autoresearch/formal_research_hardening.py:13-80 | the default gate in numbers: ten patches, checks in 69.995 % of the rounds, proofs for 94.995 % of the patches, learning frozen in less than 19.995 % |
| WindowGate.VerdictIff | Autoresearch/formal_research_hardening.py:120-128 | the verdict of a round by default: those numbers over the round and the up to 19 before it |
| WindowGate.BucketNames | Autoresearch/formal_research_hardening.py:83-99 | a bucket that the row brings is kept; otherwise the bucket names exactly the ratios that miss their limits |
| WindowGate.BucketAgreesIff | Autoresearch/formal_research_hardening.py:55-112 | bucket and gate agree on a row exactly away from the freeze limit |
| WindowGate.HasRunIff | Autoresearch/formal_research_hardening.py:145-148 | the longest run reaches the required length exactly when such a run exists |
| WindowGate.NoRunBoundsCount | Autoresearch/formal_research_hardening.py:126-148 | without a run of r every block of r windows holds a failure |
| WindowGate.SparseCount | Autoresearch/formal_research_hardening.py:126-148 | the history with every r-th window failing passes as often as a history without a run can |
| WindowGate.SparseHasNoRun | Autoresearch/formal_research_hardening.py:126-148 | and it has no run of r |
| WindowGate.RateForcesRunIff | Autoresearch/formal_research_hardening.py:144-148 | for every length, run and rate: the rate test forces the run exactly when that sparsest history misses the rate |
| WindowGate.TracksStep | Autoresearch/formal_research_hardening.py:127-133 | the two counters after one more window are again the longest run and the open run |
| WindowGate.AnalyzeRow | Autoresearch/formal_research_hardening.py:120-142 | one turn keeps history, longest and open run, rows, buckets and reasons those of the rows read so far |
| WindowGate.Analyze | Autoresearch/formal_research_hardening.py:102-148 | the reported maximum is the longest block of passing windows, the rate is theirs, convergence is rate and run, and buckets and reasons count every failing row |
| WindowGate.ReportedRow | Autoresearch/formal_research_hardening.py:114-142 | verdict, bucket and mode of a reported row; the rest is the source row |
| WindowGate.BucketIsCounted | Autoresearch/formal_research_hardening.py:134-136 | each failing row is counted once under its bucket |
| WindowGate.ReasonIsCounted | Autoresearch/formal_research_hardening.py:134-137 | and once under the reason it gives, or else its bucket |
| WindowGate.DefaultConvergesIff | Autoresearch/formal_research_hardening.py:144-148 | convergence by default: 79.995 % of the windows pass and somewhere three in a row |
| WindowGate.DefaultRateForcesRunIff | Autoresearch/formal_research_hardening.py:13-23 | with the default rate and run this is so at every length but 1, 2 and 5 |
| WindowGate.RateDecides | Autoresearch/formal_research_hardening.py:144-148 | at those lengths convergence is the pass-rate test alone |
| WindowGate.TooFewRows | Autoresearch/formal_research_hardening.py:144-148 | one or two good rounds reach the rate and do not converge |
| WindowGate.FiveRows | Autoresearch/formal_research_hardening.py:144-148 | five rounds with one missed check reach the rate and do not converge |
| WindowGate.RunTestIsRedundantIff | Autoresearch/formal_research_hardening.py:144-148 | the run test is redundant for all runs of a length exactly when the length is not 1, 2 or 5 |
| WindowGate.AnalysisIsStable | Autoresearch/formal_research_hardening.py:83-142 | analysing the rows of a report again gives the same rows, verdicts and counters |
| RoutingTuner.Dominant | nexus/autopilot/tuner.py:60-71 | the loop finds the first of the best scores |
| RoutingTuner.DominatesIff | nexus/autopilot/tuner.py:60-71 | for each dimension, exactly which latency, language, load and gain give it the credit |
| RoutingTuner.SampleIs | nexus/autopilot/tuner.py:48-51 | the sample is the last entries of the log, as many as the window, all of them, or all but the first few |
| RoutingTuner.AdjustmentsAreConserved | nexus/autopilot/tuner.py:55-76 | every entry is credited to exactly one dimension: the adjustments add up to 10 a success and -20 a failure |
| RoutingTuner.RaisesAreBounded | nexus/autopilot/tuner.py:55-76 | what raises weights stays within 10 an entry, over all dimensions together |
| RoutingTuner.Parse | nexus/autopilot/tuner.py:40-46 | the lines that parse, in order |
| RoutingTuner.Adjust | nexus/autopilot/tuner.py:55-76 | the loop gives each dimension its credits |
| RoutingTuner.Move | nexus/autopilot/tuner.py:79-81 | every weight is moved by its credits and floored |
| RoutingTuner.Normalize | nexus/autopilot/tuner.py:83-85 | every weight becomes its rounded share of the total |
| RoutingTuner.Tune | nexus/autopilot/tuner.py:55-85 | one tuning on a non-empty sample |
| RoutingTuner.Tuner.TuneWeights | nexus/autopilot/tuner.py:33-88 | weights and weights file change together, and only on a non-empty sample of the log |
| RoutingTuner.SharesSum | nexus/autopilot/tuner.py:83-85 | four rounded shares add up to 1 within 0.002 |
| RoutingTuner.TuningBalances | nexus/autopilot/tuner.py:55-85 | a tuning on at most 200 entries keeps the sum within 0.002 of 1 and every weight at 0.016 or more |
| RoutingTuner.WeightsStayAlive | nexus/autopilot/tuner.py:20-88 | so do any number of tunings from the defaults, on any logs |
| RoutingTuner.SampleIsBoundedIff | nexus/autopilot/tuner.py:48-51 | the sample is bounded by 200 exactly for windows from 1 to 200: a window of 0 takes the whole log |
| RoutingTuner.SharesKeepOrder | nexus/autopilot/tuner.py:83-85 | normalising keeps the order of the moved weights |
| RoutingTuner.FloorIsReached | nexus/autopilot/tuner.py:20-88 | three tunings from the defaults bring three weights to 0.016, so the bound is exact |
| PathPolicy.PathHasSegments | nexus/contracts/autonomy_goal.py:97-112 | an accepted path is "." or well-formed segments that join to it |
| PathPolicy.SegmentsMakePath | nexus/contracts/autonomy_goal.py:97-112 | every list of well-formed segments is the place of an accepted path |
| PathPolicy.RepoPathIff | nexus/contracts/autonomy_goal.py:97-112 | the repository paths are "." and plain names with single slashes between them, none of them empty, a dot, two dots or .git in any case |
| PathPolicy.AtOrUnderIsPrefix | nexus/contracts/autonomy_goal.py:260-263 | the string test is the prefix order on segments, except under "." |
| PathPolicy.MeetsIsOneLine | nexus/contracts/autonomy_goal.py:264-269 | the overlap test is comparability in that order, except for "." |
| PathPolicy.PolicyIsValidIff | nexus/contracts/autonomy_goal.py:243-255 | construction accepts exactly non-empty, disjoint, well-formed policies |
| PathPolicy.RefusalsIff | nexus/contracts/autonomy_goal.py:243-255 | exactly which refusals are reported together |
| PathPolicy.AllowsRaisesIff | nexus/contracts/autonomy_goal.py:257-259 | the question raises exactly for a value that is no repository path |
| PathPolicy.AllowsIff | nexus/contracts/autonomy_goal.py:257-270 | allowed means under an allowed place and on no line with a forbidden one |
| PathPolicy.PermissionReachesDown | nexus/contracts/autonomy_goal.py:257-270 | an allowed path answers for everything beneath it exactly when it is not "." |
| PathPolicy.AllowedKeepsClear | nexus/contracts/autonomy_goal.py:257-270 | no forbidden path is at, above or below an allowed one exactly when "." is on neither side |
| PathPolicy.ForbiddenRootIsNoShield | nexus/contracts/autonomy_goal.py:264-270 | forbidding "." forbids nothing beneath it |

## Left out

- The database file itself: WAL, triggers, file modes, ownership and symlink checks (product/ledger.py:178-321).  An attempt is atomic, busy or broken; a failed sidecar check after the commit is kept.
- Column widths: sequence and generation are unbounded integers, where SQLite keeps 64 bits.
- SHA-256, canonical JSON text, the signer and the anchor verifier: function parameters.  JSON objects have string keys and no key order.
- The `entry`-less details of error texts (`error_reason`) in the ledger.
- Fields outside the 14 hashed ones (`created_at`, `attempt`, `expected_generation`, signature, document bytes beyond their hashes) are stored and loaded but are not part of the tamper theorem, as in the code.
- Generation, prompts, receipts, learning writeback and the queue dispatcher of NightShift, and its mode without git.  A round's outcome and what it leaves are inputs; the trust check of a git call is part of that call failing.
- Tracked ignore rules of git beyond the ignore files in the work tree (global excludes, `info/exclude`) are constant parts of the rules parameter.
- Everything in `run_auto_flow` after line 1698, and the seam's extra lock that the runtime may select; `run_hyper_sprint` is taken to leave the target file alone; companion files, which are always empty there.
- A test run is taken to leave the target file alone in auto-flow.
- AutoFlow.Delivery.TryCandidate: a write or restore that raises leaves any text in the file, as the code does not promise more; the lock is still released.
- Floating point: scores are exact numbers, percentages exact quotients before rounding, weights whole thousandths between tunings.
- Unicode case folding in the diff guard (ASCII letters only); the quoted-escape exception of `_strip_side`, which an earlier test of the line makes unreachable.
- Rows and log entries are typed records: conversions of odd JSON values (`int(...)`, `str(...)`) are not modelled.
- `shlex.split`, `shlex.quote` and `lane.scoped_path` are function parameters; the text part of a `CommandNotAllowed` message is not kept.
- The file written by `analyze` and its list of the three most common reasons.
- `nexus/contracts/break_glass_recovery.py`, `nexus/contracts/collaboration_realm.py`, `nexus/committee/controller.py`, `nexus/committee/comparator.py`: field-by-field validators, or sums and maxima over policies defined elsewhere.
