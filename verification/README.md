# A verified model of mkso

mkso plans work, admits SCIP indexes of the source, tracks evidence for obligations, qualifies tool runs
against an append-only database, and drives a bounded drafting session. This project models the parts of it
that decide something and proves what they promise, in Dafny 4.11. `dafny verify dfyconfig.toml` checks all of it.

Hashes, canonical JSON, base64 and the parser are parameters: arbitrary functions, assumed injective only
where a lemma says so. Provider, broker, the peer on the other side of a frame channel, file contents and the
source tree are oracles. Every method is proved against a function or predicate of its inputs, and the
theorems are about those. The modules named `…Rules`, `…Forms`, `…History`, `…Wire`, `…Answers`, `…Texts`, `…Rounds`
and `…Contents` pin those functions down: they say, of the input and output values alone, exactly what is accepted and answered.

The modules, by part of the repository:

- **All paths eventually** (`AllPathsEventually`, `ModelCheck`, `CertificateRules`): the meaning of the property over
  infinite paths and dead ends; the prover's fixed point, its counterexample walk, and the independent checker; what
  certificates say and exactly which are accepted.
- **Qualification runs** (`QualificationLedger`, `QualificationTables`, `QualificationDatabase`,
  `QualificationBlobs`, `QualificationHistory`, `TablesHistory`, `BlobRules`): the life of a run as a machine on abstract
  records; the five tables and the invariant that ties them to it; the SQL functions as methods on those tables; the two
  independent checks of a blob list; and every answer and every row told by the log of earlier calls alone.
- **Draft session** (`DraftBridge`, `DraftSession`, `DraftTrace`, `DraftForms`, `DraftTexts`, `DraftWire`, `DraftAnswers`):
  validation and dispatch shared by all parties, the run in one process, the session, and the operator against any peer with a trace
  of everything it does. Together, operator and session compute the one-process run. What each party accepts, asks and
  answers is then told frame by frame, in the frames themselves.
- **Impact** (`Acyclicity`, `Impact`, `ImpactGuard`, `ImpactRounds`): the depth-first search for cycles, the closure of
  changed subjects, when the guard in its loop matters, and what the order of the scans in a round decides.
- **Index and contract** (`SourceRanges`, `ScipIndex`, `ScipContract`, `IndexRules`, `ContractRules`): innermost owners,
  symbol uniqueness, the closed world of edges between subjects, and exactly which messages and contracts are admitted.
- **Plan, evaluation and store** (`Plan`, `PlanRules`, `Evaluation`, `Evidence`, `Freshness`, `SubjectText`, `PlanStore`,
  `PlanDatabase`, `StoreHistory`): which plans are accepted, what the statuses and digests mean and when evidence goes
  stale, the store's transactions over every run, and its tables told by the committed transactions.
- **Slot, coverage, comparison** (`SlotSplice`, `SlotRules`, `CoverageJoin`, `CoverageRules`, `AdmissionDiff`,
  `DiffContents`): replacing one marked body, joining coverage to frozen requirements, and comparing two admissions, each
  with what it accepts and answers said of its inputs.
- `Common`, `JsonText`, `TextOrder`, `Alphabets` and `Sequences` hold what several of these share. A JSON number with a fraction is
  a binary floating-point number, an odd mantissa and an exponent, so the values can all be written as distinct texts.

Results about the code that its reader may not expect:

- The guard in the impact loop that skips a dependent which is already affected makes the closure neither monotone
  in the seeds nor closed under full expansion (`ImpactGuard.CoversInPartShrinks`). Both hold if every item with
  dependencies is plain: each subject of its obligations touches all of them and covers those that do not compose, and
  all of them compose if it has children (`Impact.PlainImpactIsLeast`). They hold only then on graphs whose items with
  dependencies have no children, subjects that nothing else pulls in, and a dependency that can be touched alone
  (`ImpactGuard.FullClosureExactly`, `ImpactGuard.MonotoneExactly`).
- The cycle test of plan validation, the second uniqueness test for global symbols, the duplicate test for blobs, the
  missing-predecessor answers of the SQL functions, the definition-count error of index admission and both internal
  errors of the counterexample walk can never fire.
- The digest of a coverage join leaves out the suite assignment: records with another assignment hash are accepted
  alike and have the same digest (`CoverageJoin.DigestOmitsAssignment`).
- A spliced file splits back into its parts for every body without a marker; the rule that a body ends with a newline
  is not needed for that.

## Model

| member | source | states |
|---|---|---|
| AllPathsEventually.RankedExactly | mkso/modelcheck.py:152-161 | a saturated rank map ranks exactly the states from which every maximal path (unending, or ending in a dead end) meets a target |
| AllPathsEventually.UnrankedNotEventually | mkso/modelcheck.py:139-143 | from an unranked state some maximal path, by dead end or for ever, avoids every target |
| AllPathsEventually.RankIsLongest | mkso/modelcheck.py:160 | a rank is the length of the longest path to a first target |
| AllPathsEventually.RanksAreDetermined | mkso/modelcheck.py:155-161 | two saturated rank maps are equal, so the scan order cannot show in the ranks |
| ModelCheck.Pass | mkso/modelcheck.py:155-161 | one scan keeps every rank final, adds a state whenever it reports a change, and leaves nothing rankable otherwise |
| ModelCheck.ComputeRanks | mkso/modelcheck.py:151-161 | the fixed-point loop ends, and its map is descending, tight and saturated |
| ModelCheck.Counterexample | mkso/modelcheck.py:120-143 | the walk ends in a lasso or dead end that starts at a source and avoids all targets; neither internal error can occur |
| ModelCheck.Prove | mkso/modelcheck.py:146-184 | answers proved exactly when the property holds, with the unique ranks, and what it emits is accepted by the checker |
| ModelCheck.ProvedIsAccepted | mkso/modelcheck.py:187-263 | the checker accepts every proved certificate of the prover |
| ModelCheck.DisprovedIsAccepted | mkso/modelcheck.py:187-263 | the checker accepts every counterexample of the prover |
| ModelCheck.AcceptedRanksProve | mkso/modelcheck.py:206-232 | ranks the checker accepts prove the property, wherever they come from |
| ModelCheck.AcceptedPathDisproves | mkso/modelcheck.py:233-262 | a path the checker accepts, lasso or dead end, refutes the property |
| ModelCheck.AcceptedIsTrue | mkso/modelcheck.py:187-263 | whatever certificate is accepted, its result is true of the model |
| ModelCheck.NeverBothAccepted | mkso/modelcheck.py:187-263 | no property has both a proved and a disproved certificate accepted |
| ModelCheck.ScanOrderIrrelevant | mkso/modelcheck.py:155 | certificates of two scan orders carry the same ranks |
| CertificateRules.ProvedSays | mkso/modelcheck.py:170-184 | a proof carries the header, the property's own record and exactly the ranks |
| CertificateRules.DisprovedSays | mkso/modelcheck.py:120-143 | a refutation carries the header, the property's own record and the path |
| CertificateRules.AcceptedExactly | mkso/modelcheck.py:187-263 | a certificate is accepted exactly if header and model digest are right, its record is a property of the model as stated there, and its ranks descend or its path escapes, in terms of the members themselves |
| CertificateRules.RaisesExactly | mkso/modelcheck.py:187-205 | the checker raises exactly if the identifier is a list or an object |
| QualificationBlobs.RoleNumbersAgree | mkso/qualification_store.py:30-47 | the client's role order and the database's role numbers are one order |
| QualificationBlobs.OrderedPairsDistinct | mkso/_sql/i06_toolchain_qualification.sql:740-821 | the strict order alone makes role and name pairs distinct, so the duplicate tests cannot fire |
| QualificationBlobs.OrderedBlobsAreCanonical | mkso/_sql/i06_toolchain_qualification.sql:786-800 | an ordered blob list is determined by its blobs |
| QualificationBlobs.CheckBlobArrays | mkso/_sql/i06_toolchain_qualification.sql:753-821 | the loop over the blob arrays accepts exactly the admissible lists: ordered, matching hashes and sizes, one event prefix |
| QualificationBlobs.ClientRows | mkso/qualification_store.py:743-798 | the client's loop accepts exactly the ordered, well-shaped lists that match their manifest entries |
| QualificationBlobs.ClientRetention | mkso/qualification_store.py:743-825 | accepts exactly the lists that also meet the singleton and build-request rules and carry the prefix just read, and sends the database an admissible table |
| QualificationBlobs.ClientListIsAdmissible | mkso/qualification_store.py:750-825 | every blob list the client accepts passes the database's checks |
| BlobRules.KeyExactly | mkso/_sql/i06_toolchain_qualification.sql:356-362 | a key is well formed exactly if its claim is a letter followed by at most 127 name characters and its two hashes are digests |
| BlobRules.AdmissibleExactly | mkso/_sql/i06_toolchain_qualification.sql:740-821 | the database takes exactly the lists whose blobs are well formed, whose roles and names ascend and that hold one event prefix with the requested hash, in terms of the blobs themselves |
| BlobRules.SendRetention | mkso/qualification_store.py:743-825 | the client sends exactly the lists that match their manifest, ascend, have each of the ten singleton roles once under its own name, at most one build request, and the prefix just read; it sends those blobs |
| QualificationLedger.StepEvolves | mkso/_sql/i06_toolchain_qualification.sql:332-1099 | every call, in any state, keeps the ledger well formed, keeps each run's profile and audit prefix, and moves it only forward |
| QualificationLedger.HistoryEvolves | mkso/_sql/i06_toolchain_qualification.sql:332-1099 | the same over every interleaving of calls |
| QualificationLedger.AdmittedOnce | mkso/_sql/i06_toolchain_qualification.sql:384-436 | a request is answered ADMITTED at most once: repeated after any history it changes nothing and is answered ACTIVE or TERMINAL with the same run, and once TERMINAL with the same bytes |
| QualificationLedger.ProfileIsBound | mkso/_sql/i06_toolchain_qualification.sql:363-383 | a request that names a known profile hash with other bytes, claim or context is refused after every history |
| QualificationLedger.PrefixIsFrozen | mkso/_sql/i06_toolchain_qualification.sql:582-668 | the four-event prefix read once is read the same after every further history |
| QualificationLedger.RetentionIsFinal | mkso/_sql/i06_toolchain_qualification.sql:872-912 | after a retention the same run replays to the same receipt without change, and a different one is refused without change, for ever |
| QualificationLedger.TerminalIsFinal | mkso/_sql/i06_toolchain_qualification.sql:1010-1038 | after a terminal result the same result replays without change, a different one is refused without change, and reads return its bytes for ever |
| QualificationLedger.TerminalNeedsRetention | mkso/_sql/i06_toolchain_qualification.sql:1002-1009 | in every reachable state a terminal run has a retained private run |
| QualificationHistory.AnswersFollow | mkso/_sql/i06_toolchain_qualification.sql:332-1099 | every answer of every call, in every reachable state, follows from the log of earlier calls and answers alone: ADMITTED exactly for a new hash, each stage exactly once and after the one before, the prefix's four rows with the committed hashes, retention and result replayed only if the same |
| QualificationHistory.RowsStay | mkso/_sql/i06_toolchain_qualification.sql:485-668 | once a raw output or cleanup is committed, every prefix read later shows that hash in its third or fourth row |
| QualificationHistory.CommitmentsBind | mkso/_sql/i06_toolchain_qualification.sql:860-870 | and a well-formed retention of a cleaned run under another hash is refused for ever |
| TablesHistory.TablesAreTold | mkso/_sql/i06_toolchain_qualification.sql:113-230 | after any calls each run's rows are those of its accepted calls: six events with actor, commitment and time, the private run with its blobs, the result; a row is absent exactly if no such call was accepted |
| QualificationTables.StageFixesEverything | mkso/_sql/i06_toolchain_qualification.sql:113-230 | in represented tables a run's stage fixes its audit rows (1, 2, 3, 4 or 6, with kinds, actors and ordinals), that events 1 and 2 commit to the profile, and which private and terminal rows exist and what they match |
| QualificationTables.StagesAreDistinguished | mkso/_sql/i06_toolchain_qualification.sql:113-134 | two stages never have the same audit kinds |
| QualificationTables.AuditShape | mkso/_sql/i06_toolchain_qualification.sql:136-158 | kinds, actors and commitments of a run's audit log, by stage |
| QualificationTables.EventRowsAre | mkso/_sql/i06_toolchain_qualification.sql:614-640 | the rows the table holds for a run, in ordinal order, are its audit log |
| QualificationDatabase.Database.AdmitToolchainRun | mkso/_sql/i06_toolchain_qualification.sql:332-437 | on the tables it does what admission does on the ledger, and keeps the five tables tied together |
| QualificationDatabase.Database.StartToolchainRun | mkso/_sql/i06_toolchain_qualification.sql:439-483 | start on the tables is start on the ledger; the missing-predecessor branch never answers |
| QualificationDatabase.Database.CommitRawOutput | mkso/_sql/i06_toolchain_qualification.sql:485-533 | raw commit on the tables is raw commit on the ledger; the missing-predecessor branch never answers |
| QualificationDatabase.Database.CommitCleanupHash | mkso/_sql/i06_toolchain_qualification.sql:535-580 | cleanup commit on the tables is cleanup commit on the ledger; the missing-predecessor branch never answers |
| QualificationDatabase.Database.ReadToolchainEventPrefix | mkso/_sql/i06_toolchain_qualification.sql:582-668 | returns the four rows of the audit log exactly when the run is cleaned |
| QualificationDatabase.Database.RetainToolchainPrivateRun | mkso/_sql/i06_toolchain_qualification.sql:670-961 | retention on the tables is retention on the ledger, with its replay and refusal rules |
| QualificationDatabase.Database.CommitTerminalResult | mkso/_sql/i06_toolchain_qualification.sql:963-1070 | terminal commit on the tables is terminal commit on the ledger: two events, one result, or a replay |
| QualificationDatabase.Database.ReadToolchainTerminal | mkso/_sql/i06_toolchain_qualification.sql:1072-1099 | returns the result document of a terminal run and nothing else |
| DraftBridge.CallIsFresh | bootstrap/baseline/direct_bridge.py:433-468 | a call that is returned is a well-formed item of that response with an identifier not seen before |
| DraftBridge.ReadCall | bootstrap/baseline/direct_bridge.py:425-469 | scanning all items returns the single validated call, or fails, and records exactly its identifier |
| DraftBridge.RequestIsFixed | bootstrap/baseline/direct_bridge.py:478-496 | the one request a call may lead to is the fixed request for the public capsule, or the submission of a well-formed body with every other field the capsule's own |
| DraftBridge.DispatchAsksOnce | bootstrap/baseline/direct_bridge.py:472-498 | that request is all a dispatch asks: any other broker that answers it alike gives the same outcome, and without such a request no broker can change it |
| DraftBridge.DispatchIsBound | bootstrap/baseline/direct_bridge.py:472-498 | a dispatch succeeds only with the broker's answer to that request: for the public capsule the one held already, and an admitted draft carries the capsule's own bindings |
| DraftForms.CallExactly | bootstrap/baseline/direct_bridge.py:425-469 | a response is read exactly if it is completed, of the model, its items are in order and it has at most one call; the call read is that item |
| DraftForms.DispatchExactly | bootstrap/baseline/direct_bridge.py:472-498 | a dispatch succeeds with a value exactly if it makes one of the two requests and the value is the broker's answer and may be released |
| DraftForms.ProjectsExactly | bootstrap/baseline/direct_bridge.py:370-422 | a broker record may be released exactly if it is one of the listed shapes, member by member |
| DraftTexts.TextsExactly | bootstrap/baseline/direct_bridge.py:370-440 | which texts are hashes, names of tasks and slots, call identifiers, functions and source files, by length and alphabet |
| DraftForms.ReadyExactly | bootstrap/baseline/container_operator.py:360-406 | the operator goes on exactly with a ready frame that reports a confined process: fixed identities, maps, capabilities and modes, a filter count in range and six namespaces |
| DraftBridge.DirectFailsAlone | bootstrap/baseline/direct_bridge.py:501-541 | the run in one process fails only by the provider, its output or a dispatch |
| DraftBridge.RunLoop | bootstrap/baseline/direct_bridge.py:516-541 | the loop computes the conversation from its opening history |
| DraftBridge.Run | bootstrap/baseline/direct_bridge.py:501-541 | the one-process run equals the recursive reference for every provider and broker |
| DraftTrace.ServePeer | bootstrap/baseline/container_operator.py:353-452 | the loop returns the trace of the run: its outcome is the outcome of `serve`, and the trace answers for everything the next row lists |
| DraftTrace.ServeIsAccountable | bootstrap/baseline/container_operator.py:353-452 | against any peer: at most eight provider requests, each with exactly the opening and what was exchanged since; each dispatch the single validated call of that response; nothing else sent; each answer the peer's to the frames before it; a result only on the matching finish frame |
| DraftTrace.ServeIsTraced | bootstrap/baseline/container_operator.py:353-452 | writing the run down does not change its outcome |
| DraftTrace.ServeTurn | bootstrap/baseline/container_operator.py:411-449 | one turn of the operator, with the round it made and the frames it exchanged |
| DraftTrace.DispatchedOnce | bootstrap/baseline/container_operator.py:409-451 | no call identifier is dispatched twice in the run, whatever the peer sends |
| DraftTrace.TraceDecides | bootstrap/baseline/container_operator.py:353-452 | any bridge and peer that answer alike at the traced requests, dispatches and frames give the same run |
| DraftTrace.OraclesDecide | bootstrap/baseline/container_operator.py:409-451 | provider and broker matter only at the traced histories and at the one request of each traced dispatch |
| DraftWire.ServeIsWired | bootstrap/baseline/container_operator.py:353-452 | the whole run frame by frame: greeting, request with the history so far, response, call, result; each next history is the last one, the response's output items in order and one output item with that identifier and the encoded result; and, for each failure, which frame or oracle caused it |
| DraftWire.ResultsEndRuns | bootstrap/baseline/container_operator.py:438-452 | a reported result is admitted, unavailable, no draft or the turn limit; a round that ends with any other result is the eighth or is followed by a request with the extended history |
| DraftWire.DirectIsAlone | bootstrap/baseline/direct_bridge.py:501-541 | the one-process run is such a conversation too, request by request, with the same rule for its end |
| DraftSession.RunSession | bootstrap/baseline/container_session.py:82-140 | everything the session sends is what the stepwise session answers; it stops on a finish frame, a silent operator or a refused frame, within eight turns |
| DraftAnswers.AnswersFirst | bootstrap/baseline/container_session.py:82-100 | the session answers the first frame with its runtime report |
| DraftAnswers.AnswersSecond | bootstrap/baseline/container_session.py:82-106 | it asks for the first response exactly if the second frame lets it go on, with the opening made of the task and capsule of the first |
| DraftAnswers.AnswersNoStart | bootstrap/baseline/container_session.py:82-106 | if the first frame is not in order it never asks for a response or a call |
| DraftAnswers.AnswersOdd | bootstrap/baseline/container_session.py:103-140 | each response is answered with the call it makes or the end it stands for, and nothing is answered where none was asked for |
| DraftAnswers.AnswersEven | bootstrap/baseline/container_session.py:103-140 | each result of a call is answered with an end, a further request or nothing: refused, ending, eighth or extending the history |
| DraftAnswers.AnswersNoCall | bootstrap/baseline/container_session.py:103-140 | nothing is answered where no call was asked for |
| DraftSession.BridgeAgrees | bootstrap/baseline/container_session.py:103-109 | every result the operator's dispatch releases passes the session's own projection |
| DraftSession.TurnRefines | bootstrap/baseline/container_operator.py:411-449 | operator and session leave each turn with the same history and identifiers, and took the one-process step |
| DraftSession.ConversationRefines | bootstrap/baseline/container_operator.py:410-451 | from any common state the two parties end with the result of the one process |
| DraftSession.TwoPartiesRefineOne | bootstrap/baseline/container_operator.py:353-452 | for every provider and broker, operator and honest session return what the one-process run returns, each failure for the same cause; no frame is ever rejected and neither party falls silent |
| Acyclicity.RequireAcyclic | mkso/impact.py:78-94 | returns normally exactly when the edge map has no directed cycle; a node it reports lies on one |
| Acyclicity.Search.Visit | mkso/impact.py:82-91 | a visit ends, restores the stack, and leaves all nodes reachable from it done, or finds a node on a cycle |
| Acyclicity.AncestorChain | mkso/impact.py:237-242 | in an acyclic hierarchy a set closed under parents holds each member's whole, finite chain to a root |
| Impact.ImpactIsClosed | mkso/impact.py:353-394 | the impact contains the seeds and is closed under reverse edges, shared subjects, owners, dependents, parents and parents' composition obligations |
| Impact.ImpactIsContained | mkso/impact.py:353-394 | it lies inside every triple closed under those rules and full expansion of dependents |
| Impact.ImpactIsJustified | mkso/impact.py:361-393 | every affected subject, obligation and work item is there by one of the rules |
| Impact.MissingShrinks | mkso/impact.py:357-358 | the elements still outside the three sets shrink with every round that changes something |
| Impact.CloseImpact | mkso/impact.py:353-394 | the loops compute that impact, and it has all the properties above |
| Impact.ScanParents | mkso/impact.py:380-393 | the scan over a snapshot of the affected items adds all their parents and composition obligations, in whatever order |
| Impact.PlainImpactIsLeast | mkso/impact.py:370 | when no item with dependencies can be affected in part (`Plain`: each subject of its obligations touches all of them and covers those that do not compose), the impact is the least fully closed triple |
| Impact.PlainImpactIsMonotone | mkso/impact.py:370 | under the same condition more seeds never affect less |
| Impact.PlainImpactIsUnordered | mkso/impact.py:361-393 | under the same condition the order of the loops does not matter |
| Impact.TouchedIsNotExpanded | mkso/impact.py:370-378 | an item that shares a subject with the seeds is never expanded, so what only its expansion reaches stays out |
| Impact.TouchedDependentIsLeftOpen | mkso/impact.py:370-378 | if the seeds touch an item and one it depends on, and a subject of its own is reached in no other way, the impact is not fully closed |
| ImpactRounds.DueIsExpanded | mkso/impact.py:361-393 | an item triggered in a round, and not affected when its dependents are scanned, is expanded, whether or not it has children |
| ImpactRounds.UntouchedDependentIsExpanded | mkso/impact.py:369-393 | if the seeds touch a dependency and neither they nor their reverse edges touch the item, it is expanded even if a child of it is touched |
| ImpactRounds.TouchedByEdgeIsNotExpanded | mkso/impact.py:361-378 | an item touched by a reverse edge of the seeds is not expanded either |
| ImpactRounds.ChainIsExpanded | mkso/impact.py:369-378 | a chain of untouched dependents in scan order is expanded to its end |
| ImpactRounds.GrandparentIsExpanded | mkso/impact.py:361-393 | an item that depends on a parent added only by the parent scan is expanded in the next round |
| ImpactGuard.CoversInPartShrinks | mkso/impact.py:361-378 | for every childless item with private subjects that a subject covers in part: seeding it beside a dependency's subject leaves the impact open and without something that the dependency's subject alone affects |
| ImpactGuard.UntouchedIsExpanded | mkso/impact.py:370-378 | an affected childless item with private subjects that the seeds do not touch is expanded |
| ImpactGuard.FullClosureExactly | mkso/impact.py:353-394 | on separate graphs the impact of all seeds is fully closed if and only if every item with dependencies is plain |
| ImpactGuard.MonotoneExactly | mkso/impact.py:353-394 | on separate graphs more seeds never affect less if and only if every item with dependencies is plain |
| ImpactGuard.SeparateGraphsDiffer | mkso/impact.py:370 | there are separate graphs of both kinds: one subject shared by two obligations, and a subject for each |
| Impact.AffectedToTheRoot | mkso/impact.py:379-385 | above every affected work item the chain of parents is finite, ends at a root and is affected throughout |
| SourceRanges.ContainsIsPartialOrder | mkso/scip.py:34-35 | containment is reflexive, antisymmetric and transitive |
| SourceRanges.ContainsExactly | mkso/scip.py:34-35 | one range contains another exactly if it starts no later and ends no earlier, by line and then character |
| SourceRanges.OnlyMinimalIsInnermost | mkso/scip.py:1153-1162 | a subject is the only minimal candidate exactly if it lies strictly inside every other one |
| SourceRanges.ReferenceIsNeverDropped | mkso/scip.py:1146-1170 | a reference inside some subject has a minimal candidate, and a single one exactly if one candidate lies inside all others |
| SourceRanges.MinimalBelow | mkso/scip.py:1153-1162 | inside every candidate lies a minimal one |
| ScipIndex.ValidateIndex | mkso/scip.py:422-625 | accepts exactly the acceptable messages and keeps all their symbols and occurrences |
| ScipIndex.ScanSymbol | mkso/scip.py:461-478 | one symbol is recorded exactly if it is well formed and its key is new; the second uniqueness test never decides |
| ScipIndex.AcceptedIsWellFormed | mkso/scip.py:461-478 | in an accepted index keys are distinct and follow from symbol and document |
| ScipIndex.GlobalSymbolIsUnique | mkso/scip.py:222-227 | a symbol that is not local has one entry in the whole index |
| ScipIndex.DefinitionIsDescribed | mkso/scip.py:602-614 | every definition is described by a symbol of its own document |
| IndexRules.AcceptableExactly | mkso/scip.py:415-625 | a message is accepted exactly if its documents, entries and occurrences follow the rules, said of their own fields |
| IndexRules.AcceptedKeeps | mkso/scip.py:461-625 | the accepted index holds every entry and occurrence of the message, each with its own fields, and nothing else |
| ScipContract.SubjectsOwnSymbols | mkso/scip.py:1077-1087 | no two bound subjects share a symbol, so the lookup by symbol loses nothing |
| ScipContract.ScanOccurrence | mkso/scip.py:1142-1170 | one reference shows exactly the edge from its innermost owner, or is ambiguous |
| ScipContract.SubjectBySymbol | mkso/scip.py:1141 | with distinct symbols the lookup is exact, in whatever order it is filled |
| ScipContract.CheckSelectors | mkso/scip.py:1077-1087 | rejects exactly the bindings in which two subjects share a selector, taken in any order |
| ScipContract.VerifySubjects | mkso/scip.py:965-1207 | once the shape checks pass, a contract is admitted exactly if no owner is ambiguous, required edges are observed and observed edges are declared |
| ScipContract.ReferenceIsDeclared | mkso/scip.py:1142-1196 | in an admitted contract every reference inside a subject is attributed to the innermost one, and that edge is declared |
| ContractRules.ConformsExactly | mkso/scip.py:965-1207 | a contract is admitted exactly if its subjects, declarations, owners and edges follow the rules, said of the index's entries and occurrences: which flag or reference shows which kind of edge, between which subjects, and that shown and declared edges answer each other |
| Plan.ValidateManifest | mkso/manifest.py:237-308 | accepts exactly the valid plans; the test for cycles never fires |
| PlanRules.ValidPlanExactly | mkso/manifest.py:237-308 | a plan is valid exactly if themes contain epics, stories or tasks, epics stories or tasks, stories tasks, and ownership and bindings follow the rules, said of the items themselves |
| Plan.WalkUp | mkso/manifest.py:264-271 | the walk to the root meets no item twice and takes at most three steps |
| Plan.RootIsNear | mkso/manifest.py:252-271 | every item reaches a root in at most three parent steps |
| Evaluation.ItemSums | mkso/evaluation.py:209-241 | an item is failed or verified exactly as the obligations at or below it are |
| Evaluation.ProjectIsItsObligations | mkso/evaluation.py:243-267 | the project is verified exactly if every obligation of the plan is, and failed exactly if one is |
| Evaluation.NoFurtherReasons | mkso/evaluation.py:217-224 | in a valid plan neither extra reason against an item arises |
| Evaluation.BelowSplits | mkso/evaluation.py:211-216 | what lies at or below an item is its own or lies at or below a child |
| Evidence.CheckObligation | mkso/evaluation.py:157-207 | failed exactly if the newest fresh record of a required kind did not pass; verified exactly if bindings are current and each did |
| Evidence.BindingReasons | mkso/evaluation.py:132-155 | no reason arises exactly if inputs are present and every binding is resolved by the active admission and unchanged on disk |
| Evidence.FindLatest | mkso/evaluation.py:171-183 | finds the first record, newest first, that is fresh and of the kind |
| Evidence.SubtreeCovers | mkso/evaluation.py:84-109 | a subtree's payload holds exactly the payloads of the obligations at or below its root |
| Evidence.SubtreeHasNodes | mkso/evaluation.py:84-109 | a subtree's payload has a node, with its own fields, for exactly the items at or below its root |
| Evidence.DigestCommitsToSubtree | mkso/evaluation.py:111-130 | equal composition digests mean equal admissions and the same items, obligations, inputs, bindings and file hashes throughout the subtree |
| Freshness.BehaviorDigestCommits | mkso/evaluation.py:111-130 | equal behaviour digests mean, field by field, equal admissions, obligations, inputs with their file hashes and bindings with symbol, admission and file hash, and the other way round |
| Freshness.CompositionDigestCommits | mkso/evaluation.py:111-130 | in one plan a composition digest is unchanged exactly if the admission is and every obligation at or below the item stands on the same inputs and bindings |
| Freshness.CheckSubject | mkso/evaluation.py:111-207 | with the digest of the subject: failed or verified exactly as the newest record that holds says, in terms of records, files and bindings; after an input, bound file, binding or the admission changed, no earlier record counts and the answer is incomplete |
| SubjectText.SomeDigestIsInjective | mkso/evaluation.py:111-130 | some digest tells all subjects apart, so the assumption of the digest theorems can be met |
| PlanStore.StepKeepsValid | mkso/store.py:312-872 | every transaction keeps the invariant: references, the last valid plan stored whole, digests, and all bindings resolved by the active admission or none |
| PlanStore.RunKeepsValid | mkso/store.py:312-1006 | so it holds in every state that any sequence of transactions reaches |
| PlanStore.AdmittedExactlyWhenAuthorized | mkso/store.py:811-859 | an admission is refused only for a planned binding that is not exactly a contract subject; the definition query always finds one row |
| PlanStore.OneRowPerDefinition | mkso/store.py:826-842 | in a validated index the query joins each definition to one row |
| PlanStore.HistoryGrows | mkso/store.py:985-1006 | evidence, admissions and indexes are never lost or changed |
| PlanStore.RefusedLeaveNoTrace | mkso/store.py:294-305 | any run ends in the state that its committed transactions alone produce, and each of these still commits when the refused ones are left out |
| StoreHistory.RunIsTold | mkso/store.py:294-1006 | after any run plan, bindings, resolutions, indexes and admissions are those of the committed transactions, and the evidence is the accepted records in order |
| StoreHistory.CommitsExactly | mkso/store.py:294-1006 | after any run the next transaction commits exactly if the committed ones before it allow it |
| PlanDatabase.DepthPutsParentsFirst | mkso/store.py:327-350 | in the order of depth every parent precedes its children |
| PlanDatabase.SortedByDepth | mkso/store.py:341 | the sorted items are the same, without repetition, in order of depth |
| PlanDatabase.InsertItems | mkso/store.py:341-353 | the inserts succeed exactly if no key repeats and every parent comes first, and give the plan's rows |
| PlanDatabase.ReplaceRows | mkso/store.py:339-401 | for a valid plan no insert is refused and the rows are exactly the plan's |
| PlanDatabase.CascadeEmpties | mkso/store.py:340 | deleting the work items deletes the whole previous plan |
| PlanDatabase.ResolveBindings | mkso/store.py:807-859 | the loop resolves all bindings exactly if each is authorized and found once |
| PlanDatabase.Store.ApplyPlan | mkso/manifest.py:311-326 | applies a valid plan whole and leaves everything as it was otherwise |
| PlanDatabase.Store.AdmitScipIndex | mkso/store.py:609-864 | commits all rows and resolutions, or rolls everything back |
| PlanDatabase.Store.RecordOutcome | mkso/store.py:985-1006 | appends a record with a new identifier and refuses any other |
| SlotSplice.ParseMeans | bootstrap/baseline/broker.py:234-236 | a file splits into a slot exactly if it is that slot written out and none of its parts holds a marker |
| SlotSplice.SpliceParsesBack | bootstrap/baseline/broker.py:579-591 | the spliced file has one of each marker and splits back into prefix, new body and suffix, if and only if the body holds no marker |
| SlotSplice.SpliceUndoes | bootstrap/baseline/broker.py:587 | putting the old body back restores the file byte for byte |
| SlotSplice.MarkerLinesShift | bootstrap/baseline/broker.py:241-242 | the begin line stays and the end line moves by the change in the body's newlines |
| SlotSplice.PrefixStays | bootstrap/baseline/broker.py:587 | every byte of the prefix keeps its place and line |
| SlotSplice.SuffixShifts | bootstrap/baseline/broker.py:587 | every byte of the suffix is kept and its line moves by the change in the body's newlines |
| SlotSplice.AcceptedBodySplices | bootstrap/baseline/broker.py:579-591 | a body that passes the submission's checks replaces the old body and nothing else |
| SlotSplice.Partition | bootstrap/baseline/broker.py:250-260 | the loop sorts the statements into those before, inside and after, or finds one that crosses |
| SlotSplice.Structure | bootstrap/baseline/broker.py:231-262 | accepts exactly the files with one slot inside the function, no statement across it and one inside it |
| SlotSplice.SurroundingsKeepSides | bootstrap/baseline/broker.py:250-263 | statements outside the slot stay on their side when the body is replaced |
| SlotSplice.MarkerSplits | bootstrap/baseline/broker.py:29-30 | another marker lies wholly before or wholly after a marker line |
| SlotRules.ParsesExactly | bootstrap/baseline/broker.py:234-236 | a file has its slot exactly if it is three marker-free parts with one of each marker line between them |
| SlotRules.StructuredExactly | bootstrap/baseline/broker.py:231-262 | a file is accepted exactly if the function starts above the slot, no statement reaches across a marker and one lies inside, in terms of newline positions |
| SlotRules.KeptStatements | bootstrap/baseline/broker.py:250-262 | the statements kept around the slot are those that end above or begin below it, in order |
| SlotRules.BodyOkExactly | bootstrap/baseline/broker.py:579-585 | a body is accepted exactly if it is not empty nor too long, ends a line, holds no marker, and at each place where a line begins there are four spaces or only blanks to its end |
| SlotRules.ControlledExactly | bootstrap/baseline/broker.py:231-236 | a file is refused for its bytes exactly if it holds a carriage return, form feed or null |
| CoverageJoin.ActiveProfiles | mkso/coverage.py:159-252 | the loops and the choice by channel compute the active profiles |
| CoverageJoin.ExpectedRequirements | mkso/coverage.py:311-402 | succeeds exactly if objectives share nothing and each is in order, and gathers all their active requirements |
| CoverageJoin.RunResults | mkso/coverage.py:561-588 | accepts exactly one result for each frozen pair and no other |
| CoverageJoin.JoinedEntries | mkso/coverage.py:677-703 | gives the entry of every frozen pair in sorted order, or fails if one has none |
| CoverageJoin.JoinCoverage | mkso/coverage.py:706-774 | joins exactly the acceptable records, with the identities of contract, suite, run and index |
| CoverageJoin.OneEntryPerPair | mkso/coverage.py:677-703 | each frozen pair has exactly one entry, bound to the current index and document hash |
| CoverageJoin.EntriesAreUnique | mkso/coverage.py:687 | the entries are determined by the records |
| CoverageJoin.JoinIsUnordered | mkso/coverage.py:311-588 | reordering objectives or results changes neither acceptance nor entries |
| CoverageJoin.DigestCommits | mkso/coverage.py:753-762 | the join's digest fixes every field but the suite assignment's hash |
| CoverageJoin.DigestOmitsAssignment | mkso/coverage.py:706-774 | accepted records stay accepted with any other assignment hash, and the two joins have one payload, so one digest, and differ in exactly that field |
| CoverageJoin.SomeDigestIsInjective | mkso/coverage.py:753-762 | some digest tells all payloads apart, so the assumption of the digest theorem can be met |
| CoverageRules.AcceptableExactly | mkso/coverage.py:159-774 | records are joined exactly if channel, objectives, identities, suite, results and measurements follow the rules, said of the records: each channel with its own lane, run exactly the frozen pairs |
| CoverageRules.EntriesSayWhatMeets | mkso/coverage.py:677-703 | wherever a frozen requirement, a target, a binding and a result meet, exactly one entry says that |
| CoverageRules.EntriesMeet | mkso/coverage.py:677-703 | every entry is about such a meeting and says what meets |
| CoverageRules.EntriesAreSorted | mkso/coverage.py:687 | entries ascend by requirement and then subject |
| AdmissionDiff.EmptyMeansAgreement | mkso/scip_compare.py:30-45 | the difference is empty exactly if the snapshots agree up to row order, ordinals, index size and identity hashes, absent counting as null |
| AdmissionDiff.DiffIsMetric | mkso/scip_compare.py:99-129 | the difference is symmetric, and what changed over two steps changed in one of them |
| AdmissionDiff.KeysMean | mkso/scip_compare.py:61-78 | keyed maps are equal exactly if the rows are, up to order |
| AdmissionDiff.GroupsMean | mkso/scip_compare.py:81-96 | groups are equal exactly if the rows are, with repetitions, up to order |
| Sequences.SortedIsMultiset | mkso/scip_compare.py:96 | sorting forgets exactly the order |
| AdmissionDiff.SomeTextIsCanonical | mkso/scip_compare.py:75-96 | some text tells all rows apart, so the assumption of the comparison theorems can be met |
| JsonText.CodeIsInjective | mkso/scip_compare.py:75-96 | a prefix-free text of JSON values determines the value |
| AdmissionDiff.KeyedRows | mkso/scip_compare.py:61-78 | succeeds exactly if every row has its own non-empty key, and files each row's text under it |
| AdmissionDiff.GroupedRows | mkso/scip_compare.py:81-96 | succeeds exactly if every row has a key, and groups the sorted texts |
| AdmissionDiff.InputManifest | mkso/scip_compare.py:105-121 | reads exactly the lists of path and digest pairs with distinct paths |
| AdmissionDiff.CompareAdmissions | mkso/scip_compare.py:132-277 | compares exactly the well-formed snapshots found under their own hashes; the result is empty exactly if they agree |
| DiffContents.DiffListsChanges | mkso/scip_compare.py:30-277 | each changed set lists exactly the identities whose rows differ, as multisets of what is compared, and each field list exactly the fields that differ and are not excluded, absent read as null |
| DiffContents.WellFormedIs | mkso/scip_compare.py:48-121 | a snapshot is comparable exactly if its manifest is listed, its keyed rows are unique and every row has an identity |
| DiffContents.Compare | mkso/scip_compare.py:132-277 | two snapshots are compared exactly if each is readable and was found under its own hash, and the result lists exactly what differs; it is empty exactly if every part of it is |

## Left out

- Impact.PlainImpactIsLeast: its condition is exact on separate graphs (`ImpactGuard.FullClosureExactly`) and sufficient on all others, where it is not necessary: subject edges, shared subjects or children may complete an item that is not plain.
- ScipContract.VerifySubjects: says when a contract is admitted, not which errors a rejected one lists, and stops before comparing edges when an earlier check failed.
- ScipIndex.ValidateIndex: takes path form, language, encoding, readable source and range bounds of a document as given facts, leaves out the metadata checks (producer, project root, text encoding), and counts errors instead of wording them.
- CoverageJoin.JoinCoverage: starts from records whose texts, digests and lists have passed their shape checks, and from a current admission.
- PlanDatabase.Store.AdmitScipIndex: starts once the index and contract are read; the attestation and input-manifest checks before the transaction are not modelled.
- SlotSplice.Structure: takes the parser's one function and its statement lines as given; that the replacement parses to the same surrounding syntax is the parser's business.
- Evidence.BindingReasons: takes the number of reasons for which the active admission is stale as given.
- QualificationBlobs.ClientRetention: leaves out the profile, raw-output, cleanup and build-request documents inside the blobs.
- QualificationDatabase.Database.RetainToolchainPrivateRun: the five parallel blob arrays are one list of rows; null arguments, array dimensions and bounds are not modelled.
- AdmissionDiff.CompareAdmissions: Python's equality of integers, floats and booleans is not modelled; a changed set is a set, not a sorted tuple.
- DraftSession.TwoPartiesRefineOne: is about runs in which no size, secret, identity, deployment or deadline check trips, the session has the runtime the operator insists on, and the task is not blank.
- DraftBridge.Run: `_provider` and `observed_provider` differ in limits on output tokens; both are the one provider oracle here.
- ModelCheck.Prove: takes a model as the loader leaves it, and its digest as a given text.
- Wording of errors, and the order in which several faults of one input are reported, beyond the order of the branches modelled.
- Roles, grants, row policies and regex constraints of the database; each SQL function is one atomic step, and gaps in identity sequences after a rollback are not modelled.
- Seed selection, the contract graph's own construction and the policy comparison in `mkso/impact.py`: field by field equality.
- Files, symbolic links, subprocesses, containers, the network, credentials, deadlines and the runtime guard.
- Hash functions, canonical JSON, base64, `ast`, protobuf decoding and `protoc`.
- `mkso/structural_completion.py`, `mkso/authorized_diff.py`, `mkso/container_image.py`, `mkso/docker_profile.py`, `mkso/mounted_inputs.py`, `mkso/toolchain_qualification.py` and the indexer invocation files: they check the shapes of single documents and keep no state.
- The command line, exports, stubs, orchestration and deployment files.
