# Sentinel: a verified model

Sentinel investigates an indicator (a domain, an address, a URL, a file hash): collectors query
sources, what they return is merged into one investigation, and a correlation pass explains how
the pieces of evidence connect. This project models five parts of it in Dafny and proves what
they promise.

- **The investigation engine** (`EngineSpec`, `Engine`, and the proofs in `EngineInvariants`,
  `EngineSteps`, `EngineTheorems`, `EngineReport`, `EngineRecords`, `EngineStatuses`,
  `EngineHistory`, `EngineOrder`, `EngineFindings`, `EngineTrails`, `EngineConfluence` and `EngineForks`, with concrete runs in
  `EngineWitnesses`). Collector tasks finish, fail, crash or time out in any order, a completed task can start many more, and
  the deadline may strike at any join. `EngineSpec` says what each join does to the state;
  the class `Engine.Run` does it step by step with the fields of the original; the theorems are
  about every sequence of join events. The shared request budget is the state machine of
  `Budget`: any number of threads, one load or swap at a time.
- **The investigation aggregate** (`Model`, `Investigation`): a store that merges identical
  edges and accepts only evidence it holds. It refines a map from edges to sets of evidence.
- **The correlation pass** (`Index`, `IndexFacts`, `CorrelationIds`, `Display`, `Drafts`,
  `Emissions`, the rules `Infrastructure`, `CertificateRules`, `Providers`, `Shared`, then
  `Correlate`; `ReportFacts`, `DraftFacts` and `ReportNotes` are about its report, `AddressFacts`,
  `AddressConflicts`, `ConflictFacts`, `CertificateFacts`, `ClaimFacts` and `GroupFacts` about what it says kind by
  kind, `EvidenceOrder` and `EvidenceWitness` about the order of evidence, and `Pipeline` joins it
  to the engine). The index is shown to be a canonical form of the evidence;
  the rules are functions of the index; every draft they emit is shown to be buildable.
- **Certificates and prefixes** (`CtNames`, `CtCertificates`, `CtFacts`, `CtRelationships`, `Net`,
  `Bootstrap`): grouping log entries into certificates through a growing vector and a hash index,
  and CIDR arithmetic on 32- and 128-bit addresses with the longest-prefix lookup of section 5.1
  of RFC 9224.
- **The greedy word wrappers of the report** (`Wrapping`), with the proof that no other layout
  is shorter.

`Ordering` holds the sort keys, the library sort and `dedup`, and the iteration order of sets;
`Numerals` the decimal and hexadecimal texts of numbers; `Places` growing positions.
Code that updates variables step by step is modelled as methods and classes, each equal to a
specification function; the properties are lemmas about those functions.

## Main results

- The engine's loop ends after at most `(1 + max_entities) * collectors` joins under every order
  of joins (`LoopTerminates`). Every started run has exactly one status, the one its ending event
  calls for (`RunsReportedAsTheyEnded`), and every source at least one (`EverySourceReported`).
- A finished investigation holds exactly what was handed over: all observations, each edge with
  exactly the evidence given for it that was held by then, and the findings that cite what was
  held by then (`HoldsWhatWasGiven`, resting on `MergeRecords`).
- When the order of completions decides what is visited is known exactly, given a place for
  everything: suppose that all that a chain of findings leads to within `max_depth` fits
  `max_entities`, and that no collector finds more than 1000 candidates at once. Then two whole
  runs with the same findings can differ exactly when some indicator is found both within
  `max_depth` and beyond it (`OrderMattersExactly`). If none is, every order gives the same
  visits, runs and rejections, and these can be told from the collectors and what they find
  (`Confluence`, `VisitedExactly`, `RejectedExactly`). If one is, some run visits it and another
  rejects it (`OrderDecides`).
- Over all collectors and findings the order can decide exactly when neither pivot limit is zero
  (`OrderNeverMatters`, `OrderMattersOtherwise`). A closed set that fits both limits is enough for
  the order not to matter (`ClosedPlaces`, `ClosedIsNear`, `VisitedIsLeastClosed`); one that fits
  the number of pivots alone is not (`DepthMattersToo`).
- `max_depth` limits the true path length exactly when it is below 255 or at most 255 pivots may
  be followed; otherwise the saturating depth label lets a run follow a pivot 256 hops away
  (`DepthLimitSufficient`, `DepthLimitNecessary`).
- Correlating does not depend on insertion order (`OrderForgotten`). Nor does it depend on the
  order of evidence inside an edge, but for the order in which links list their evidence and the
  reporters that a routing conflict cites (`OrderOfEvidenceForgotten`); these do change
  (`ReportersDiffer`).
- Correlating never has a candidate rejected (`NoCandidateRejected`) and states nothing the
  investigation does not hold (`NoNewFacts`). Its identifiers are pairwise distinct if the hash
  does not collide and the entities are displayed without the separator byte and differently
  within a type (`ReportedIdsApart`, resting on `EncodingInjective`); the display form of the
  original is so on everything its constructors make (`ShownReadable`, `ShownIdsApart`).
- The report has exactly the correlations built from the drafts of the rules, and each says what
  its draft says (`EveryDraftReported`, `DraftCarried`). So for every kind it is known from the
  recorded data alone which correlations there are and what they list: about addresses with
  their conflicts and gaps (`AddressReportedExactly`), certificates of a domain (`DomainReportedExactly`), their
  names in DNS data (`NamesReportedExactly`), claims of several providers
  (`SourcesReportedExactly`), disagreements (`DisputeReportedExactly`) and shared elements
  (`GroupReportedExactly`, `CertificateReportedExactly`).
- The report states a disagreement between providers exactly when two observations oppose each
  other (`DisagreementReportedExactly`), and each kind of conflict about the routing and the
  registration of an address exactly when the recorded data say so (`PrefixMissReportedExactly`,
  `RangeMissReportedExactly`, `ApartReportedExactly`, `OriginsReportedExactly`,
  `NetworksReportedExactly`).
- Capping names per entry and again per merge gives the first hundred distinct names of the
  whole group (`CapAndMerge`); what every certificate says is known from the entries
  (`CertificatesBuilt`), and which edges lead from certificates (`FirstRelated`); no log entry is lost or counted twice (`EntriesConserved`); and it
  is said exactly when names are reported as dropped (`CountExactly`).

## Where the code and its documentation differ

- `record_unsupported` is documented as covering sources that never saw an indicator they
  support. That can be read as being about all followed indicators; in the code a source that
  runs on targets only is not offered a pivot, so it never sees one. Such a source is reported as
  unsupported also when it supports a followed pivot: `UnsupportedThoughSupporting` is such a run,
  and `UnsupportedExactly` states the condition.
- `pivots_dropped` is documented as the number of distinct candidates that were not followed. The
  candidates beyond the first thousand of a collection are counted without a look at them, also
  when they repeat each other or something visited. `FiguresExactly` says when the count is the
  documented one; in `CountedThoughFollowed` it is not.
- `names_dropped` feeds the count of names beyond the limit, but in the merge branch a name met
  after the limit counts even when it is already listed. `CountExactly` says when the count is
  zero; in `DropReportedNothingLost` it is positive although no name was lost.
- The summary of a disagreement says that both sides are kept with their evidence
  (crates/correlation/src/rules/providers.rs:149-152). A claim that flags is left out when every
  provider that denies also flags, in another observation, and its own provider does not waver:
  `FlagLeftOut` has such claims, and `OpposedListed` states the condition.
- The pivot depth is documented as counted from the target (docs/ARCHITECTURE.md:268-276); beyond
  255 hops the label no longer is that count, see `DepthLimitNecessary`.
- What docs/ARCHITECTURE.md:268-276 lists is necessary for a pivot to be followed, but not
  sufficient: a pivot that was rejected before is skipped even if all of it holds now. In
  `DepthMattersToo` an indicator found on the target itself stays rejected to the end, with
  places free.

## Model

| member | source | states |
|---|---|---|
| Engine.Registry.Register | crates/collectors/src/engine/mod.rs:142-149 | a collector is refused exactly when its identifier is taken, and identifiers stay distinct |
| Engine.Run.SpawnTask | crates/collectors/src/engine/mod.rs:328-370 | starting a run tracks one fresh task with its depth and counts it; live tasks stay exactly the tracked ones |
| Engine.Run.OfferTo | crates/collectors/src/engine/mod.rs:300-325 | one collector and one indicator: skipped, one "unavailable" status per source, or one run |
| Engine.Run.ScheduleFor | crates/collectors/src/engine/mod.rs:299-326 | the indicator is offered to every collector in registration order |
| Engine.Run.FollowPivot | crates/collectors/src/engine/mod.rs:504-528 | a pivot already decided is skipped; otherwise it is rejected by depth, number or scope, or visited and scheduled |
| Engine.Run.FollowPivots | crates/collectors/src/engine/mod.rs:493-529 | only the first 1000 candidates of a collection are examined, the rest are counted |
| Engine.Run.Merge | crates/collectors/src/engine/mod.rs:468-490 | the loops compute the merge that `MergeRecords` describes |
| EngineRecords.MergeRecords | crates/collectors/src/engine/mod.rs:468-490 | observations are appended; each edge gains exactly the evidence of those merged relationships that cite only what is then held; exactly the findings that do so are appended, in order; nothing else changes |
| EngineRecords.HoldsWhatWasGiven | crates/collectors/src/engine/mod.rs:372-490 | the finished investigation holds the observations of all collections in the order of joins, an edge exactly when evidence held by then was given for it and with exactly that evidence, and exactly the findings that cite what was held by then |
| Engine.Run.CompleteTask | crates/collectors/src/engine/mod.rs:372-418 | a joined task is untracked, merged, its pivots considered, and its outcome recorded last |
| Engine.Run.CrashTask | crates/collectors/src/engine/mod.rs:421-437 | a crashed run is recorded as failed and nothing else changes |
| Engine.Run.CancelRemaining | crates/collectors/src/engine/mod.rs:440-463 | the deadline records every unfinished run as timed out, in some order, and leaves none pending |
| Engine.Run.RecordUnsupportedSources | crates/collectors/src/engine/mod.rs:283-296 | one status for each source never considered |
| Engine.Run.JoinNext | crates/collectors/src/engine/mod.rs:248-256 | one join performs one enabled event of the state machine |
| Engine.Run.CloseRun | crates/collectors/src/engine/mod.rs:259-278 | after the loop the sources are accounted for, the figures taken and the end recorded |
| Engine.Run.Execute | crates/collectors/src/engine/mod.rs:240-279 | a whole run terminates, leaves no task live or pending, and returns the report of the events that happened |
| EngineSteps.StepProgress | crates/collectors/src/engine/mod.rs:248-256 | every join event keeps all invariants, lowers the termination measure and forgets no run |
| EngineTheorems.LoopTerminates | crates/collectors/src/engine/mod.rs:247-257 | every run has at most one join per collector and visitable indicator, with or without the deadline |
| EngineTheorems.WorkIsBounded | crates/collectors/src/engine/mod.rs:299-370 | source runs are at most collectors times one plus max_entities; rejections at most 1000 per source run |
| EngineTheorems.PivotsWithinLimits | crates/collectors/src/engine/mod.rs:493-529 | the target is visited and never dropped, nothing is both, all visited may be investigated, and the pivot count is exact and within its limit |
| EngineTheorems.NoRunTwice | crates/collectors/src/engine/mod.rs:299-326 | no collector is started twice on one indicator, and each start has a collector that takes it |
| EngineTheorems.DepthIsSaturatedHops | crates/collectors/src/engine/mod.rs:493-510 | the depth label is the true path length saturated at 255 and within max_depth |
| EngineTheorems.DepthLimitSufficient | crates/collectors/src/engine/mod.rs:494-511 | below depth limit 255, or with at most 255 pivots, every run is within max_depth hops of the target |
| EngineTheorems.DepthLimitNecessary | crates/collectors/src/engine/mod.rs:494-511 | for all other limits there is a run that follows a pivot further away than max_depth |
| EngineHistory.RunsReportedAsTheyEnded | crates/collectors/src/engine/mod.rs:372-463 | each started run has exactly one status, with the outcome and times of the event that ended it, and no other run has one |
| EngineHistory.RecordedLast | crates/collectors/src/engine/mod.rs:372-437 | a run that ends by itself has its status recorded last, after what it found is merged and its pivots are considered |
| EngineReport.EverySourceReported | crates/collectors/src/engine/mod.rs:281-296 | every registered source has at least one status |
| EngineReport.UnsupportedExactly | crates/collectors/src/engine/mod.rs:283-296 | "unsupported" exactly for the sources that take none of the visited indicators, once each and as their only status |
| EngineReport.UnavailableReportedOnce | crates/collectors/src/engine/mod.rs:307-322 | a source that is never available is never run and has exactly one status |
| EngineStatuses.OutcomeExactly | crates/collectors/src/engine/mod.rs:385-409 | each outcome tells how the run ended: a collection with or without failures and its number of observations, a used-up budget, an error, or the source's own timeout |
| EngineStatuses.StatusesExplained | crates/collectors/src/engine/mod.rs:281-322 | an unavailable status stands for a visited indicator its collector takes and an answer that it was not ready, at the next reading of the clock; a run cut by the deadline lasted from its queueing; sources never considered follow in order of registration, about the target; the end is the last reading, but not before the start |
| EngineReport.ObservationsConserved | crates/collectors/src/engine/mod.rs:372-418 | the observations held are as many as the succeeded and partial statuses report, and all evidence resolves |
| EngineHistory.RejectedAreExamined | crates/collectors/src/engine/mod.rs:504-528 | the rejected candidates are exactly the examined ones that were not followed |
| EngineHistory.FiguresExactly | crates/collectors/src/engine/mod.rs:93-106 | runs, followed pivots and the deadline flag are exact; the number of candidates not followed is never too small, and right exactly when no candidate beyond the examined ones is counted twice |
| EngineWitnesses.CountedThoughFollowed | crates/collectors/src/engine/mod.rs:493-503 | for all limits there is a run whose count of candidates not followed is larger than their number |
| EngineWitnesses.UnsupportedThoughSupporting | crates/collectors/src/engine/mod.rs:281-296 | for all limits that allow a pivot there is a run that reports a source as unsupported though it supports a followed pivot |
| EngineOrder.RejectionStands | crates/collectors/src/engine/mod.rs:504-523 | a pivot rejected once is never visited later in the run, whoever offers it |
| EngineOrder.CompletionOrderMatters | crates/collectors/src/engine/mod.rs:509-528 | in any state with one place left and two runs offering new pivots, the run joined first decides which pivot is visited and which is rejected |
| EngineOrder.DepthOrderMatters | crates/collectors/src/engine/mod.rs:504-528 | in any state with places left, a pivot offered by a run at the depth limit and by a nearer one is visited or rejected for good by which is joined first |
| EngineWitnesses.OrderNeverMatters | crates/collectors/src/engine/mod.rs:507-528 | with either pivot limit zero every run visits the target alone and starts the same collector runs |
| EngineWitnesses.OrderMattersOtherwise | crates/collectors/src/engine/mod.rs:507-528 | for all other limits two whole runs with the same findings visit different indicators |
| EngineWitnesses.DepthMattersToo | crates/collectors/src/engine/mod.rs:504-523 | for depth limits 1 to 254 and more pivots than that, two whole runs with the same findings differ though all findings fit the number of pivots, and in one a pivot found on the target stays rejected |
| EngineTrails.ReachedExplained | crates/collectors/src/engine/mod.rs:493-529 | with a place for everything each visited indicator has, at every point of every run, a chain of finished runs from the target as long as its depth label |
| EngineConfluence.RejectedForCause | crates/collectors/src/engine/mod.rs:504-523 | then every run rejects only what may not be investigated or is found beyond the depth limit |
| EngineConfluence.VisitedExactly | crates/collectors/src/engine/mod.rs:493-529 | then, if nothing is found both within the depth limit and beyond it, a whole run visits exactly what a chain of findings within the limit leads to |
| EngineConfluence.VisitedIsLeastClosed | crates/collectors/src/engine/mod.rs:493-529 | then, if nothing is found beyond the depth limit, the visited indicators are the least set with the target and all that is found on its members and may be investigated |
| EngineConfluence.RejectedExactly | crates/collectors/src/engine/mod.rs:504-523 | then, if nothing is found on both sides, rejected is exactly what a run found and may not be investigated or is found beyond the limit |
| EngineConfluence.Confluence | crates/collectors/src/engine/mod.rs:240-257 | then, if nothing is found on both sides, two runs with the same findings visit the same indicators, reject the same candidates and start the same collector runs, in whatever order tasks complete |
| EngineTrails.ClosedPlaces | crates/collectors/src/engine/mod.rs:504-528 | a closed set of indicators that fits the number of pivots has a place for everything |
| EngineTrails.ClosedIsNear | crates/collectors/src/engine/mod.rs:504-511 | if it also fits the depth limit, nothing is found beyond that limit |
| EngineForks.OrderDecides | crates/collectors/src/engine/mod.rs:504-528 | with a place for everything, what is found both within the depth limit and beyond it is visited by one whole run and rejected by another |
| EngineForks.OrderMattersExactly | crates/collectors/src/engine/mod.rs:240-257 | with a place for everything two whole runs with the same findings can visit different indicators exactly when something is found both within the depth limit and beyond it |
| Budget.RequestBudget.CompareExchange | crates/collectors/src/collector.rs:249-255 | it swaps exactly when the expected value is there and reports what it found: the swap step of the state machine |
| Budget.RequestBudget.TryAcquire | crates/collectors/src/collector.rs:249-255 | alone, one attempt takes one request unless the budget is used up, as the state machine does in two steps |
| Budget.RequestBudget.AcquireRequest | crates/collectors/src/collector.rs:212-220 | a refusal carries the limit and changes nothing |
| Budget.EveryInterleaving | crates/collectors/src/collector.rs:240-264 | under every interleaving granted requests equal `used` and never exceed the limit |
| Budget.GrantsAreExact | crates/collectors/src/collector.rs:248-255 | of the attempts completed in any interleaving exactly the limit is granted, or all of them if they are fewer |
| Budget.RefusedOnlyWhenExhausted | crates/collectors/src/collector.rs:248-255 | a thread gives up only while `used` equals the limit |
| Budget.FailedSwapMeansProgress | crates/collectors/src/collector.rs:249-255 | a swap that does not fail spuriously is refused exactly when another thread's swap was granted a request since the value was seen |
| Investigation.NewRelationship | crates/core/src/relationship.rs:95-125 | refused exactly for unsuitable entity types or without evidence; otherwise the evidence is kept once each |
| Investigation.MergedMeaning | crates/core/src/relationship.rs:158-164 | merging keeps the old evidence as a prefix, adds exactly the new identifiers and no duplicate |
| Investigation.FindObservationMeaning | crates/core/src/investigation.rs:366-368 | looking up an identifier finds the first observation with it, or nothing when none has it |
| Investigation.NewInvestigation | crates/core/src/investigation.rs:245-258 | an investigation of a target is created exactly when it may be investigated, and starts empty |
| Investigation.Aggregate.AddObservation | crates/core/src/investigation.rs:261-265 | the observation is appended and its identifier returned |
| Investigation.Aggregate.Observation | crates/core/src/investigation.rs:366-368 | the scan returns the first observation with the identifier |
| Investigation.Aggregate.EnsureKnown | crates/core/src/investigation.rs:315-320 | fails with the first cited identifier that is not held |
| Investigation.Aggregate.AddRelationship | crates/core/src/investigation.rs:273-285 | unknown evidence is refused without a change; otherwise the edge is merged into or appended |
| Investigation.Aggregate.AddFinding | crates/core/src/investigation.rs:292-296 | unknown evidence is refused without a change; otherwise the finding is appended |
| Investigation.Aggregate.Finish | crates/core/src/investigation.rs:307-313 | an end before the start is refused |
| Investigation.AddObservationSound | crates/core/src/investigation.rs:261-265 | adding an observation keeps every invariant of the aggregate |
| Investigation.AddRelationshipSound | crates/core/src/investigation.rs:273-285 | an insertion is accepted exactly when all its evidence is known, and keeps every invariant of the aggregate |
| Investigation.AddFindingSound | crates/core/src/investigation.rs:292-296 | a finding is accepted exactly when all its evidence is known, and keeps every invariant |
| Investigation.InsertedRefines | crates/core/src/investigation.rs:273-285 | an accepted insertion adds its evidence to its edge in the map from edges to evidence, and touches no other edge |
| Investigation.InsertAllRefines | crates/core/src/investigation.rs:273-285 | a series of insertions stores each edge once with the union of all evidence given for it |
| Investigation.InsertionOrderForgotten | crates/core/src/investigation.rs:273-285 | the same insertions in any order give the same edges with the same evidence sets |
| Model.StatusKeeps | crates/core/src/investigation.rs:163-177 | a status keeps what it is given, but for the first twenty of many error texts and an end clamped to the start |
| Index.NewIndex | crates/correlation/src/index.rs:29-85 | the indexing loops compute the index of the investigation |
| Index.IndexObservations | crates/correlation/src/index.rs:30-47 | the first observation with an identifier is indexed, reuses are counted, and each indicator's list is sorted |
| Index.IndexRelationships | crates/correlation/src/index.rs:55-69 | positions by kind and end, and the set of ends, of the canonical list |
| IndexFacts.IndexIsCanonical | crates/correlation/src/index.rs:29-85 | investigations with the same evidence in any order have equal indexes |
| IndexFacts.LookupsAreScans | crates/correlation/src/index.rs:121-142 | `from` and `to` return exactly the matching relationships, in canonical order |
| IndexFacts.OfKindMembers | crates/correlation/src/index.rs:113-119 | `of_kind` returns exactly the relationships of the kind |
| IndexFacts.CanonicalList | crates/correlation/src/index.rs:49-54 | the indexed relationships are the stored ones, each edge once, in the order of their keys |
| IndexFacts.ObservationLookup | crates/correlation/src/index.rs:93-103 | the index finds the observation the investigation finds, and indexed plus reused identifiers make up all observations |
| IndexFacts.KnownEntities | crates/correlation/src/index.rs:105-111 | known are exactly relationship ends, subjects of indexed observations and the target |
| IndexFacts.EverySubjectKnown | crates/correlation/src/index.rs:105-111 | the subject of every observation is known, also of one not indexed, because observations with one identifier have one subject |
| IndexFacts.IndexIsGrounded | crates/correlation/src/index.rs:29-85 | everything in the index of a sound investigation can be cited |
| CorrelationIds.DeriveId | crates/correlation/src/model.rs:28-45 | the hasher is fed the encoding of kind, subjects and evidence |
| CorrelationIds.EncodingInjective | crates/correlation/src/model.rs:28-45 | the encoding determines kind, subjects and evidence when these subjects are displayed without the separator byte and differently within a type |
| Display.IpTextInjective | crates/core/src/net.rs:285-289 | different addresses have different texts, also across families |
| Display.ShownReadable | crates/core/src/entity.rs:214-223 | the display form has no separator byte and tells entities of one type apart, on all entities the constructors accept |
| Drafts.Build | crates/correlation/src/model.rs:407-502 | validating and completing a draft gives the specified correlation or error |
| Drafts.BuiltExactly | crates/correlation/src/model.rs:407-445 | a draft is built exactly when it cites something, every conflict does, and all it mentions is in the investigation |
| Drafts.RefusalReason | crates/correlation/src/model.rs:400-445 | which error: missing evidence, else the least unknown identifier, else an unknown subject |
| Drafts.BuiltEvidence | crates/correlation/src/model.rs:415-442 | the evidence is the ascending duplicate-free union of all citations, and the subjects are the draft's, ascending |
| Drafts.BuiltBounds | crates/correlation/src/model.rs:447-456 | the window and the confidence are the exact bounds over the evidence |
| Drafts.BuiltLinks | crates/correlation/src/model.rs:458-462 | the links are the draft's, each edge once, in canonical order |
| ReportNotes.LinksInOrder | crates/correlation/src/model.rs:458-461 | that order is by kind, then by source, then by target |
| Drafts.BuiltClaims | crates/correlation/src/model.rs:463-471 | claims copied from observations are listed once each, by provider, time and identifier |
| ReportNotes.ClaimsInOrder | crates/correlation/src/model.rs:463-471 | that order is by provider, then by time, then by observation |
| Drafts.BuiltSupporting | crates/correlation/src/model.rs:472-474 | supporting records ascend without duplicates and none is lost |
| Drafts.BuiltGaps | crates/correlation/src/model.rs:485-502 | an accepted draft keeps its gaps, all of them and in order |
| Drafts.BuiltConflicts | crates/correlation/src/model.rs:475-479 | each conflict keeps its subject and its evidence, ascending without duplicates |
| Drafts.BuiltLimitations | crates/correlation/src/model.rs:480-484 | the caveat about different times is added exactly when the window is not one moment; no other caveat is added or lost |
| Drafts.BuiltCaveats | crates/correlation/src/model.rs:480-484 | caveats that stand once each keep their order, and the one about different times comes last |
| Drafts.FindingCites | crates/correlation/src/model.rs:297-306 | the finding cites exactly the evidence of its correlation, with its confidence |
| Drafts.ProvenanceComplete | crates/correlation/src/model.rs:311-317 | provenance has one step for each piece of known evidence, in order |
| Emissions.Emit.Push | crates/correlation/src/rules/mod.rs:42-47 | every pushed draft is either built or counted as rejected, in order |
| Emissions.DerivedBuilds | crates/correlation/src/rules/mod.rs:42-47 | a draft that only composes what the index holds is never refused |
| Emissions.NothingRejected | crates/correlation/src/rules/mod.rs:42-48 | when all drafts are such, nothing is rejected and there is one correlation a draft, in order |
| Infrastructure.SupportedTargets | crates/correlation/src/rules/infrastructure.rs:90-98 | the targets each cited observation supports |
| Infrastructure.WithContext | crates/correlation/src/rules/infrastructure.rs:27-83 | the draft for an address with routing or registration context |
| Infrastructure.Correlate | crates/correlation/src/rules/infrastructure.rs:17-87 | one draft for each resolution whose address has context |
| Infrastructure.DisagreementExactly | crates/correlation/src/rules/infrastructure.rs:100-117 | a disagreement is recorded exactly when two observations name different sets of targets, and cites all of them |
| Infrastructure.NamesSeveralExactly | crates/correlation/src/rules/infrastructure.rs:39-43 | the multiple-origin caveat is due exactly when one observation supports two different targets |
| Infrastructure.FindContainment | crates/correlation/src/rules/infrastructure.rs:121-193 | the loops find the conflicts between reported prefixes, ranges and the address |
| Infrastructure.PrefixMissExactly | crates/correlation/src/rules/infrastructure.rs:134-153 | a prefix conflict exactly when a cited observation reports a prefix that does not contain the address |
| Infrastructure.RangeMissExactly | crates/correlation/src/rules/infrastructure.rs:154-168 | a range conflict exactly when a cited registration excludes the queried address |
| Infrastructure.RangeContainsExactly | crates/core/src/evidence/infra.rs:118-132 | an address lies in a registered range exactly when both ends are known, all three are of one family, and it is between them |
| Infrastructure.ApartExactly | crates/correlation/src/rules/infrastructure.rs:169-192 | a routing conflict exactly when a containing prefix overlaps none of the registered networks |
| Infrastructure.IsolatedExactly | crates/correlation/src/rules/infrastructure.rs:176-198 | that is, exactly when no address lies both in it and in a registered network |
| Infrastructure.EmittedDerived | crates/correlation/src/rules/infrastructure.rs:17-87 | no draft of the rule states a new fact |
| Providers.CollectStances | crates/correlation/src/rules/providers.rs:116-125 | the clear answers of each provider |
| Providers.Correlate | crates/correlation/src/rules/providers.rs:35-47 | the drafts of both rules, indicator by indicator |
| Providers.DisagreementExactly | crates/correlation/src/rules/providers.rs:74-147 | a disagreement is drafted exactly when one claim flags and another denies, or one provider both found nothing and has no record |
| Providers.AcrossExactly | crates/correlation/src/rules/providers.rs:76-114 | there is one conflict between providers exactly when a claim flags and another denies whose provider flags nothing; it cites exactly the observations of these claims and names exactly their providers, each on its side |
| Providers.ConflictsExactly | crates/correlation/src/rules/providers.rs:74-144 | every conflict is that one or of a single provider with two clear stances, which cites all claims of that provider and names its clear stances; none of these is missing |
| Providers.ConflictsInTurn | crates/correlation/src/rules/providers.rs:74-144 | the conflict between providers stands first, then those within one by provider |
| Providers.ListedInvolved | crates/correlation/src/rules/providers.rs:145-159 | listed are exactly the claims that flag while some provider only denies, that deny alone while some claim flags, or whose provider wavers |
| Providers.OpposedListed | crates/correlation/src/rules/providers.rs:145-159 | of two opposed claims the denial is always listed; the flag is listed exactly when some provider denies and flags nothing, or the provider of the flag itself wavers |
| Providers.FlagLeftOut | crates/correlation/src/rules/providers.rs:145-159 | three claims of which one is opposed by another provider and is still not listed |
| ClaimFacts.StanceExactly | crates/correlation/src/rules/providers.rs:203-250 | in terms of the counters, which data flag, deny, have no record, are unclear, or are no claim |
| ClaimFacts.ClaimCopies | crates/correlation/src/rules/providers.rs:180-197 | a claim has the source, the identifier and the time of its observation, and the stance its data tell; other data are no claim |
| ClaimFacts.SourcesReportedExactly | crates/correlation/src/rules/providers.rs:35-72 | without hash collisions the report of a sound investigation lists all claims on an indicator exactly when two of them are by different providers |
| ClaimFacts.DisputeReportedExactly | crates/correlation/src/rules/providers.rs:74-166 | it has a disagreement with exactly the claims and the conflicts that take part in it exactly when two indexed claims on the indicator are opposed |
| ReportFacts.ReportedExactly | crates/correlation/src/lib.rs:42-72 | without hash collisions the report of a sound investigation has a correlation of a kind about some subjects exactly when a rule drafts one |
| DraftFacts.EveryDraftReported | crates/correlation/src/lib.rs:42-72 | the reported correlations are exactly those built from the drafts of the rules: none is rejected, and dropping repeated identifiers loses none |
| DraftFacts.DraftCarried | crates/correlation/src/model.rs:407-502 | a reported correlation has the subjects, links, claims, records, conflicts, gaps and caveats of its draft, and no others but the caveat about different times |
| AddressFacts.AddressReportedExactly | crates/correlation/src/rules/infrastructure.rs:17-87 | the report has a correlation about a stored resolution exactly when its address has routing or registration context; its links are the resolution and all that context, its subjects their ends; a gap says that routing or registration is missing exactly when no edge tells it, with exactly the sources asked about the address that did not succeed; the caveat about several origins stands exactly when one observation names two; and its conflicts are those that `ConflictsAre` describes |
| AddressConflicts.ConflictsAre | crates/correlation/src/rules/infrastructure.rs:89-198 | the conflicts about an address: origins or networks differ exactly when two cited observations name different sets, with all the sets and all observations; one for each observation whose prefix misses the address and for each registration that excludes it, which it alone cites; and one for each observation whose prefix overlaps no registered network, with these networks and an observation for each |
| AddressConflicts.ConflictsInTurn | crates/correlation/src/rules/infrastructure.rs:48-80 | the conflicts of a draft stand in order: origins, networks, prefixes that miss, ranges that miss, prefixes apart, within these by the observation that raises them |
| AddressFacts.ReportedResolution | crates/correlation/src/rules/infrastructure.rs:17-87 | every reported correlation of this kind is about a stored resolution in that way |
| ReportFacts.DisagreementReportedExactly | crates/correlation/src/rules/providers.rs:35-147 | it states a disagreement about an indicator exactly when two of its indexed observations oppose each other |
| ConflictFacts.ConflictReportedExactly | crates/correlation/src/lib.rs:42-72 | without hash collisions the report of a sound investigation states a conflict about an address exactly when the draft of one of its resolutions does, though correlations with one identifier are merged |
| ConflictFacts.PrefixMissReportedExactly | crates/correlation/src/rules/infrastructure.rs:134-153 | it says that a prefix misses the address exactly when a domain resolves to the address and an observation cited for its routing reports that prefix, which does not contain it |
| ConflictFacts.RangeMissReportedExactly | crates/correlation/src/rules/infrastructure.rs:154-168 | it says that the registered range misses the address exactly when a domain resolves to it and a cited registration excludes what was queried |
| ConflictFacts.ApartReportedExactly | crates/correlation/src/rules/infrastructure.rs:169-198 | it says that a prefix lies apart from the registered networks exactly when a domain resolves to the address, a cited observation reports that prefix, it contains the address, and it shares no address with any registered network, of which there are some |
| ConflictFacts.OriginsReportedExactly | crates/correlation/src/rules/infrastructure.rs:100-117 | it says that origins differ exactly when a domain resolves to the address and one cited observation names a system that another does not |
| ConflictFacts.NetworksReportedExactly | crates/correlation/src/rules/infrastructure.rs:100-117 | the same for registered networks |
| Providers.SeveralExactly | crates/correlation/src/rules/providers.rs:41-44 | several sources are reported exactly when two claims are by different providers |
| Providers.DisagreementKeepsSides | crates/correlation/src/rules/providers.rs:148-166 | the draft lists exactly the claims its conflicts cite, and at least one |
| Providers.EmittedDerived | crates/correlation/src/rules/providers.rs:35-167 | no draft of the rules states a new fact |
| CertificateRules.DomainCertificates | crates/correlation/src/rules/certificates.rs:38-96 | the draft about certificates that list the domain |
| CertificateRules.DomainLinksListed | crates/correlation/src/rules/certificates.rs:40-69 | all certificate links are listed while they fit, else the first hundred by certificate and kind, with the total in the caveat |
| CertificateFacts.LinkOrderExactly | crates/correlation/src/rules/certificates.rs:55 | that order is by certificate, then by kind |
| CertificateRules.CollectDnsNames | crates/correlation/src/rules/certificates.rs:101-127 | the names in DNS data with the records they own |
| CertificateRules.CertificateNames | crates/correlation/src/rules/certificates.rs:129-209 | the draft about certificate names that DNS data also have |
| CertificateRules.ReportedExactly | crates/correlation/src/rules/certificates.rs:130-152 | a name is reported exactly when it is strictly below the target, listed by a certificate, and in DNS data |
| CertificateFacts.SubdomainExactly | crates/core/src/indicator/domain.rs:99-105 | a name is strictly below another exactly when labels and a dot stand before it |
| CertificateRules.NameLinksListed | crates/correlation/src/rules/certificates.rs:167-198 | listed are exactly the DNS links of the reported names and the first five certificate links of each |
| CertificateRules.CoverLinksSorted | crates/correlation/src/rules/certificates.rs:167-180 | certificate links of a name stand in key order, names before wildcards, so the first five are the least five |
| CertificateFacts.DomainReportedExactly | crates/correlation/src/rules/certificates.rs:30-96 | the report of the investigation of a domain has a correlation about the certificates that list it exactly when there are some: with all their links, or with a hundred that no other one stands before and a caveat with the total, the certificates as subjects, and the domain's address records |
| CertificateFacts.NamesReportedExactly | crates/correlation/src/rules/certificates.rs:98-209 | it has a correlation about names of certificates exactly when some name strictly below the domain is listed by a certificate and is in DNS data: with exactly these names, all their DNS links, the first five certificate links of each, their records, and how many names below the domain DNS data lack |
| CertificateFacts.ReportedDomain | crates/correlation/src/rules/certificates.rs:30-96 | there is no other correlation about certificates of a domain |
| CertificateFacts.ReportedNames | crates/correlation/src/rules/certificates.rs:98-209 | there is no other correlation about names of certificates |
| CertificateRules.EmittedDerived | crates/correlation/src/rules/certificates.rs:30-209 | no draft of the rules states a new fact |
| Shared.GroupLinks | crates/correlation/src/rules/shared.rs:27-30 | links grouped by their shared end, in order |
| Shared.Correlate | crates/correlation/src/rules/shared.rs:19-64 | the groups by target of three kinds, then the best certificates, and how many certificates there were if some were left out |
| Shared.GroupExactly | crates/correlation/src/rules/shared.rs:31-36 | an element is reported as shared exactly when two of its links lead to different members, with all its links |
| Shared.KeptListMost | crates/correlation/src/rules/shared.rs:53-58 | the certificates reported list at least as many names as any left out, and the bound is filled |
| GroupFacts.GroupReportedExactly | crates/correlation/src/rules/shared.rs:19-43 | for each of the three kinds (announced by, registered in, resolves to) the report has a correlation around an element, with exactly what leads to it by stored relationships of the kind and exactly these, exactly when two different entities do |
| GroupFacts.CertificateReportedExactly | crates/correlation/src/rules/shared.rs:44-64 | it has one around a certificate, with exactly the names it lists, exactly when it lists several and fewer than twenty others that do so rank before it |
| GroupFacts.OnlyGroupsReported | crates/correlation/src/rules/shared.rs:19-64 | it has no other correlation about shared elements |
| Shared.EmittedDerived | crates/correlation/src/rules/shared.rs:19-64 | no draft of the rule states a new fact |
| Correlate.Correlate | crates/correlation/src/lib.rs:42-72 | the pass computes the report of the investigation |
| Correlate.OrderForgotten | crates/correlation/src/lib.rs:42-72 | permuting observations with unique identifiers and relationships with unique edges leaves the report unchanged |
| EvidenceOrder.OrderOfEvidenceForgotten | crates/correlation/src/lib.rs:42-72 | so does permuting evidence inside edges, but for how links list their evidence and which reporters a routing conflict cites |
| EvidenceWitness.ReportersDiffer | crates/correlation/src/rules/infrastructure.rs:169-192 | two sound investigations that differ in that order alone and report routing conflicts with different reporters |
| Correlate.NoCandidateRejected | crates/correlation/src/lib.rs:59-64 | on every sound investigation no candidate is rejected and the report says so |
| ReportNotes.LimitationsExactly | crates/correlation/src/lib.rs:44-64 | the limitations are exactly the number of certificates with several names, if it is more than are reported, and the number of observations that reuse an identifier, if some do |
| ReportNotes.ReportInOrder | crates/correlation/src/lib.rs:47-52 | correlations stand by kind, then by subjects, then by identifier |
| Correlate.NoNewFacts | crates/correlation/src/lib.rs:42-72 | every correlation cites held evidence, existing relationships and known entities only |
| Correlate.FindingsMatch | crates/correlation/src/lib.rs:65-71 | findings match correlations one to one and in order, cite the same evidence, and the investigation would accept them |
| Correlate.IdentifiersApart | crates/correlation/src/lib.rs:47-52 | if the subjects are displayed readably and the hash does not collide, the sorted and deduplicated list has each identifier once and loses none |
| Correlate.DroppedIsRepeated | crates/correlation/src/lib.rs:52 | then what the dedup drops has the kind, subjects and evidence of something kept |
| Correlate.ReportedIdsApart | crates/correlation/src/lib.rs:42-72 | the reported identifiers are pairwise distinct if the known entities are displayed readably and the hash does not collide |
| Correlate.ShownIdsApart | crates/correlation/src/model.rs:28-45 | with the display form of the original, they are pairwise distinct if the hash does not collide |
| Pipeline.FinishedRunCorrelates | crates/correlation/src/lib.rs:42-72 | after any run of the engine, whatever collectors return, no candidate is rejected and the report says so |
| Pipeline.FinishedRunReports | crates/correlation/src/lib.rs:42-72 | every correlation of a finished run states only what the run recorded, and its finding would be accepted |
| CtNames.ClassifyNames | crates/collectors/src/sources/ct/mod.rs:282-302 | one pass keeps the first hundred distinct names, counts e-mails and counts the names refused |
| CtNames.UniteNames | crates/collectors/src/sources/ct/mod.rs:236-244 | the merge loop and its count of dropped names |
| CtNames.CapAndMerge | crates/collectors/src/sources/ct/mod.rs:232-246 | capping per entry and per merge gives the first hundred distinct names of everything together |
| CtNames.RefusedNothing | crates/collectors/src/sources/ct/mod.rs:291-300 | an entry reports no dropped name exactly when it has at most a hundred distinct ones |
| CtNames.MergeDropsNothing | crates/collectors/src/sources/ct/mod.rs:238-244 | a merge reports no drop exactly when the list was not full at its last name |
| CtNames.NoDropNothingLost | crates/collectors/src/sources/ct/mod.rs:238-244 | without a reported drop no name was lost |
| CtNames.FullListCountsEverything | crates/collectors/src/sources/ct/mod.rs:239-240 | merging into a full list counts every name, also those already listed |
| CtFacts.ClassifiedPlaces | crates/collectors/src/sources/ct/mod.rs:286-291 | the names of an entry are classified one by one and in order, but for those with an at sign |
| CtFacts.EmailsCounted | crates/collectors/src/sources/ct/mod.rs:287-290 | names with an at sign are counted, up to the largest 32-bit number |
| CtFacts.FirstPlaces | crates/collectors/src/sources/ct/mod.rs:286-301 | kept are exactly the names that come first with their text and have fewer than a hundred texts before them, in order |
| CtFacts.RefusedCounted | crates/collectors/src/sources/ct/mod.rs:292-300 | refused are exactly the names whose text is not among the first hundred, each as often as it is listed |
| CtNames.HonestExactly | crates/collectors/src/sources/ct/mod.rs:238-244 | a merge that loses nothing still reports drops exactly when the list is full before its last name |
| CtCertificates.KeyTextInjective | crates/collectors/src/sources/ct/mod.rs:227-231 | equal keys mean the same issuer and serial, or the same entry identifier, because serials are hexadecimal |
| Numerals.NumeralRoundTrip | crates/collectors/src/sources/ct/mod.rs:229 | the text of a number reads back as that number |
| CtCertificates.IndexFinds | crates/collectors/src/sources/ct/mod.rs:235-236 | the hash index finds the position of the certificate of an entry, exactly when there is one |
| CtCertificates.AbsorbEntry | crates/collectors/src/sources/ct/mod.rs:226-270 | one pass of the loop adds one entry to the grouping and keeps the index right |
| CtCertificates.BuildCertificates | crates/collectors/src/sources/ct/mod.rs:221-279 | the result is the kept part of the certificates of all groups, with exact drop counts |
| CtCertificates.EntriesConserved | crates/collectors/src/sources/ct/mod.rs:235-270 | before the cut the certificates account for every entry once |
| CtFacts.CertificatesBuilt | crates/collectors/src/sources/ct/mod.rs:221-271 | before the cut there is one certificate for each entry that no earlier one shares it with, in order; it has the first hundred distinct names of all its entries, their number, and everything else as its first entry has it, with the issues about refused and invalid names exactly when there are such |
| CtFacts.SameCertificateExactly | crates/collectors/src/sources/ct/mod.rs:227-231 | two entries are for one certificate exactly when issuer and serial number agree, or neither has both and their identifiers agree |
| CtFacts.DropsCounted | crates/collectors/src/sources/ct/mod.rs:232-246 | the reported number is that of the names refused in some entry or met when the list of its certificate is full |
| CtCertificates.GroupOfEntry | crates/collectors/src/sources/ct/mod.rs:235-270 | every entry is in exactly one group |
| CtCertificates.GroupsAreIdentities | crates/collectors/src/sources/ct/mod.rs:227-236 | two entries share a certificate exactly when they have the same key, and entries without a key stay alone |
| CtCertificates.KeptAreNewest | crates/collectors/src/sources/ct/mod.rs:272-277 | the list is the stable newest-first order, undated last, cut to two hundred |
| CtCertificates.NoDropsAllNames | crates/collectors/src/sources/ct/mod.rs:232-246 | when no name is reported as dropped every certificate lists all distinct names of its group |
| CtCertificates.CountExactly | crates/collectors/src/sources/ct/mod.rs:232-246 | no drop is reported exactly when every certificate lists all distinct names of its group and no entry met a list full before its last name |
| CtCertificates.DropReportedNothingLost | crates/collectors/src/sources/ct/mod.rs:238-244 | entries for which a drop is reported though every certificate lists all distinct names of its group |
| CtRelationships.AddRelationships | crates/collectors/src/sources/ct/mod.rs:306-341 | the loops relate the first five hundred of the names that certificates list, with the edges that `FirstRelated` describes, and count the others |
| CtRelationships.FirstRelated | crates/collectors/src/sources/ct/mod.rs:311-340 | the result has the first five hundred, by certificate and name, of the related names that certificates with an entry identifier list: an edge each from that certificate to that domain, by a wildcard exactly when the name is one, citing that observation; the others are counted |
| CtRelationships.RelatedExactly | crates/collectors/src/sources/ct/mod.rs:311-340 | when nothing is dropped an edge is related exactly when some certificate lists that name |
| CtRelationships.EdgesAreWellFormed | crates/collectors/src/sources/ct/mod.rs:319-337 | no edge is refused by the relationship constructor, and each cites its certificate's observation |
| Net.MaxShlValue | crates/core/src/net.rs:266-279 | a shifted all-ones word has exactly its highest bits set |
| Net.MaskRoundsDown | crates/core/src/net.rs:262-283 | masking rounds down to a multiple of the block size, for every length from none to the whole width |
| Net.NewPrefixAccepts | crates/core/src/net.rs:217-229 | accepted exactly for a length that fits and an aligned network; the length is checked first |
| Net.ContainsIsInterval | crates/core/src/net.rs:251-258 | containment is the interval test within one family |
| Net.NestedOrDisjoint | crates/core/src/net.rs:251-258 | two prefixes are nested or share no address |
| Net.OverlapsIsSharedAddress | crates/correlation/src/rules/infrastructure.rs:195-198 | the overlap test holds exactly when some address lies in both |
| Bootstrap.CollectUrls | crates/collectors/src/sources/rdap/bootstrap.rs:47-55 | the first eight acceptable URLs of a service |
| Bootstrap.Parse | crates/collectors/src/sources/rdap/bootstrap.rs:42-74 | all usable entries in document order, or an error when there is none |
| Bootstrap.ParsedIsWellFormed | crates/collectors/src/sources/rdap/bootstrap.rs:42-73 | only valid prefixes are stored, each with one to eight acceptable URLs |
| Bootstrap.ParsedExactly | crates/collectors/src/sources/rdap/bootstrap.rs:42-74 | the entries are exactly the prefixes, among the first 4096 of each of the first 2048 services, of those with a usable URL, in document order, each with the first eight usable URLs of its service |
| Bootstrap.LongestPrefixMatch | crates/collectors/src/sources/rdap/bootstrap.rs:77-83 | the answer is the first URL of an entry that covers the address inside every other one that does, ties go to the last of the registry, and there is none exactly when nothing covers the address |
| Wrapping.Wrap | crates/report/src/table.rs:740-758 | the loop writes the greedy layout, and nothing for blank text |
| Wrapping.Wrapped | crates/report/src/correlation.rs:161-188 | the loop writes the greedy layout after the label, and the label alone for blank text |
| Wrapping.WordsOfJoined | crates/report/src/table.rs:740-758 | joining words with blanks and splitting again gives the words |
| Wrapping.LineReadsBack | crates/report/src/table.rs:740-758 | an indented line reads back as its words |
| Wrapping.WordsSplit | crates/report/src/table.rs:743 | text before and after white space is split into words independently |
| Wrapping.DetailShows | crates/report/src/table.rs:740-758 | the lines of a detail text are indented, read back as its words in order, and each fits or has one word |
| Wrapping.LabelledShows | crates/report/src/correlation.rs:161-188 | a labelled text starts with its indented label, later lines are indented as far as a label reaches, and they read back as its words in order; each fits or has one word; for blank text the label stands alone |
| Wrapping.GreedyIsValid | crates/report/src/correlation.rs:161-188 | the word sequence is kept, no line is empty, and each fits or holds one word |
| Wrapping.GreedyIsShortest | crates/report/src/correlation.rs:161-188 | no valid layout has fewer lines |

## Left out

- HTTP, TLS, DNS, the tokio runtime, semaphores, timers and tracing: a task's end is an arbitrary event, and the deadline is an event that may occur at any join.
- JSON decoding, URL and domain-name parsing, date formatting and serialized output: parsed values are the inputs; DNS records carry their owner already parsed.
- SHA-256 and UUID generation: parameters; `NoCollision` says what is asked of the hash where it matters. The encoder takes any display of entities; `Display` models that of the original, with the texts of addresses as the standard library writes them.
- Clocks and collector availability: parameters that answer the n-th question as they like; timestamps are integers.
- Address scope tables: `ensure_investigable` is an arbitrary predicate on indicators.
- Human-readable texts (summaries, titles, reasons, the wording of limitations, gaps and conflicts): tags that carry what the text is about; of outcome texts only the bound on their number is kept.
- Sanitizing of texts before they are wrapped or stored: the wrappers take the sanitized text.
- Provider field parsers: an observation carries the counters a stance is read from; sums of counters are unbounded, where the original adds 64-bit numbers.
- `requests_used` in the statistics of a run: the budget is modelled on its own.
- Investigation identifiers, tool information, command line, key handling, output files and the table layout other than wrapping.
- TXT-record parsing, findings of single collectors and other sources than Certificate Transparency and the RDAP bootstrap: independent branches that would add easy members.
- AbsorbEntry: asks for hexadecimal serial numbers, because crates/collectors/src/sources/ct/parse.rs:100-106 drops any other serial before this code runs.
- BuildCertificates: asks for hexadecimal serial numbers for the same reason.
- OrderForgotten: is about reordering observations and relationships; for evidence inside one relationship see `OrderOfEvidenceForgotten`, which excepts what does change.
- ShownReadable: asks for the alphabets of the constructors (host names, certificate identifiers, normalized URLs, hexadecimal digests of the three lengths), not for all they check.
- BuiltClaims: speaks of claims that agree whenever they name the same observation, because the rules copy every claim from its observation.
- Confluence: leaves out runs cut by the deadline, crashed runs that would have found something, and collectors whose availability changes, because their findings are not determined.
- OrderMattersExactly: speaks of the same runs, and asks for a place for all that is found within the depth limit; for limits without that see `OrderMattersOtherwise` and `CompletionOrderMatters`.
