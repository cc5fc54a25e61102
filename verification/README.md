# Autopilot: verified models of the Host, the kernel, the checker, the planner and the contract bridge

This project models five connected parts of pi-autopilot in Dafny and proves what each part promises over all inputs
or over whole runs. `dafny verify dfyconfig.toml` checks every file.

1. **Host ownership journal and BLOCKED protocol** (`Ownership`, `OwnershipRuns`, `Coordinator`, `LaunchDrain`,
   `BlockedBroker`, `BlockedProgress`, `Json`, `JsonLaws`, `Utf8`, `JournalText`, `JournalFile`, `RowJson`,
   `RowRoundTrip`, `JournalRuns`). The coordinator is a class whose methods refine value-level steps. Runs are sequences
   of calls with or without a successful append, and of restarts that throw memory away and rebuild it from the rows.
   Launch flights, blocked admissions and the reporter-last cancellation protocol are state machines in which one event
   is what runs between two awaits, so a run is any interleaving. The journal is modelled down to the members of each
   row and the UTF-8 bytes of the file, so that one result goes from the bytes on disk to the coordinator's memory.
2. **Event-sourced kernel** (`KernelState`, `KernelFold`, `KernelEncoding`, `KernelLog`, `Schedule`, `Sorting`). Counters
   are bounded by 2^64 - 1 and report overflow as the source does; maps are ascending entry lists.
3. **Workflow model checker** (`Graph`, `Workflow`). The breadth-first searches, the component analysis and the gate
   search are methods proved against paths in a graph.
4. **Plan graph, recovery and allocation** (`PlanGraph`, `WorkMap`, `Allocation`, `AllocationRuns`).
5. **Contract generation and placeholder correlation** (`Splitting`, `Pointer`, `Contracts`, `Placeholder`,
   `PlaceholderLaws`, `RepeatedNames`, `Generator`, `Correlation`, `CorrelationLaws`).

SHA-256, random nonces, the outcome of an append, the outcome of a kill and what Core answers are parameters or events.

## Findings

Where the code does less than its promise, the code is modelled as it is, a lemma names the input, and another lemma
gives the condition.

- Not every call a coordinator accepts leaves a journal that restores its state. `OwnershipRuns.CallExact` gives, for
  each call, the exact condition, known before the call; `OwnershipRuns.JournalRestoresIffClean` gives it for whole
  runs, and `OwnershipRuns.UncleanRowBreaksJournal` says what a row outside it does. The inputs outside it are:
  - an empty task or latch id, which is accepted and journaled although restoring reads ids as non-empty text:
    `OwnershipRuns.NamelessTaskLosesJournal`. This concerns the class alone: the wired callers never deliver such an id
    (src/background-tasks.ts:204-207, src/child-control-broker.ts:500-503).
  - a launch whose own append failed. Acknowledging it writes a row no reopened journal accepts:
    `OwnershipRuns.AcknowledgingLostLaunchLosesJournal`. The wired caller does so when it replays pending
    acknowledgements (src/extension.ts:216-228). Promoting a gate that names it does the same:
    `OwnershipRuns.PromotingLostTaskLosesJournal`.
  - an observation or cancellation for a gate that is not the promoted one: `OwnershipRuns.UnpromotedRowLosesJournal`.
    Under the promoted receipt and latch but another gate body, reopening succeeds with a different state:
    `OwnershipRuns.AlteredGateDiverges`.
- A RETRY that opens the hold while another BLOCKED admission is outstanding lets a launch in before that admission is
  forwarded. From every sound world in which this happens some continuation leaks: `LaunchDrain.SharedRetryLeaks`, and
  for runs `LaunchDrain.SharedRetryRunLeaks`. Without it, admissions may overlap freely:
  `LaunchDrain.DrainedWhenForwarded`.
- A launch whose run returned a task that its action does not describe is refused and left out of the snapshot:
  `LaunchDrain.RefusedLaunchIsLeftOut`. The snapshot owns exactly the restored launches and those that passed the guards
  of registration, which `LaunchDrain.RefusedIffGuards` names.
- A journal file that starts with a byte-order mark is accepted, although the Host never writes one:
  `JournalText.ParseMarkedFile`. It is the only exception: `JournalText.AcceptedIffJournal`.
- C4 says nothing beyond C2 and C3 except about transitions to undeclared states:
  `Workflow.HopelessReachesUndeclared`, `Workflow.UndeclaredTargetHidesDeadEnd`.
- A unit with a blank criterion is approved and then refused when the stored plan is validated:
  `Allocation.ApprovedPassesIff` gives the exact condition.
- Two properties of one name can make schema and placeholder disagree: `PlaceholderLaws.DuplicateNamesDisagree`. For
  all items the exact condition, name by name, is `RepeatedNames.ValidIffLastAccepts`; it is the condition on constants
  and bounds alone as long as no optional property follows a required one of its name:
  `PlaceholderLaws.PlaceholderValidIffFits`.
- The marked placeholder, which is what the generator validates, can fail where the unmarked one passes: a later
  property of the slot's name may refuse the marker (`PlaceholderLaws.LaterItemTakesSlot`) or have no place for it
  (`PlaceholderLaws.LaterItemHidesSlot`). For all items, when the marker can be written and when the result passes:
  `RepeatedNames.MarkedValidIffLastAccepts`. It is the condition on constants and bounds alone if, besides, no later
  property takes over the name of the one that holds the slot: `PlaceholderLaws.MarkedValidIffFits`.

## Model

| member | source | states |
|---|---|---|
| Coordinator.HostOwnershipCoordinator.OpenJournal | src/ownership-journal.ts:139-146 | reopening builds a coordinator exactly when every row restores in turn, and its memory is then the fold of the rows |
| Coordinator.HostOwnershipCoordinator.EnterLaunch | src/ownership-journal.ts:157-173 | a launch enters exactly while neither hold is closed, under a flight not in use |
| Coordinator.HostOwnershipCoordinator.CompleteLaunch | src/ownership-journal.ts:163-168 | completing removes that flight only; doing it twice is harmless |
| Coordinator.HostOwnershipCoordinator.RegisterSuccessfulRun | src/ownership-journal.ts:179-212 | the in-place registration is the registration step on values, including the permanent hold after a failed append |
| Coordinator.HostOwnershipCoordinator.MarkLaunchAcknowledged | src/ownership-journal.ts:214-219 | acknowledges the exact binding once, memory changing only after the append |
| Coordinator.HostOwnershipCoordinator.RecordTerminalTask | src/ownership-journal.ts:221-227 | records one terminal snapshot for the exact binding, or refuses |
| Coordinator.HostOwnershipCoordinator.MarkTerminalForwarded | src/ownership-journal.ts:229-235 | marks a durable terminal as forwarded once |
| Coordinator.HostOwnershipCoordinator.AcquireBlockedAdmission | src/ownership-journal.ts:243-246 | an open hold becomes provisional and nothing else changes |
| Coordinator.HostOwnershipCoordinator.ReleaseBlockedAdmissionOnRetry | src/ownership-journal.ts:248-250 | only a provisional hold opens |
| Coordinator.HostOwnershipCoordinator.RetainFailClosedHold | src/ownership-journal.ts:253-255 | an open hold becomes provisional and nothing else changes |
| Coordinator.HostOwnershipCoordinator.GateMembership | src/ownership-journal.ts:451-464 | the membership loop accepts exactly gates of distinct owned tasks with one reporter |
| Coordinator.HostOwnershipCoordinator.PromoteBlockedGate | src/ownership-journal.ts:257-273 | promotes the gate after its row, accepts the same gate again, refuses another |
| Coordinator.HostOwnershipCoordinator.RecordObservationArrived | src/ownership-journal.ts:275-286 | journals one observation per gate and refuses a different one |
| Coordinator.HostOwnershipCoordinator.MarkObservationObserved | src/ownership-journal.ts:288-294 | journals the observed state once and marks the active gate |
| Coordinator.HostOwnershipCoordinator.MarkCancelled | src/ownership-journal.ts:308-323 | journals one cancellation per gate member and refuses a non-member |
| Coordinator.HostOwnershipCoordinator.FinishActivationWith | src/ownership-journal.ts:326-346 | the activation hold opens exactly when reconciliation matches the journal |
| Coordinator.HostOwnershipCoordinator.RestoreRow | src/ownership-journal.ts:348-380 | restoring a launch, acknowledgement or terminal row in place is the restore step on values |
| Coordinator.HostOwnershipCoordinator.RestoreGateRow | src/ownership-journal.ts:381-427 | restoring a gate, observation or cancellation row in place is the restore step on values |
| OwnershipRuns.CallExact | src/ownership-journal.ts:179-427 | for every mutator, by what it names and what is launched: its row restores at all iff readable, and to the durable part of the new memory iff clean; a clean call keeps the invariant |
| OwnershipRuns.JournalRestoresIffClean | src/ownership-journal.ts:139-142 | for every run, with failed appends, lost launches, restarts and any gate: the journal restores the live durable state at every point iff every appended row was clean |
| OwnershipRuns.DisciplinedRunRestores | src/ownership-journal.ts:139-142 | every run without lost launches, with gate calls for the promoted gate and non-empty ids, survives all its restarts; reopening rebuilds all journaled state and both ownership maps stay mutual inverses |
| OwnershipRuns.UncleanRowBreaksJournal | src/ownership-journal.ts:348-436 | a durable row that is not clean makes the journal unreadable, also after whatever rows follow, or readable with a state other than the live one, exactly as it is unreadable or readable itself |
| OwnershipRuns.NamelessTaskLosesJournal | src/ownership-journal.ts:214-219 | an empty task id is registered and acknowledged, and the journal cannot be reopened |
| OwnershipRuns.LostLaunchHolds | src/ownership-journal.ts:194-211 | a failed launch append leaves the launch owned, no row, and the hold permanent |
| OwnershipRuns.AcknowledgingLostLaunchLosesJournal | src/ownership-journal.ts:214-219 | acknowledging a launch whose append failed succeeds and makes the journal unreadable |
| OwnershipRuns.PromotingLostTaskLosesJournal | src/ownership-journal.ts:257-273 | promoting a gate that names a launch whose append failed succeeds and makes the journal unreadable |
| OwnershipRuns.UnpromotedRowLosesJournal | src/ownership-journal.ts:275-323 | an observation or cancellation row that does not name the promoted receipt and latch, or names no member of the gate, makes the journal unreadable |
| OwnershipRuns.AlteredGateDiverges | src/ownership-journal.ts:288-294 | observing the promoted receipt and latch under another gate body journals an observed state the live coordinator does not have |
| OwnershipRuns.GateRowClosesRun | src/ownership-journal.ts:257-273 | in every run a durable gate row implies the permanent hold, also after reopening |
| OwnershipRuns.BlockedNeverLaunches | src/ownership-journal.ts:157-173 | once a gate row is durable, no launch is admitted at any later point of the run, whatever calls and restarts follow |
| OwnershipRuns.DeadStaysDead | src/ownership-journal.ts:139-142 | a run whose journal could not be reopened stays without a Host |
| BlockedBroker.CancelKeyIsRow | src/ownership-journal.ts:304-323 | a cancellation key is held exactly when the journal has that task's cancellation row |
| BlockedBroker.RestoreAllLinked | src/ownership-journal.ts:348-427 | a reopened memory's keys are exactly those of its rows |
| BlockedBroker.ReporterKillIsLast | src/extension.ts:332-340 | the reporter's kill finds every non-reporter's row and the observed row already in the journal |
| BlockedBroker.PerformLinked | src/ownership-journal.ts:257-323 | every coordinator call keeps memory's gate keys exactly those of the rows and never changes an active gate's identity |
| BlockedBroker.StepSound | src/child-control-broker.ts:516-609 | every event keeps the protocol invariant: each closure flag, reporter included, claims only what the journal shows |
| BlockedBroker.ReporterLast | src/child-control-broker.ts:546-588 | over every interleaving and restart, no task is killed after its cancellation row, and the reporter's kill follows all non-reporter rows, Core's record and the observed row |
| BlockedBroker.ObservationCompletes | src/child-control-broker.ts:573-592 | in every run, when forwarding an observation completes, every task of the gate, the reporter included, has its cancellation row |
| BlockedProgress.NonReportersDrain | src/extension.ts:312-325 | from any point of the non-reporter loop over an owned gate, some events journal every remaining non-reporter and mark them done |
| BlockedProgress.ReporterKilledNow | src/extension.ts:332-340 | a released reporter without a row is killed at its next turn, after its observed row |
| BlockedProgress.GateCanFinish | src/child-control-broker.ts:546-592 | wherever the attempts of a pending gate stand, and whether or not its observation was journaled before, some run of the same process gives every task of the gate its cancellation row |
| LaunchDrain.RefusedIffGuards | src/ownership-journal.ts:179-193 | registration is refused exactly when the task is not the described one, the descriptor is too long, or the task or action id belongs to another launch |
| LaunchDrain.RegistrationOwns | src/extension.ts:265-281 | after registration exactly the launches owned before are owned, and this one iff it passed the guards, whether or not the append holds |
| LaunchDrain.RestoreAllSound | src/ownership-journal.ts:139-142 | whatever the rows, a memory rebuilt from them has mutually inverse maps and a gate only under the permanent hold |
| LaunchDrain.LoneRunSound | src/effects.ts:67-84 | over every run, restarts included, in which a RETRY that opens the hold answers the only admission: every returned launch is in flight or judged, ownership is exactly restored plus accepted launches, and admissions await every open flight |
| LaunchDrain.DrainedWhenForwarded | src/extension.ts:143-147 | in every such run, while a blocked request is forwarded no flight is open, every returned launch was judged by the guards and is owned exactly if it or its like passed, every binding is acknowledged |
| LaunchDrain.SharedRetryLeaks | src/ownership-journal.ts:243-250 | from every sound world in which a RETRY opens the hold beside another admission, some continuation forwards beside a running launch |
| LaunchDrain.SharedRetryRunLeaks | src/ownership-journal.ts:243-250 | every run that breaks the condition has a beginning that some continuation makes leak |
| LaunchDrain.RefusedLaunchIsLeftOut | src/extension.ts:265-281 | from every quiet world, a run that returns a task its action does not describe is missing from the snapshot forwarded next |
| Utf8.DecodeEncoded | src/ownership-journal.ts:528-528 | decoding the bytes of a text returns the text |
| Utf8.EncodeDecoded | src/ownership-journal.ts:528-528 | fatal decoding accepts only the bytes its result encodes to |
| JsonLaws.ParseText | src/ownership-journal.ts:536-537 | parsing the text of a value returns the value |
| JsonLaws.TextOneLine | src/ownership-journal.ts:101-115 | the text of a value holds no line break |
| JsonLaws.SortedIdempotent | src/ownership-journal.ts:110-112 | canonical member order is a fixed point, so canonical text is stable under reading |
| JournalText.ParseOwnFile | src/ownership-journal.ts:524-547 | parsing the file of a chain of fitting rows returns exactly those rows |
| JournalText.AcceptedFileIsJournal | src/ownership-journal.ts:524-547 | an accepted file is exactly the file of the hash-chained rows returned, up to a leading byte-order mark |
| JournalText.ParseMarkedFile | src/ownership-journal.ts:528-528 | a byte-order mark before a non-empty chain's file is read over |
| JournalText.AcceptedIffJournal | src/ownership-journal.ts:502-547 | a file is accepted iff it is within the byte bound and is the file of some well-formed chain, or of a non-empty one after a byte-order mark |
| JournalText.TornFileIsRowPrefix | src/ownership-journal.ts:524-547 | every byte prefix of a journal is rejected or parses to a prefix of its rows |
| JournalFile.OwnershipJournal.constructor | src/ownership-journal.ts:486-501 | a created journal is empty and well formed |
| JournalFile.Open | src/ownership-journal.ts:492-505 | opening existing bytes gives a well-formed journal over that file with exactly the rows parsed, or fails exactly where parsing does |
| JournalFile.OwnershipJournal.Append | src/ownership-journal.ts:509-521 | on a created or reopened journal, appends exactly the next row or changes nothing, decided by validation, both size bounds and the write; the file stays that of the chain |
| JournalFile.ParseRows | src/ownership-journal.ts:529-546 | the parsing loop returns what reading line by line defines, or fails where it fails |
| JournalFile.AppendFits | src/ownership-journal.ts:509-521 | an accepted append extends the hash chain and stays within the file bound |
| JournalFile.ReopenAfterAppend | src/ownership-journal.ts:492-521 | a file grown by an accepted append, byte-order mark or not, reopens to all its rows |
| RowJson.ReadRowSorted | src/ownership-journal.ts:549-577 | reading a row does not depend on the order of its members |
| RowJson.ReadTaskBack | src/ownership-journal.ts:708-737 | a journaled task reads back as itself |
| RowJson.ReadGateBack | src/ownership-journal.ts:690-700 | a gate with members reads back as itself |
| RowRoundTrip.RowKeyed | src/ownership-journal.ts:551-562 | every row kind is written with exactly its closed list of distinct members |
| RowRoundTrip.RowBack | src/ownership-journal.ts:509-521 | every row the coordinator can write is read back as the same row, members in any order |
| JournalRuns.ValidationIsOrderBlind | src/ownership-journal.ts:549-577 | row validation does not depend on the order of members |
| JournalRuns.RunRecordable | src/ownership-journal.ts:179-323 | every row of every run is one that reads back |
| JournalRuns.LiveFileIsChain | src/ownership-journal.ts:492-521 | over every run, the journal object that goes on from the rows parsed at each restart writes exactly the bytes of the run's rows |
| JournalRuns.FileRestoresIffClean | src/ownership-journal.ts:139-146 | for every run whose rows append accepted: reopening the bytes on disk gives the live durable state at every point iff every appended row was clean |
| JournalRuns.FileRebuildsMemory | src/ownership-journal.ts:139-146 | every disciplined run with non-empty ids survives its restarts, and reopening the bytes on disk rebuilds all journaled state |
| JournalRuns.TornFileRestoresPrefix | src/ownership-journal.ts:492-547 | a file cut at any byte is refused or restores what a prefix of the rows restores |
| KernelState.NoteCount | kernel/src/state.rs:181-195 | a counter steps by one, or stays and reports overflow at its limit |
| KernelState.BumpEntry | kernel/src/state.rs:197-201 | searching the place of a key and filling or changing it is the bump of an ascending map |
| KernelState.NoteKey | kernel/src/state.rs:197-210 | in an ascending map the key's count steps by one or stays at its limit with an overflow issue, every other count stays, the keys stay ascending |
| KernelState.CheckOrder | kernel/src/state.rs:100-143 | a row is in order exactly when sequence and revisions follow on, and each mismatch leaves its issue |
| KernelState.ApplyEvent | kernel/src/state.rs:100-169 | the in-place update is the fold step on values |
| KernelState.BumpIsUpdate | kernel/src/state.rs:197-210 | bumping a key changes that key's count only and keeps the keys ascending |
| KernelFold.FoldCounts | kernel/src/state.rs:100-173 | for every list below 2^64 rows: rows = length = accepted + rejected, kind counts are those of the accepted rows and sum to them, issues number at least rejected |
| KernelFold.SequenceNeverDecreases | kernel/src/fold.rs:4-10 | the sequence of a prefix never exceeds that of the whole |
| KernelEncoding.PushEntries | kernel/src/state.rs:39-60 | pushing a map appends its count and length-prefixed entries to the buffer |
| KernelEncoding.PushIssues | kernel/src/state.rs:39-77 | pushing issues appends their count and their fields |
| KernelEncoding.PushState | kernel/src/state.rs:39-60 | encoding appends exactly the state's bytes to the buffer |
| KernelEncoding.StateBytesInjective | kernel/src/state.rs:32-77 | equal encodings come from equal states |
| KernelLog.FoldSplit | kernel/src/fold.rs:4-10 | folding a prefix and then the rest is folding the whole |
| KernelLog.ReplayIsFold | kernel/src/log.rs:67-102 | replay equals the full fold under every cache image, stale or corrupted included |
| KernelLog.PrefixImageIsUsed | kernel/src/log.rs:59-102 | an image cut from any prefix of the log is accepted and used |
| KernelLog.UsedImageIsPrefixFold | kernel/src/log.rs:82-102 | an image that is used is exactly the image of the prefix it names |
| KernelLog.PlannedLogIsClean | kernel/src/log.rs:41-57 | a log built only by append plans folds to no issues, with sequence, revision, rows and accepted equal to its length |
| Schedule.DispatchOrder | kernel/src/schedule.rs:91-115 | the loop returns the ids of the capped selection of the sorted eligible items |
| Schedule.OrderedIsSorted | kernel/src/schedule.rs:91-134 | the order is sorted by the comparator and holds exactly the eligible items |
| Schedule.OrderIndependent | kernel/src/schedule.rs:91-127 | with distinct ids the order does not depend on how the view lists its items |
| Schedule.CapIsExact | kernel/src/schedule.rs:91-115 | exactly min(open slots, eligible) capped items are selected |
| Schedule.SelectionIsExact | kernel/src/schedule.rs:91-115 | every uncapped item and exactly the first capped items are selected, in order |
| Schedule.OneMoreSlot | kernel/src/schedule.rs:91-115 | one more slot leaves the selection or inserts one element |
| Schedule.RaisingCapInsertsAtMostOne | kernel/src/schedule.rs:91-115 | raising the cap by one inserts at most one id into the previous order |
| Workflow.Reach | modelcheck/src/lib.rs:178-189 | returns exactly the endpoints of paths from the start, and fails exactly when a reachable transition lacks a target; terminates despite duplicate entries |
| Workflow.ComponentOf | modelcheck/src/lib.rs:84-91 | returns the mutually reachable states of a state, empty where the search fails |
| Workflow.Cycles | modelcheck/src/lib.rs:84-102 | one C3 line per declared name whose cycle has no exit, and no other |
| Workflow.CheckMachine | modelcheck/src/lib.rs:45-65 | the findings of a machine in order, stated by paths, or an error exactly where a flag or a target is missing |
| Workflow.MissingEvidence | modelcheck/src/lib.rs:62-64 | one C6 line per transition without evidence, in order |
| Workflow.TrappedMeansNoWayOut | modelcheck/src/lib.rs:84-102 | a C3 finding means exactly: the state lies on a cycle and everything it reaches leads back to it |
| Workflow.HopelessReachesUndeclared | modelcheck/src/lib.rs:48-61 | without C2 and C3, a state that reaches no terminal state reaches an undeclared one |
| Workflow.NoDeadEnds | modelcheck/src/lib.rs:48-61 | with declared targets, a machine free of C2 and C3 is free of C4 |
| Workflow.UndeclaredTargetHidesDeadEnd | modelcheck/src/lib.rs:57-59 | one undeclared target gives a C4 state with no C2 and no C3 |
| Workflow.Gate | modelcheck/src/lib.rs:125-150 | one C7 line exactly when some path from the initial state to closed enters no forward gate, at the line of a last step of such a path |
| PlanGraph.Visit | data/seam_real_producers.rs:1397-1405 | a successful visit finishes the unit after all its dependencies, and a unit below all being visited in some numbering cannot fail |
| PlanGraph.CheckDeps | data/seam_real_producers.rs:1386-1391 | accepts exactly when every dependency is another unit of the plan |
| PlanGraph.Walk | data/seam_real_producers.rs:1392-1395 | the walk succeeds exactly when a topological order exists |
| PlanGraph.ValidateGraph | data/seam_real_producers.rs:1379-1396 | accepts exactly non-empty plans with distinct ids, known dependencies and a topological order |
| WorkMap.ApprovedUnits | data/seam_real_producers.rs:1361-1378 | approves exactly complete plans with an accepted graph, one approved unit per unit in order |
| WorkMap.ValidateRecovery | data/seam_real_producers.rs:1208-1296 | a recovery submission is admitted exactly when evidence is complete, authority is kept, declared ids are distinct, and changes fit the disposition; which admission follows |
| WorkMap.RepairKeepsGraph | data/seam_real_producers.rs:1257-1275 | an edit that keeps authority has the same dependency graph and graph verdict |
| WorkMap.RepairChangesDeclared | data/seam_real_producers.rs:1276-1295 | an admitted edit changes a unit exactly when its id was declared |
| WorkMap.AdmittedRepair | data/seam_real_producers.rs:1208-1378 | an admitted edit of an accepted plan keeps the graph accepted, changes exactly the declared units, and leaves every approved unit's id, kind, order, decisions, dependencies, gates, release edges and files as they were |
| Allocation.ValidateApproved | data/seam_real_producers.rs:1406-1435 | a stored plan passes exactly when complete, authorized and with an accepted graph |
| Allocation.ApprovedPassesIff | data/seam_real_producers.rs:1411-1420 | an approved unit passes stored-plan validation exactly when it has files and every criterion has text |
| Allocation.CollectOpen | data/seam_real_producers.rs:1448-1451 | collects the open units in plan order, or fails exactly when liveness of one cannot be decided |
| Allocation.LaneIdInjective | data/seam_real_producers.rs:1445-1445 | lane ids of different units differ |
| Allocation.WindowIsPrefix | data/seam_real_producers.rs:1452-1456 | the window is the first six of the open units by priority |
| Allocation.WindowIsOpen | data/seam_real_producers.rs:1448-1456 | the window holds distinct open units with their own data |
| Allocation.Submit | data/seam_real_producers.rs:1457-1468 | lanes and future units partition the plan exactly once, at most six lanes, none closed, future units marked closed exactly when they are |
| Allocation.Allocate | data/seam_real_producers.rs:1446-1469 | succeeds exactly for a valid plan with decidable liveness, and then partitions the plan along the window |
| AllocationRuns.StepRecordsGates | drivers/src/seam/mod.rs:8247-8275 | a closing records the completion gate others wait for, so closed units' gates stay recorded |
| AllocationRuns.RunRecordsGates | drivers/src/seam/mod.rs:4574-4581 | after every run of events, each closed unit somebody waits for has its gate |
| AllocationRuns.ApprovalKeepsGraph | data/seam_real_producers.rs:1367-1377 | the approved plan has the dependency graph of its work map |
| AllocationRuns.NeverStalls | data/seam_real_producers.rs:1446-1469 | over every run, while a unit of an accepted plan is open the window starts with a live or unblocked unit |
| AllocationRuns.PlanDrains | data/seam_real_producers.rs:1446-1469 | closing the head of each window closes every unit, one per closing, none of them blocked |
| Pointer.UnescapeEscape | codegen/src/emit.rs:1988-1990 | escaping a segment undoes itself and leaves no separator |
| Pointer.SegmentsOfPointer | codegen/src/emit.rs:1638-1643 | a pointer reads back as the path it was written from |
| Pointer.SetThenGet | codegen/src/emit.rs:1637-1670 | a write succeeds exactly where the path leads somewhere, and the marker is read back there |
| Generator.JsonSchemaForItems | codegen/src/contracts.rs:639-676 | the property loop builds the schema of the items, or fails with the first failing item |
| Generator.PlaceholderForItems | codegen/src/emit.rs:1880-1904 | the placeholder loop builds the placeholder of the items with its first slot as pointer text |
| PlaceholderLaws.AgreeConstant | codegen/src/contracts.rs:687-709 | a constant validates exactly when it is scalar, an enum value and within bounds |
| PlaceholderLaws.AgreeList | codegen/src/contracts.rs:718-752 | a one-element list validates exactly when one element is within the bounds and fits |
| PlaceholderLaws.PlaceholderValidIffFits | codegen/src/emit.rs:1672-1872 | where at every level no optional item follows a required one of its name, the placeholder validates against the schema of the same items exactly when the last item of each required name fits, in open and closed mode |
| PlaceholderLaws.MarkedValidIffFits | codegen/src/emit.rs:1625-1670 | where besides no later item takes over the name of one that holds the slot, the marker can be written and the marked placeholder validates exactly when the items fit with the slot's text at the marker's length |
| PlaceholderLaws.MarkedPlaceholderMeetsSchema | codegen/src/emit.rs:1625-1670 | under the same conditions on names, items that fit unmarked pass marked with a 64-digit nonce, at a text leaf that is no constant; distinct names meet the conditions and then fitting items have a placeholder |
| PlaceholderLaws.DistinctIsUnambiguous | codegen/src/contracts.rs:519-532 | distinct names at every level meet both conditions on names |
| PlaceholderLaws.DuplicateNamesDisagree | codegen/src/contracts.rs:645-675 | two properties of one name give fitting items whose placeholder the schema rejects |
| PlaceholderLaws.LaterItemTakesSlot | codegen/src/emit.rs:1880-1904 | a required text followed by a required boolean of its name: the unmarked placeholder passes, the marker can be written, the marked one fails, in both modes |
| PlaceholderLaws.LaterItemHidesSlot | codegen/src/emit.rs:1637-1670 | a required group followed by a required boolean of its name: the unmarked placeholder passes and the marker cannot be written |
| RepeatedNames.ValidIffLastAccepts | codegen/src/contracts.rs:645-675 | for all items, names repeated or not: the placeholder validates exactly when, for every required name, the schema of its last item accepts the placeholder of its last required item |
| RepeatedNames.MarkedValidIffLastAccepts | codegen/src/emit.rs:1625-1670 | for all items with a slot: the marker can be written exactly when the first slot's path leads on in the last required item of its name, and the marked placeholder passes exactly when then the last item of each name accepts what is under it |
| Correlation.CorrelationState.constructor | src/generated/child-control-bridge.ts:782-784 | a new state holds nothing |
| Correlation.CorrelationState.Prepare | src/generated/child-control-bridge.ts:786-794 | hands out the marked placeholder and holds the call under its nonce, or changes nothing |
| Correlation.CorrelationState.Consume | src/generated/child-control-bridge.ts:796-815 | the checks in order decide the outcome, and only success changes the state |
| Correlation.ConsumeReturnsPrepared | src/generated/child-control-bridge.ts:796-815 | over every run, a successful consume returns the payload and profile prepared earlier under its nonce |
| Correlation.ExactlyOnce | src/generated/child-control-bridge.ts:796-815 | with fresh nonces, no nonce and no tool-call id succeeds twice |
| Correlation.FailureChangesNothing | src/generated/child-control-bridge.ts:796-815 | a failing consume leaves the state as it was |
| Correlation.WaitsUntilConsumed | src/generated/child-control-bridge.ts:786-815 | a prepared call stays pending until it is handed out |
| CorrelationLaws.WrittenMarkerIsFound | src/generated/child-control-bridge.ts:831-847 | in a template without markers the written marker is the one found |
| CorrelationLaws.SameShapeAsItself | src/generated/child-control-bridge.ts:872-889 | a value with distinct keys has its own shape |
| CorrelationLaws.PreparedIsConsumable | src/generated/child-control-bridge.ts:786-815 | at any later point of a run, the unchanged placeholder of a waiting call is accepted and returns that call |
| CorrelationLaws.GeneratedIsCorrelatable | codegen/src/emit.rs:1880-1990 | a placeholder generated from items without marker-like constants, names repeated or not, is one the bridge can correlate, and prepare under every nonce exactly when the generator's own marker can be written |

## Left out

- File modes, owners, inode identity, directory creation and fsync: an append is atomic and its outcome is a parameter.
- SHA-256, random bytes and hex formatting: arbitrary functions or values; freshness of nonces is an assumption where stated.
- Validation of a background action: a parameter of the row model, assumed blind to member order.
- Lone surrogates and numbers beyond non-negative integers in JSON text; the reader covers the texts canonical output can spell.
- The precision of JavaScript numbers: integers are unbounded and always spelled in decimal digits, while JavaScript loses integers above 2^53 and uses exponents from 1e21.
- JavaScript's ordering of integer-like keys, and spellings of array indices other than decimal digits.
- Sockets, framing, timeouts, child processes and operator messages around the protocols.
- Settling of promises within one event: an event is everything between two awaits.
- The bound on concurrently pending observations, and receipts paired with a second latch: one coordinator has one gate.
- Checks C5 and C8 of the model checker, and the reading of workflow tables.
- File, command and package-check authority of plan units: a parameter of approval and of stored-plan validation.
- Whether a lane has a live delivery: a parameter, including its failure.
- Work maps of the second version, planning waves and plan reviews.
- Lookup of type names in contracts: a type is what its name resolves to, so recursive shapes do not arise.
- Source-text emission of the generator and reading of its tables.
- Pointer.SetThenGet: a write rebuilds the value instead of changing it in place, because values have no aliases here.
- PlaceholderLaws.PlaceholderValidIffFits: leaves items where an optional property follows a required one of its name to `RepeatedNames.ValidIffLastAccepts`, because no condition on constants and bounds decides them.
- PlaceholderLaws.MarkedValidIffFits: leaves those items, and those where a later property takes over the slot's name, to `RepeatedNames.MarkedValidIffLastAccepts`.
- Core reports an observation as recorded only after the Host sent one: events in which Core claims an observation nobody forwarded are not part of the protocol runs.
- A restart whose journal cannot be reopened ends the Host; the launch-drain runs leave it out as a step.
- WorkMap.ApprovedUnits: unit numbers do not wrap at 32 bits.
