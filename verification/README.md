# Verified model of the forwarding agent

The Go agent is a reconciler: it receives snapshots of desired state, turns them into jobs, runs the
jobs on a worker pool and rolls back what fails. This project models the protocol code between its
input and its operating-system calls and proves, for all inputs, all runs and all interleavings, what
that code is meant to guarantee. Where a guarantee fails, a concrete input is given together with the
exact condition under which it holds (see "Findings").

`dafny verify dfyconfig.toml` checks the whole project.

| component | modules |
|---|---|
| action pipeline: competing identities, issue times, lock table, runtime gates | `ActionKeys`, `Epochs`, `SerialLocks`, `ActionOrder`, `RuntimeGates` |
| action pipeline: the coalescing ingress queue | `Ingress` |
| action pipeline: planner, worker pool, commit and rollback | `Planner`, `PlanRules`, `WorkerPool`, `PoolBound`, `BatchProgress`, `Finalizers` |
| action pipeline: group handoffs | `Handoff`, `HandoffRuns` |
| shared entry groups | `FxpSpecs`, `EntryIndex`, `EntryGroups`, `StagedEntries` |
| managed configuration transactions | `ManagedConfigs` |
| deny-policy refresh and the sessions under it | `DenyPolicy`, `UdpSessions` |
| PROXY protocol headers | `Bytes`, `Words`, `ProxyProtocol`, `ProxyRules`, `ProxyRoundTrip` |
| streaming protocol guard | `Detectors`, `DetectorRules`, `ProtocolGuard` |
| status reports, DNS watch | `StatusReports`, `DnsCompaction`, `DnsWatch` |
| apply queue, record flusher | `ApplyQueue`, `RecordFlusher` |

Code that changes state step by step is a class or a method with a loop, proved against a function or
a predicate on values. Concurrent code is a transition system whose steps are the code's critical
sections; the theorems are about every reachable state. Texts that the agent only compares are
datatype values. Clocks, DNS answers, command outcomes and file failures are parameters of steps.

## Model

| member | source | states |
|---|---|---|
| ActionKeys.StaleShareIsSerialShare | agent/actions.go:1966-1986 | two actions that share a stale key share a serial lock if and only if they are not a split-tunnel pair |
| ActionKeys.RulelessTunnelsNeverSplit | agent/actions.go:2189-2227 | if tunnel-scoped actions carry no rule ID, sharing a stale key implies sharing a serial lock |
| ActionKeys.StaleShareMeaning | agent/actions.go:2189-2227 | two actions compete if and only if both are for one runtime, or neither is for a runtime and they are for one tunnel or one rule, on one port or both not removals, or for one port with a common protocol |
| ActionKeys.SerialShareMeaning | agent/actions.go:1966-1986 | two actions share a serial lock if and only if both are for one runtime, or neither is and they have the rule, or without rules the tunnel, or the port, the entry group or a chain in common |
| Epochs.EpochTable.IsOlder | agent/actions.go:2229-2262 | answers whether a later issue time has been accepted for one of the action's identities, and remembers exactly when asked to |
| Epochs.OlderMeaning | agent/actions.go:2229-2262 | after any accepted actions, an action is stale if and only if it has an issue time and a competing action with a later one was accepted |
| Epochs.NewerApplyWins | agent/actions.go:2213-2219 | once a newer apply of a rule is accepted, every older apply of that rule is stale, on whatever port |
| Epochs.OlderIsForever | agent/actions.go:2229-2262 | accepting any action never makes an older one current again |
| ActionOrder.MutualExclusion | agent/actions.go:2010-2070 | in every reachable state of the lock table no key is held by two tasks, although entries are deleted and recreated |
| ActionOrder.EntryCountsUsers | agent/actions.go:2042-2070 | a table entry exists exactly while its holders and waiters exist, and its count is their number |
| ActionOrder.NoDeadlock | agent/actions.go:2010-2040 | with sorted, deduplicated acquisition some unfinished task can always take its next step |
| ActionOrder.MovesAreFinite | agent/actions.go:2010-2070 | every step brings its task closer to its end and disturbs no other |
| ActionOrder.NoOverlap | agent/actions.go:1999-2008 | competing actions, except split-tunnel pairs, never run at the same time |
| ActionOrder.IssueTimeOrder | agent/actions.go:1339-1392 | each task starts at most once, and once a newer competing action has started no older one starts |
| ActionOrder.StaleNeverStarts | agent/actions.go:1339-1392 | once an action is older, no later state has a task start on its behalf that had not already passed the recheck under its locks |
| ActionOrder.SplitTunnelIsUnsafe | agent/actions.go:2189-2227 | for every split-tunnel pair there is a run in which the newer action starts first and both run at once |
| ActionOrder.TunnelAppliesOverlap | agent/actions.go:2189-2227 | such a run for one pair: a rule's apply and a tunnel's apply on tunnel 7 |
| RuntimeGates.SyncRunsAlone | agent/actions.go:1937-1964 | while a shared runtime is rewritten, no other task is inside its gate: neither an action it serves nor another rewriting |
| RuntimeGates.RoleMeaning | agent/actions.go:1937-1964 | who takes which gate, and how, by status and forward type |
| RuntimeGates.JobsAreAsSpawned | agent/actions.go:1359-1366 | a task takes the gates of the very job it was given, in every run |
| RuntimeGates.NoDeadlock | agent/actions.go:1339-1374 | gates and serial locks together: some unfinished task can always take its next step, although writers wait for readers that hold locks |
| RuntimeGates.StepsAreFinite | agent/actions.go:1339-1374 | every step at a gate or a lock brings its task closer to its end and disturbs no other |
| RuntimeGates.LocksRun | agent/actions.go:1359-1366 | behind the gates the lock table runs as without them, so its theorems hold |
| Ingress.Buffer.Push | agent/actions.go:131-156 | leaves exactly the waiting jobs that do not compete for the very same list of stale keys in the same phase, with the new job behind them, and hands back the one that does |
| Ingress.Buffer.Pop | agent/actions.go:158-178 | takes the oldest live job, past tombstones, compacting when due |
| Ingress.Buffer.Len | agent/actions.go:180-184 | the active counter is the number of live jobs |
| Ingress.Buffer.Reset | agent/actions.go:186-200 | returns every live job, oldest first, and leaves the queue empty |
| Ingress.KeysStayUnique | agent/actions.go:131-156 | at every moment each identity waits at most once |
| Ingress.OneWaitingPerIdentity | agent/actions.go:2264-2274 | at most one apply and beside it one handoff waits for each list of stale keys |
| Ingress.FateOfJob | agent/actions.go:108-216 | over every run a job leaves as replaced if and only if, while it waits, a later push has the very same non-empty list of stale keys and the same phase; popped or cleared if and only if a pop finds it in front or a reset comes; else it waits |
| Ingress.EveryJobLeavesOnce | agent/actions.go:108-216 | over every run each pushed job waits or has left exactly once: popped, replaced or returned by reset |
| Ingress.PushesKeepLast | agent/actions.go:131-156 | pushes alone leave exactly the last job of every identity, in push order |
| Ingress.KeepLastMeaning | agent/actions.go:131-156 | a job is kept if and only if nothing pushed later competes for the same stale keys in the same phase |
| Planner.Prepare | agent/actions.go:1412-1526 | builds the batch, the planned graph, the queue order and the handoff groups described by the rows below |
| Planner.PlanBatches | agent/actions.go:1482-1497 | the group of an entry tunnel holds exactly the handoffs that join it, in batch order |
| Planner.LinkTransitions | agent/actions.go:1532-1558 | a runtime waits for the one that loses ports to it, only for one-way moves, whatever the order of the moves |
| Planner.PrereqMeaning | agent/actions.go:1456-1526 | exactly which results each planned job waits for |
| PlanRules.SplitPlaces | agent/actions.go:1412-1456 | the planner keeps the jobs' order in each of its two halves, shared runtimes and the rest |
| PlanRules.JobRules | agent/actions.go:1839-1935 | for every list of jobs, in terms of what they say: a job waits for a runtime if and only if it lives there, leaves it or needs its tunnel; it hands over first if and only if it takes a port from something else and needs some runtime; it joins a group if and only if it then leaves that entry group |
| PlanRules.MovesMeaning | agent/actions.go:1532-1558 | a job moves its port from one shared runtime to another if and only if it hands over, lived in the one and is served by the other |
| Planner.PlanIsAcyclic | agent/actions.go:1412-1558 | for every batch the prerequisite graph is acyclic |
| WorkerPool.NeverStuck | agent/actions.go:1915-1935 | if at every cut fewer jobs than workers wait across it, some worker or finisher can always advance |
| WorkerPool.AdvanceIsFinite | agent/actions.go:1124-1168 | every advance shrinks a bounded distance, so all jobs finish |
| WorkerPool.OneWorkerSticks | agent/actions.go:1339-1392 | one worker gets stuck exactly when some job waits for one behind it |
| WorkerPool.MergedNarrow | agent/actions.go:362-377 | interleaving two producers' queues adds up the jobs that may be blocked, no more |
| BatchProgress.InterleavedBatchesProgress | agent/actions.go:362-377 | however k producers interleave planned batches, k + 1 workers are never stuck before every job has finished |
| BatchProgress.PlannedBatchesProgress | agent/actions.go:1412-1558 | batches queued one after another need two workers |
| BatchProgress.TwoBatchesStickTwoWorkers | agent/actions.go:362-377 | two producers can get two workers stuck, so k + 1 is the least |
| BatchProgress.OneWorkerIsNotEnough | agent/actions.go:1532-1558 | one worker gets stuck exactly on the batches where a shared runtime waits for a later one |
| BatchProgress.MoveSticks | agent/actions.go:1532-1558 | one rule moving from nginx to gost, gost queued first: every plan of that batch gets one worker stuck, and two producers with it two workers |
| Finalizers.FinalizerFiresOnce | agent/main.go:736-768 | in every run a result's finalizer fires at most once, when it has dependents and all have reported, with the closure installed last, and commits if and only if all succeeded |
| Finalizers.PlanHasNoRepeats | agent/actions.go:1467-1526 | no planned job counts as a dependent of the same result twice |
| Finalizers.BatchProgresses | agent/actions.go:1170-1216 | whatever has happened, a planned batch with an unfinished job has one that can go on |
| Finalizers.SuccessNeedsPrerequisites | agent/actions.go:1915-1935 | in every run a job succeeds only where all its prerequisites did |
| Finalizers.CompletedMeaning | agent/main.go:690-706 | in every run a job's result is published exactly when it has finished, and says how it turned out |
| Handoff.HandoffBatch.PrepareTransition | agent/main.go:469-490 | fails if and only if writing a snapshot of a runtime not seen before fails, and registers the selector and records the first snapshots up to there |
| Handoff.FinalizeBatch | agent/main.go:522-548 | checks every guard against the issue times: superseded, or commit, or restore |
| Handoff.RecordedIsFirst | agent/main.go:477-487 | the snapshot kept of a runtime is the first that came in |
| Handoff.RegisteredMeaning | agent/main.go:455-467 | the first selector of every key is kept, and nothing else |
| Handoff.ResolveMeaning | agent/main.go:492-518 | a participant heard after the last counts for nothing; before, it is counted, and the last takes along whether one failed, and all snapshots, selectors and guards |
| Handoff.GroupFinalizedOnce | agent/main.go:405-672 | for all interleavings of preparations, calls and newer desired states: at most one outcome, after all participants; superseded exactly if a guard was older when checked; otherwise restore or commit of everything recorded |
| Handoff.ChecksEnd | agent/main.go:527-537 | after at most one check per guard the completed group has its outcome |
| Handoff.GroupProgresses | agent/main.go:492-548 | until its outcome a group has a participant still to be heard or a check that is due |
| Handoff.FirstCallDecides | agent/main.go:609-672 | the first of commit, finish, rollback and cancel decides, whatever comes after |
| HandoffRuns.BuildGroup | agent/actions.go:1482-1497 | a planned group has one participant and one guard for every handoff that joins it |
| HandoffRuns.PreparesBeforeItsCall | agent/main.go:10576-10590 | no snapshot comes in from a participant whose handoff has already been called |
| HandoffRuns.PlannedGroupFinalizedOnce | agent/actions.go:1170-1216 | in every run of a planned batch each participant is heard once, as its job turns out, and the group's outcome is the right one |
| HandoffRuns.HeardExactly | agent/actions.go:1170-1216 | in every run exactly those participants have been heard whose own job has finished or whose handoff has rolled back |
| HandoffRuns.RestoresIfOneFailed | agent/main.go:539-547 | with all participants finished and no guard overtaken the group restores if one failed and commits all selectors if none did |
| HandoffRuns.RunProgresses | agent/actions.go:1170-1216 | while a job is unfinished or a check is due, the run can go on |
| FxpSpecs.NormalizeGroup | agent/main.go:9338-9427 | the normal form lists the last usable entry of every identity, in strictly ascending identity order |
| FxpSpecs.ListedBelong | agent/main.go:9338-9427 | whatever the entries said, those listed are of the group's tunnel and transport and have a rule, a port and a key |
| FxpSpecs.RemovalMeaning | agent/main.go:8932-8956 | a removal matches an entry that has everything the removal sets, up to overlapping protocols |
| FxpSpecs.AdoptMeaning | agent/main.go:9338-9427 | what the group's key fills in where an entry says nothing |
| FxpSpecs.OrderMeaning | agent/main.go:9364-9372 | the order is by rule, then port, then protocol text |
| FxpSpecs.NormalFormIsCanonical | agent/main.go:9338-9437 | two inputs have the same normal form if and only if they have the same last-writer map |
| FxpSpecs.NormalFormIsFixed | agent/main.go:9338-9427 | normalizing a normal form changes nothing |
| FxpSpecs.ConflictIsSharedSocket | agent/main.go:9927-9965 | of normalized entries, the conflict by protocol and port maps is a socket the index files both under |
| EntryIndex.MutableGroup.Add | agent/main.go:9088-9106 | appends the normalized entry if it belongs to the group, and keeps all three indexes right |
| EntryIndex.MutableGroup.RemoveMatching | agent/main.go:9116-9158 | filters the live entries by the removal test, whichever index it searches |
| EntryIndex.MutableGroup.RemoveRule | agent/main.go:9160-9165 | filters the live entries by rule ID |
| EntryIndex.MutableGroup.RemoveListenConflicts | agent/main.go:9167-9176 | filters the live entries by the plain listen-conflict test |
| EntryGroups.StageBatch | agent/main.go:9230-9290 | stages a group for exactly the transports and tunnels a batch touches, each the normal form of what filtering and appending on a plain list leaves |
| StagedEntries.StagedExactly | agent/main.go:9230-9290 | entry by entry: a staged group lists exactly the entries with a key that were persisted and no action takes over or out, or that an action brings and no later one takes out, one for each rule, port and protocol |
| StagedEntries.StagedKeys | agent/main.go:9197-9245 | groups are staged for exactly the tunnels and transports that some action names with an entry or a removal |
| StagedEntries.TakenOverIsGone | agent/main.go:9260-9268 | a rule applied without FXP, in its tunnel or, without one, in all, has no staged entry that the batch does not bring itself |
| StagedEntries.UntouchedStays | agent/main.go:9246-9290 | a persisted entry that no action takes over or out stays, unless another entry of its rule, port and protocol does |
| EntryGroups.SingleApplyStagesPlainGroup | agent/main.go:8977-9028 | a batch with one apply stages, after normalization, the group that the plain version computes |
| EntryIndex.SingleApplyAgrees | agent/main.go:8977-9028 | a batch with one apply stages the entries that the plain version computes |
| EntryIndex.PaddedApplyAgreesIff | agent/main.go:9194-9228 | an apply written with blanks around it leaves the same list if and only if no surviving entry has its rule or one of its sockets |
| EntryGroups.PaddedGroupAgreesIff | agent/main.go:9194-9228 | it stages the same group, after normalization, if and only if of the usable surviving entries, the last of each identity, none has its rule or one of its sockets |
| EntryIndex.MutateDisjointIff | agent/main.go:9194-9228 | any one action keeps the listen endpoints pairwise disjoint if and only if it does not append, without replacing, beside an entry with one of its sockets |
| EntryIndex.PaddedApplyDisjointIff | agent/main.go:9194-9228 | an apply written with blanks around it does if and only if no surviving entry has one of its sockets |
| EntryIndex.PaddedApplyCollides | agent/main.go:9194-9228 | such an apply can put two entries on one socket |
| EntryGroups.SingleRemovalStagesPlainGroupIff | agent/main.go:8977-9001 | a batch with one removal stages the group of the plain version, transport and normalized entries, if and only if the removal names a transport, matches nothing, or matches a first-version entry first |
| EntryGroups.RemovalWithoutTransportDisagrees | agent/main.go:8991-9001 | removing a rule of a second-version group without naming a transport stages the first version |
| EntryIndex.BatchDisjointIff | agent/main.go:9230-9290 | throughout a batch the listen endpoints are pairwise disjoint if and only if none of its actions appends, without replacing, beside an entry with one of its sockets |
| EntryIndex.BatchKeepsDisjoint | agent/main.go:9230-9290 | so removals and exactly written applies always keep them disjoint |
| EntryGroups.StagedGroupsAreDisjoint | agent/main.go:9230-9290 | and so are the groups such a batch stages |
| ManagedConfigs.ConfigStore.Apply | agent/managed_configs.go:75-154 | installs every file under a fresh generation, or rolls back what it installed |
| ManagedConfigs.InstallableMeaning | agent/managed_configs.go:65-152 | an apply gets to the first file without an absolute path, with more than permission bits, without content, or whose checks or rename fail |
| ManagedConfigs.ConfigStore.Rollback | agent/managed_configs.go:184-231 | restores newest first, only while the path's generation is its own, and reports success if and only if no path it still owned failed to restore; finished transactions are left alone |
| ManagedConfigs.ConfigStore.Commit | agent/managed_configs.go:233-251 | forgets its own generations and changes no file |
| ManagedConfigs.CommitForgets | agent/managed_configs.go:233-251 | in every interleaving a commit forgets the generation of exactly the paths its transaction still owns |
| ManagedConfigs.FailedApplyUndoesIff | agent/managed_configs.go:75-154 | a failing apply whose restores succeed leaves all files as they were if and only if, for every path it installed, the file just before the path's last backup was the original |
| ManagedConfigs.FailedApplyUndoes | agent/managed_configs.go:75-154 | with distinct paths it always does |
| ManagedConfigs.RollbackUndoesIff | agent/managed_configs.go:184-231 | the same exact condition for rolling back a successful apply |
| ManagedConfigs.RepeatedPathIsNotUndone | agent/managed_configs.go:75-154 | a path named twice keeps the first of its new contents |
| ManagedConfigs.RollbackRestoresOwnPaths | agent/managed_configs.go:184-231 | in every interleaving a rollback changes exactly the paths its transaction installed last, to what they held before its last install |
| ManagedConfigs.DistinctPathsAreRestored | agent/managed_configs.go:184-231 | with distinct paths those are the exact prior contents and modes |
| ManagedConfigs.FinishedIsInert | agent/managed_configs.go:175-251 | commits change no file and finished transactions change nothing |
| ManagedConfigs.RollbackRestoresPathIff | agent/managed_configs.go:184-231 | in every interleaving a rollback leaves on a path what its transaction replaced if and only if it installed the path last and the restore succeeds, or that was there already |
| ManagedConfigs.LaterAttemptDisarmsRollback | agent/managed_configs.go:206-219 | once a later transaction has installed a path, an earlier one's rollback leaves it alone even if the later one failed |
| ManagedConfigs.FailedAttemptLosesOriginal | agent/managed_configs.go:206-219 | one run of this: [0] replaced by [1], a second attempt with [2] fails, the first is rolled back, and [1] stays |
| DenyPolicy.Resolve | agent/amneziawg_helper.go:782-818 | the unlocked middle of a refresh computes the denied set and whether anything was unresolved |
| DenyPolicy.Relay.DestinationAllowed | agent/amneziawg_helper.go:758-767 | admits a target if and only if it is eligible, the policy has not failed and the address is not denied |
| DenyPolicy.OpenPolicyIsCurrent | agent/amneziawg_helper.go:782-864 | with refreshes racing holds and replacements: a hold fails closed, and whenever anything is admitted a refresh of the current generation resolved every deny host, and the denied set is exactly the preserved, interface and resolved addresses |
| DenyPolicy.AdmittedExactly | agent/amneziawg_helper.go:758-767 | in every run a connection passes the check if and only if its target is eligible, the policy is open, and the address is no preserved or interface address and no answer for a deny host |
| DenyPolicy.PolicyIsAsLastSet | agent/amneziawg_helper.go:838-864 | in every run hosts and preserved addresses are those of the last replacement, the hold is that of the last change, and every change has a generation of its own |
| DenyPolicy.HoldBlocks | agent/amneziawg_helper.go:838-864 | from a hold until a releasing replacement nothing is admitted |
| DenyPolicy.SessionsFollowPolicy | agent/amneziawg_helper.go:906-979 | once no policy change still owes its pass, every open TCP session has an eligible target whose address nothing denies |
| DenyPolicy.ClosedOnlyIfForbidden | agent/amneziawg_helper.go:906-979 | in every run a registered TCP session keeps its target, once closed stays closed, and is closed by nothing but its peer or a pass that finds its target forbidden |
| DenyPolicy.PassesCanEnd | agent/amneziawg_helper.go:906-926 | from every reachable state the owed passes can end under the same policy, and then every open session is permitted |
| UdpSessions.UdpSessionsFollowPolicyIff | agent/amneziawg_helper.go:906-1048 | for every run: throughout it each open UDP session to a forbidden target is ahead of some pass, if and only if no packet, checked before a policy change, opened its session behind that change's pass |
| UdpSessions.QuietRelayFollowsPolicy | agent/amneziawg_helper.go:906-1048 | then, once no thread owes anything, open sessions of both kinds have eligible targets whose addresses nothing denies |
| UdpSessions.ClosedOnlyIfForbidden | agent/amneziawg_helper.go:906-926 | in every run a UDP session, once closed, stays closed, and is closed by nothing but its own end or a pass that found its target forbidden |
| UdpSessions.PassesCanEnd | agent/amneziawg_helper.go:906-926 | the passes over UDP sessions can end too |
| UdpSessions.CheckedExactly | agent/amneziawg_helper.go:1004-1012 | in every run a UDP packet passes the check under the same exact condition |
| UdpSessions.LateUdpSession | agent/amneziawg_helper.go:1004-1038 | one run with such a packet: held, nobody owes a pass, and a session is open |
| UdpSessions.TableIsBounded | agent/amneziawg_helper.go:1025-1036 | in every run at most 512 UDP sessions are in the table |
| Bytes.JoinOfSplit | agent/main.go:13310 | splitting a request line at single spaces loses nothing |
| Words.FieldsOfJoin | agent/main.go:12993 | words joined by spaces are found again |
| Words.AtoiOfDecimal | agent/main.go:13289 | a printed port parses to itself |
| Words.FieldsMeaning | agent/main.go:12993 | the words of a line are exactly those it is laid out from with blanks between them |
| Words.AtoiMeaning | agent/main.go:13003-13010 | a text is read as a number if and only if it is a sign or none, zeros and the printed number, and that has 64 bits |
| ProxyProtocol.ConsumeFromConn | agent/main.go:13065-13102 | the reader's loops return, and leave unread, what the function on fragments says |
| ProxyProtocol.HandleConn | agent/main.go:12710-12732 | what a guarded connection keeps of its first bytes |
| ProxyRules.ConsumeV1Meaning | agent/main.go:12984-13017 | the version 1 parser accepts exactly a line that begins with "PROXY " and has PROXY and UNKNOWN, or PROXY, TCP4 or TCP6, two addresses and two ports as its words |
| ProxyRules.ConsumeV2Meaning | agent/main.go:13122-13163 | the version 2 parser accepts exactly signature, version, command, family, length, addresses and ports in their places, mapped addresses as version 4, and leaves the rest |
| ProxyRules.ConsumeMeaning | agent/main.go:13052-13063 | which parser is asked, and that a piece of the signature is an incomplete header |
| ProxyRules.BuildV1Meaning | agent/main.go:13250-13290 | the line that version 1 writes |
| ProxyRules.BuildV2Meaning | agent/main.go:13165-13215 | version 2 writes a header of that grammar, local without a block unless both addresses are of one version |
| ProxyRoundTrip.SplitDoesNotMatter | agent/main.go:13019-13102 | for every fragmentation the result and the unread bytes are the verdict on the bytes alone |
| ProxyRoundTrip.EndpointMeaning | agent/main.go:13216-13248 | known addresses and ports keep their place; an unknown source is the peer, an unknown destination the far end, or else the near end's address |
| ProxyRoundTrip.HeaderRoundTrip | agent/main.go:13165-13290 | valid endpoints, either version, any payload, any fragmentation: the same endpoints come back and the payload is intact |
| ProxyRoundTrip.V1RoundTrip | agent/main.go:12984-13050 | for all complete endpoints version 1 round-trips if and only if the addresses hold no blanks, the ports fit, and the header fits 108 bytes or arrives whole in the first fragment |
| ProxyRoundTrip.LongHeaderIsRefused | agent/main.go:13019-13041 | a header of 109 bytes that arrives after its first byte is refused |
| ProxyRoundTrip.V1HeaderFits | agent/main.go:13250-13290 | addresses of together at most 82 bytes always fit |
| ProxyRoundTrip.V1UnknownRoundTrip | agent/main.go:13250-13290 | incomplete endpoints are announced and read back as unknown |
| ProxyRoundTrip.V2RoundTrip | agent/main.go:13122-13206 | version 2 always accepts its own header, with the payload intact, and returns what the binary form can carry |
| ProxyRoundTrip.V2KeepsEndpoints | agent/main.go:13172-13206 | the endpoints survive version 2 if and only if both texts are canonical, of one family, and the ports fit |
| ProxyRoundTrip.PlainStreamIsKept | agent/main.go:13019-13102 | a stream that begins with no header loses no byte, and is refused exactly if its first fragment and it itself are proper prefixes of "PROXY ", or its first fragment is a proper prefix of the version 2 signature and it is shorter than 16 bytes or than the length it announces |
| ProxyRoundTrip.LoneLetterIsRefused | agent/main.go:13019-13041 | the stream "P" is refused |
| ProxyRoundTrip.LoneLineEndIsRefused | agent/main.go:13065-13102 | and so is a stream that is only a line end |
| ProxyRoundTrip.ReceiveKeepsPayloadIff | agent/main.go:12710-12732 | a connection without a header is forwarded whole if and only if its first read could not begin a header |
| ProxyRoundTrip.SplitRequestLosesBytes | agent/main.go:12710-12732 | "P" followed by "OST /" is forwarded as "P" |
| Detectors.HTTPIsMonotone | agent/main.go:13292-13329 | within the sample, HTTP once detected stays detected |
| Detectors.TLSIsMonotone | agent/main.go:13353-13372 | TLS once detected stays detected |
| Detectors.HTTPIsNotTLS | agent/main.go:13292-13372 | no sample is both |
| DetectorRules.HTTPMeaning | agent/main.go:13292-13351 | HTTP is detected if and only if the sample is the HTTP/2 preface, begins with a request line of the known methods and targets, or is filled by the beginning of one |
| DetectorRules.TLSMeaning | agent/main.go:13353-13372 | TLS is detected if and only if the sample begins with a handshake record of plausible length that holds a whole client hello |
| DetectorRules.SocksMeaning | agent/main.go:13374-13433 | a SOCKS greeting is found if and only if the sample is a whole version 4 request, or a whole version 5 greeting with one to sixteen different methods |
| ProtocolGuard.Inspection.InspectClient | agent/main.go:11563-11609 | reports exactly the verdict on everything sent so far, once |
| ProtocolGuard.Inspection.InspectServer | agent/main.go:11611-11656 | reports SOCKS exactly if the reply since the client's last chunk confirms the greeting |
| ProtocolGuard.Guard | agent/main.go:12763-12825 | both copy loops of a connection, in any interleaving, make at most one report, the first verdict |
| ProtocolGuard.StreamingIsOneShot | agent/main.go:11563-11609 | however the directions interleave, what is reported is what the detectors say of the first 512 bytes of the whole client stream, or it is SOCKS and they say nothing |
| ProtocolGuard.EachProtocolIsExact | agent/main.go:11563-11609 | on every connection HTTP, and TLS, is reported if and only if it is blocked and detected |
| ProtocolGuard.SocksIsExact | agent/main.go:11563-11656 | SOCKS is reported if and only if at some moment the reply confirms the greeting |
| ProtocolGuard.ConfirmsMeaning | agent/main.go:11611-11656 | which replies confirm a greeting |
| ProtocolGuard.HandshakeThenReply | agent/main.go:11611-11656 | handshake then reply: the report depends on the bytes, not on how either side was split |
| StatusReports.StatusQueue.Enqueue | agent/action_status.go:54-91 | a newer report takes its key's place, an older one is dropped |
| StatusReports.StatusQueue.Take | agent/action_status.go:100-126 | takes the oldest keys up to the limit |
| StatusReports.StatusQueue.Restore | agent/action_status.go:134-159 | puts failed reports back at the front unless a newer one of the key has come |
| StatusReports.TakeThenRestore | agent/action_status.go:100-159 | taking and restoring with nothing between is the identity |
| StatusReports.NothingNewestIsLost | agent/action_status.go:171-230 | in every interleaving order and pending agree, pending reports carry the latest issue time, and the newest report of each key is pending, in flight or delivered |
| StatusReports.ObsoleteMeaning | agent/action_status.go:54-91 | in every run a report is obsolete if and only if one of its key with a later, positive issue time has come in |
| StatusReports.NewestCanArrive | agent/action_status.go:171-230 | from every reachable state the newest report of each key can still be delivered |
| StatusReports.TakeMeaning | agent/action_status.go:100-126 | a batch is the oldest keys' reports, which then wait no longer; all others wait as before |
| DnsCompaction.CompactReports | agent/dnswatch.go:268-286 | keeps the last report of each key in last-occurrence order, at most the newest 512 |
| DnsCompaction.CompactIsHomomorphic | agent/dnswatch.go:261-286 | compacting piecewise equals compacting everything at once, despite the cap |
| DnsCompaction.CompactProps | agent/dnswatch.go:268-286 | compaction is idempotent, bounded and keeps one last report a key |
| DnsCompaction.PendingIsCompactHistory | agent/dnswatch.go:261-266 | the pending list is always the compaction of all reports so far |
| DnsWatch.Watcher.Update | agent/dnswatch.go:147-259 | one scan does to every host what the per-host step says, and reports exactly the replaced hosts |
| DnsWatch.NameMeaning | agent/dnswatch.go:151-161 | a host is watched if and only if some item names it in any capitals, and is looked up as the last of them writes it |
| DnsWatch.ReportsEveryItem | agent/dnswatch.go:238-252 | every item that names a changed host has a report with its scope and reference and both snapshots |
| DnsWatch.FirstAnswerIsTaken | agent/dnswatch.go:198-201 | until something answers there is no snapshot, and the first answer is taken at once |
| DnsWatch.SnapshotMeaning | agent/dnswatch.go:184-236 | after any scans there is a snapshot if and only if some scan answered, and it is the answer of the last scan that ended a confirmed streak, or the first answer if none did |
| DnsWatch.ReplacedExactlyWhenConfirmed | agent/dnswatch.go:184-236 | the stable snapshot changes at a scan if and only if three consecutive scans spanning ten seconds spoke for the same change |
| DnsWatch.NeverStraightBack | agent/dnswatch.go:184-236 | no change goes back to the value that the change before it replaced, within five minutes of that one |
| DnsWatch.WatcherReplacesExactlyWhenConfirmed | agent/dnswatch.go:147-259 | the same over any run of the watcher, for as long as a host stays watched |
| DnsWatch.WatcherSnapshotMeaning | agent/dnswatch.go:147-259 | the snapshot of every host over any run of the watcher, likewise |
| ApplyQueue.Queue.Sync | agent/managed_services.go:2239-2280 | a request starts, joins an equal job, is refused as old, or supersedes the pending job |
| ApplyQueue.RequestMeaning | agent/managed_services.go:2239-2280 | a request is closed at once if and only if something else at least as new is applied or next; otherwise it starts, waits with the job of the very same state, or is next in place of any other |
| ApplyQueue.Queue.ApplyFinished | agent/managed_services.go:2230-2235 | closes the finished job's waiters and promotes the pending job |
| ApplyQueue.WaitersCloseOnce | agent/managed_services.go:2202-2280 | over every run each waiter is closed at most once, never while it still waits, and none is forgotten |
| ApplyQueue.IdleClosedAll | agent/managed_services.go:2221-2280 | at quiescence every waiter ever returned has been closed exactly once |
| ApplyQueue.GenerationsRise | agent/managed_services.go:2221-2280 | within a busy period generations rise strictly and waiters wait for their own request |
| ApplyQueue.NewestIsAppliedLast | agent/managed_services.go:2239-2280 | a busy period ends with the first of the newest requests made in it |
| ApplyQueue.TwoAppliesEmptyIt | agent/managed_services.go:2221-2237 | two more applies empty the queue from any state |
| RecordFlusher.Flusher.EndFlush | agent/actions.go:992-1006 | clears the flag only if the write succeeded and no change came meanwhile, otherwise wakes itself |
| RecordFlusher.Serve | agent/actions.go:977-1043 | in every interleaving the file holds some version of the records, and a clear dirty flag means the newest |
| RecordFlusher.Settle | agent/actions.go:1011-1043 | once changes and failures stop, the wake channel and the timer alone bring the file up to date |

## Findings

Properties that the code does not meet as it stands. Each has a lemma at a concrete input, named first, and
the exact condition under which the property holds.

| source | as written | input | intended, and exactly when it holds |
|---|---|---|---|
| agent/actions.go:1966-1986 | the serial lock of a tunnel action that carries a rule ID is per rule, its issue time per tunnel | two tunnel-status actions of one tunnel, one with a rule ID, with different ports, no common entry group and no common chain: both run at once, the older after the newer | competing actions exclude each other and start in issue-time order: if and only if they are not such a split-tunnel pair (`ActionOrder.TunnelAppliesOverlap`, `ActionKeys.StaleShareIsSerialShare`, `ActionOrder.SplitTunnelIsUnsafe`) |
| agent/main.go:9225-9226 | the append test trims the operation, the replacement test does not | " apply " of rule 2 on TCP port 80 beside an entry of rule 1 on TCP port 80 | an apply replaces what it conflicts with: the staged list is that of an exact apply if and only if no entry surviving the removal test has its rule or one of its sockets, and the endpoints stay disjoint if and only if none has one of its sockets (`EntryIndex.PaddedApplyCollides`, `EntryIndex.PaddedApplyAgreesIff`, `EntryGroups.PaddedGroupAgreesIff`, `EntryIndex.PaddedApplyDisjointIff`) |
| agent/main.go:8991-9001 | the plain version takes the transport of a removal without one from the first match, the batch takes the first version | a removal without a transport whose first match is of the second version | both stage the same group: if and only if the removal names a transport, or matches nothing, or first matches an entry of the first version (`EntryGroups.RemovalWithoutTransportDisagrees`, `EntryGroups.SingleRemovalStagesPlainGroupIff`) |
| agent/managed_configs.go:75-154 | backups of one path are restored newest first, and only the first restore still owns the path | /etc/x with [1], /etc/x with [2], then an invalid file: /etc/x keeps [1] | a failing apply or a rollback leaves every path as it was: if and only if for every installed path the file just before its last backup is the original (`ManagedConfigs.RepeatedPathIsNotUndone`, `ManagedConfigs.FailedApplyUndoesIff`, `ManagedConfigs.RollbackUndoesIff`) |
| agent/managed_configs.go:206-219 | a restore deletes the path's generation | [0] replaced by [1]; a second transaction installs [2] and fails; the first one's rollback then skips the path and [1] stays | a rollback leaves on a path what its transaction replaced: if and only if it was the last to install the path and the restore succeeds, or the path holds that already (`ManagedConfigs.FailedAttemptLosesOriginal`, `ManagedConfigs.RollbackRestoresPathIff`) |
| agent/main.go:13019-13041 | the reader gives up on a line end after 108 bytes | a version 1 header of 109 bytes whose first fragment is its first byte | a header of words and 16-bit ports is accepted however it is split: if and only if it is at most 108 bytes long or arrives whole in the first fragment (`ProxyRoundTrip.LongHeaderIsRefused`, `ProxyRoundTrip.V1RoundTrip`) |
| agent/main.go:13019-13102 | a stream whose first fragment could begin a header is read on until that is decided, and for version 2 until the length it would announce | the stream "P"; the stream that is only a line end | a stream that begins with no header is passed on: unless its first fragment and it itself are proper prefixes of "PROXY ", or its first fragment is a proper prefix of the version 2 signature and it is shorter than 16 bytes or than the length it announces; exactly those are refused (`ProxyRoundTrip.LoneLetterIsRefused`, `ProxyRoundTrip.LoneLineEndIsRefused`, `ProxyRoundTrip.PlainStreamIsKept`) |
| agent/main.go:12718-12732 | without a header the guard keeps only what it had read first | "P", then "OST /": only "P" is forwarded | a connection without a header loses no byte: if and only if its first read could not begin a header (`ProxyRoundTrip.SplitRequestLosesBytes`, `ProxyRoundTrip.ReceiveKeepsPayloadIff`) |
| agent/actions.go:1532-1558 | a shared runtime may wait for one queued behind it | a rule moving from nginx to gost with gost queued first: one worker with this batch, two workers with two producers of it | the pool always makes progress: k + 1 workers are enough for k producers; one worker is enough if and only if no runtime waits for a later one, and two are not for two such batches (`BatchProgress.MoveSticks`, `BatchProgress.OneWorkerIsNotEnough`, `BatchProgress.TwoBatchesStickTwoWorkers`, `BatchProgress.InterleavedBatchesProgress`); the agent starts at least eight |
| agent/amneziawg_helper.go:1004-1038 | a UDP packet is checked before the session lock is taken; unlike a TCP connection it is not checked again under it | a packet is checked, a hold comes in and finishes its pass, the packet opens its session | a session to a target forbidden by now is closed by a pass: throughout a run if and only if no packet opens a session whose target is forbidden by then, with no change still before its pass over UDP sessions (`UdpSessions.LateUdpSession`, `UdpSessions.UdpSessionsFollowPolicyIff`) |

## Assumptions

- Issue times are never forgotten: the 24-hour pruning of their table (agent/main.go:15162) is not modelled.
- The times at which DNS scans run never go back.
- Persisted entries are in normal form, as their loader leaves them (agent/runtime_persistence.go:89-101).
- Readers that waited for a runtime gate may be overtaken by the next writer; the Go lock lets them in first.
- Generation and revision counters are unbounded; their wrap-around is not modelled.
- Locks are taken in the order of any strict total order on keys, given as a parameter; the agent sorts texts.
- A rollback closure runs in the same step as the report that fires it. The guards of a completed group are checked one step each, and newer desired states may come in between.
- Between a handoff's start and its end, and again while the job itself cleans up, a participant may prepare any number of transitions with any snapshots.
- The network address library is a parameter: version 2 results hold for every parser whose addresses have four bytes, or sixteen that are not a mapped address.
- A read returns bytes or an error, not both. Blanks are the ASCII ones.
- `disk` in the record flusher is what a restarted agent would load, so an unreadable file counts as no records.
- Restores of managed files fail path by path; the set of failing paths is a parameter.

## Left out

- EntryGroups.StageBatch: stages the groups of a batch one after another in any order; the agent keeps them all open and routes each action to its own.
- Access-limit maintenance runs actions that were never remembered, so the ordering theorems do not cover it.
- The restart of shared services after a rolled-back handoff, and the configuration a handoff batch carries along: effects beside the outcome.
- Trimming and case-folding of texts that the agent only compares: such texts are enumerations.
- The bodies of runtime actions, shell commands, readiness probes and process supervision: nondeterministic outcomes.
- HTTP transport, event stream, heartbeat payloads, metrics and logging.
- UDP sessions and rate limits of the protocol guard, and read deadlines.
- Closing the AmneziaWG relay itself, its idle time-outs, and the packets it drops for their size or sender before any session is looked up.
- Side files of managed configurations, file ownership and atomic-write mechanics.
- The five-second ticker's exact time, debounce length and retry back-off: a flush may begin at any moment.
- Signatures over the normal form of an entry group are taken to be functions of it; their text is not modelled.
- Panel address migration, whose agreement rests on directory synchronization after a rename.
