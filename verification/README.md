# The HDP bridge, modelled and proved in Dafny

This project models the concurrent protocol core of the Hermes device bridge and proves what it
promises. Everything the event loop runs between two awaits is one atomic step; every property is
stated over all interleavings of such steps.

`dafny verify dfyconfig.toml` checks the whole project.

## What is modelled

**Invocations** (`Futures`, `Invocations`, `Capabilities`, `Policy`, `Targets`, `Approvals`, `Calls`,
`CallSafety`, `Cancellation`, `Outcomes`, `Bridge`, `BridgeSafety`, `BridgeTheorems`, `BridgeEffects`,
`Replies`). One `ctl_invoke` is an automaton
(`Calls.Call`) with three write-once futures and a history of what happened to its id. Settling a
future and the coroutine resuming are different steps. `Bridge` puts any number of calls, the
connections, the sockets, the registry rows, the policy snapshot, the approval manager and the
revocations under way into one state, and `Bridge.Action` lists everything that can happen: a request,
an approval wait starting or timing out, frames, timers, client cancels, the cancel verb, disconnects,
reconnects, re-advertisements, reloads, decisions, revocations.

**Enrollment, roles, bootstrap** (`Enrollment`, `EnrollmentRuns`, `EnrollmentOutcomes`, `Roles`,
`Bootstrap`). The tables are maps; a `with conn:` block is one step that is undone if it raises.

**Handshake** (`Registry`, `Credentials`, `Pairing`, `Trackers`, `Handshake`, `Connection`,
`HandshakeSafety`, `HandshakeOutcomes`, `SignedBytes`, `Possession`, `Sentinel`). What a frame does to one
connection and to the shared tables, which may change in any way between two frames; and what exactly a signature is over.

**Client multiplexer and ids** (`Transport`, `TransportOutcomes`, `ControlServer`, `ControlOutcomes`,
`Ulid`).

Classes of the source are classes here (`ApprovalManager`, `InvocationsMem`, `PolicyEngine`,
`EnrollmentCoordinator`, `DeviceRoleManager`, `UsbBootstrapService`, `PairingCodes`, `Registry`,
`CredentialTable`, `FrameTrackers`, `NodeConnection`, `SentinelHandler`, `SocketTransport`, `Minter`): each method's
`ensures` ties its new state to a function of the old one, and the properties are proved about that
function and about runs of it. The `...Exactly` lemmas and the `...Outcomes` and `...Effects` modules say what
those functions do in terms of the stored fields alone, and that what should happen does.

Modelling conventions:

- Invocation ids, nonces, device ids, credentials, envelope ids and enrollment identifiers are fresh
  when minted, as their randomness makes them. Hashes, digests and key fingerprints are injective, so
  tables are keyed by the text itself. Signature verification, key usability and the encoding of a
  pairing code are function parameters.
- Clocks, random draws, file contents and what a peer sends are parameters of the steps.
- A timer or a task cancellation first cancels the future being awaited and only then lets the
  coroutine run. In that window a still pending entry can hold a cancelled ack or result:
  `BridgeTheorems.PendingTable` states the exact invariant with that one exception.
- The cancel verb, hitting a call that waits for an approval, removes its entry but does not wake the
  wait. The call can still be dispatched later; it can then never succeed.
- `Registry.register` writes the state column back to active, so nothing here claims that a revoked
  device's row stays revoked.

## Results that are negative or need a condition

- `Approvals.ConsistencyExactly`: creating an approval under an id that has a terminal row is the one
  operation that breaks the tables (`Approvals.ReusedIdStrandsItsWaiter` shows a waiter stranded by it);
  with distinct ids, as they are minted, `Approvals.RunsAreAccounted` holds.
- `Transport.HangsExactly`: a waiting caller is never released exactly when its write succeeded although
  its connection's read loop was over, or when that loop was cancelled before its first turn, in which
  case not even its `finally` runs. `Transport.AWriteAfterTheEnd` and
  `Transport.AClosureBeforeTheFirstTurn` reach both, and `Transport.NobodyHangs` excludes them by two
  premises, both visible to whoever writes or closes.
- `ControlServer.AnsweredExactly` and `ControlServer.CancelledYetAnswered`: an invoke told `cancelled` is
  answered all the same if the future its call awaited had failed by the time the cancellation was
  delivered, and the event loop hands on that failure instead (`asyncio.wait_for` of Python 3.11 does).
  `ControlServer.SilencedExactly` says which invokes can still be answered so.
- `BridgeTheorems.AckBeforeInvoke`: an ack for a call that waits for a decision is taken although nothing was
  sent; `BridgeTheorems.InvokeComesFirst` shows that this takes such a wait.
- `Ulid.RunIncreases`: minted ids increase exactly when no call bumps an all-ones random part. The ULID
  specification (section "Monotonicity") makes that case fail; the code masks it and starts over
  (`Ulid.WrapGoesBack`).
- `Ulid.FormatOfParse` and `Ulid.SharpSOverflows`: parsing then formatting gives the upper-cased text
  exactly when upper-casing expands no character. `parse` accepts a few non-ASCII texts, some with more
  than 80 random bits.
- `Roles.IndexNeeded`: without the unique index on the primary role, a promotion during a live
  primary-target enrollment leads to two primaries; `Roles.OneLiveSuffices` shows that otherwise the
  one-live rule is enough.
- A handshake whose hello repeats a capability name and version (or completes a second primary) spends
  its code or enrollment and gains nothing: `HandshakeSafety.GainExactly` includes that condition.

## Model

| member | source | states |
|---|---|---|
| BridgeTheorems.PendingTable | hdp-bridge/hdp_bridge/invocations.py:60-191 | in every reachable state: a pending id was removed by nobody, a removed one exactly once, its open futures are as promised, a finished call's id is gone, and every cancel frame followed the removal |
| BridgeTheorems.NothingIsUndone | hdp-bridge/hdp_bridge/control.py:735-867 | over any run no future is settled twice, no id returns to the table, no outcome, history or policy snapshot changes |
| BridgeTheorems.SuccessIsEarned | hdp-bridge/hdp_bridge/control.py:1085-1118 | ok=true implies that the invoke was sent, no cancel ever was, an ack and after it a result arrived, all on the one connection generation, and the data conforms to the descriptor captured at resolution |
| BridgeTheorems.InvokeComesFirst | hdp-bridge/hdp_bridge/control.py:595-738 | in every reachable state, the invoke of a call nobody was asked about comes before every ack, result, cancel or removal of its id |
| BridgeTheorems.AckBeforeInvoke | hdp-bridge/hdp_bridge/invocations.py:85-96 | how a call that waited for a decision succeeds on an ack that came before its invoke |
| BridgeTheorems.OnlyAuthorizedInvokes | hdp-bridge/hdp_bridge/control.py:560-738 | at most one invoke frame per id, on the resolved connection, only if the request's own policy snapshot resolves its device and capability to session, device or always, or to ask with a standing grant or an approval of that very id |
| BridgeTheorems.JudgedByItsSnapshot | hdp-bridge/hdp_bridge/control.py:556-611 | the same in terms of the four layers: behind every invoke frame the first layer of that snapshot that says anything lets the call go, or says to ask and it was asked |
| BridgeEffects.RequestExactly | hdp-bridge/hdp_bridge/control.py:556-738 | what a request does, exactly: nothing but capture the snapshot if its target does not resolve; else one call on the resolved device, connection and descriptor, which is sent, waits for a decision or is denied as the snapshot and the standing grants say; nobody else is touched |
| BridgeEffects.DeniedByTheSnapshot | hdp-bridge/hdp_bridge/control.py:716-738 | in every run, a denial by policy means a snapshot that says deny, or ask with no approval manager, and nothing sent |
| BridgeEffects.DecisionReachesItsCall | hdp-bridge/hdp_bridge/control.py:635-689 | in every reachable state a decision about a call that waits for one is what the call hears at its next step, whether its wait has begun or not |
| BridgeEffects.NoApprovalTimesOutEarly | hdp-bridge/hdp_bridge/approvals.py:131-171 | in every run a call is told its approval timed out only if the expiry ran at some deadline not before its own |
| BridgeTheorems.SomebodyApproved | hdp-bridge/hdp_bridge/approvals.py:173-193 | under ask, behind every invoke frame is a decision for that id, a wider decision covering it, or a grant the database already held, of a mode that covers it and not expired |
| BridgeTheorems.DeadlineAnswers | hdp-bridge/hdp_bridge/control.py:635-643 | a call waiting for a decision always finds an answer at its deadline |
| BridgeTheorems.DisconnectIsExact | hdp-bridge/hdp_bridge/connection.py:769-784 | a disconnect removes and releases exactly the calls pending on that generation, changes no other call, and gives up presence only if it still owns it |
| BridgeTheorems.DownForGood | hdp-bridge/hdp_bridge/connection.py:769-784 | once a generation is down no pending entry refers to it, after any run |
| BridgeTheorems.EveryRunFinishes | hdp-bridge/hdp_bridge/control.py:800-856 | in every run, whatever comes in between, a released caller takes at most five more steps of its own, and until it has finished it can take one |
| BridgeTheorems.FinishesUnaided | hdp-bridge/hdp_bridge/control.py:800-856 | and a run of those steps alone, with no timer and no frame, finishes it |
| BridgeTheorems.RevokedWhicheverSideRemoves | hdp-bridge/hdp_bridge/revocation.py:50-73 | once the reason is set, every call on that connection that is failed, by either side and in any order, is failed as revoked |
| BridgeTheorems.RevokedReply | hdp-bridge/hdp_bridge/control.py:800-811 | such a call that ends by disconnection replies revoked |
| BridgeTheorems.NothingPendingAtReturn | hdp-bridge/hdp_bridge/revocation.py:68-73 | whenever a revocation that found a live connection returns, no call for the device is pending, and those it found are released as revoked |
| BridgeTheorems.RevocationMarksItsConnection | hdp-bridge/hdp_bridge/revocation.py:40-58 | the device's row alone is marked; the reason is on the connection before the first await, if a credential was invalidated and the device is connected; and each such revocation counts, however many overlap |
| BridgeEffects.RevocationSparesOthers | hdp-bridge/hdp_bridge/credentials.py:59-74 | revoking changes the state of that device's row alone, no other row, connection or call; a request naming another device resolves as before |
| BridgeEffects.RegistrationExactly | hdp-bridge/hdp_bridge/connection.py:632-660 | a registration gives the device its row and its presence on the new connection and changes nobody else's |
| BridgeEffects.AdvertisementExactly | hdp-bridge/hdp_bridge/connection.py:665-699 | a re-advertisement replaces the device's capabilities exactly if it comes on the connection that owns its presence |
| BridgeEffects.DisconnectionTakesOneDown | hdp-bridge/hdp_bridge/connection.py:769-784 | a disconnect takes down that socket and no other, and leaves rows, approvals and policy alone |
| BridgeEffects.ReloadExactly | hdp-bridge/hdp_bridge/policy.py:191-241 | a reload replaces the snapshot and touches nothing under way |
| BridgeEffects.CancelVerbExactly | hdp-bridge/hdp_bridge/control.py:1120-1148 | the cancel verb takes exactly a pending entry out and then sends the cancel frame on its connection |
| BridgeEffects.CancelVerbReleases | hdp-bridge/hdp_bridge/control.py:1120-1148 | when it returns both futures are settled, an open result with its refusal, and a caller past its approval wait is released |
| BridgeEffects.WorldIsFree | hdp-bridge/hdp_bridge/control.py:402-528 | nothing in the model keeps frames, requests, decisions, disconnects, revocations, timers or cancels from happening |
| BridgeTheorems.ReachableIsSafe | hdp-bridge/hdp_bridge/control.py:544-867 | the whole invariant holds in every state any run reaches |
| Replies.RepliesTellWhatHappened | hdp-bridge/hdp_bridge/control.py:660-867 | in every run each reply explains its call: denied or timed-out approval, refused by policy and never sent, cancelled after a timeout, acked before any result, whose disconnection, what was wrong with the result, or the node's own error unchanged |
| Replies.ToldKept | hdp-bridge/hdp_bridge/control.py:735-867 | no step of a call makes its reply say what did not happen |
| Outcomes.AnswerIsPassedOn | hdp-bridge/hdp_bridge/control.py:743-867 | a sent invoke that is acked and answered on its connection ends with the reply that result deserves: the data if it conforms, schema drift if not, the node's error if it has one, malformed if not |
| Outcomes.TimersEnd | hdp-bridge/hdp_bridge/control.py:765-853 | a timer takes the entry out first, then sends the cancel frame, and gives the reply of that wait, whatever arrives late |
| Outcomes.AnAnswerInTimeCounts | hdp-bridge/hdp_bridge/control.py:765-856 | an ack or result that is there when its timer fires counts, unless the timeout is delivered in its stead |
| Outcomes.FailedSendEnds | hdp-bridge/hdp_bridge/control.py:746-763 | a failed send takes the entry out, sends no cancel frame and leaves no future open |
| Outcomes.DecisionEndsTheWait | hdp-bridge/hdp_bridge/control.py:689-715 | an approval sends the call on; a denial or expiry refuses it with its own code and sends nothing |
| Outcomes.CancellationEnds | hdp-bridge/hdp_bridge/control.py:644-665 | a noticed cancellation takes the entry out, sends a cancel frame if anything was sent, ends as cancelled and leaves no future open |
| Outcomes.DisconnectionEnds | hdp-bridge/hdp_bridge/control.py:666-688 | a disconnection ends each of the three waits with its own reply, and the code says whether the device was revoked |
| Outcomes.LateFramesSettleNothing | hdp-bridge/hdp_bridge/invocations.py:85-119 | frames about a removed id or from another connection settle nothing |
| BridgeSafety.ActionIsLocal | hdp-bridge/hdp_bridge/control.py:544-867 | every action moves each call by exactly one step of its own automaton, or not at all, and only a request adds a call |
| BridgeSafety.BeginsOnLiveConnection | hdp-bridge/hdp_bridge/control.py:568-593 | a new call is minted on a connection that is up and owns the device's presence |
| BridgeSafety.InvKept | hdp-bridge/hdp_bridge/control.py:544-867 | every action keeps the bridge's invariant |
| BridgeSafety.ConnectionsKept | hdp-bridge/hdp_bridge/connection.py:632-660 | the connections map only holds sockets that are up and belong to that device |
| BridgeSafety.PendingKept | hdp-bridge/hdp_bridge/connection.py:769-784 | every pending call is on a socket that is up |
| CallSafety.StepKeepsSound | hdp-bridge/hdp_bridge/control.py:735-867 | every step of one call keeps table, futures, history and outcome consistent |
| CallSafety.SettledOnce | hdp-bridge/hdp_bridge/invocations.py:85-119 | futures are write-once and a removed id stays removed |
| CallSafety.ReleasedStays | hdp-bridge/hdp_bridge/control.py:1120-1148 | a released caller stays released |
| CallSafety.OwnStepsDescend | hdp-bridge/hdp_bridge/control.py:735-867 | every own step of a released caller, whatever its send or the event loop does, brings it nearer its end, and no other step moves it |
| CallSafety.ReleasedFinishes | hdp-bridge/hdp_bridge/control.py:858-867 | a released caller can take its own next step, and each one brings it nearer the end |
| Invocations.FailReleases | hdp-bridge/hdp_bridge/invocations.py:175-191 | failing an entry leaves open at most the result of an unacknowledged one |
| Invocations.InvocationsMem.MintFor | hdp-bridge/hdp_bridge/invocations.py:60-83 | one fresh entry with open futures is added, nothing else changes |
| Invocations.InvocationsMem.MarkAcked | hdp-bridge/hdp_bridge/invocations.py:85-96 | acks exactly a pending, not yet acked entry of that connection |
| Invocations.InvocationsMem.Resolve | hdp-bridge/hdp_bridge/invocations.py:98-119 | removes and settles exactly a pending entry of that connection, its ack untouched |
| Invocations.InvocationsMem.Expire | hdp-bridge/hdp_bridge/invocations.py:121-126 | removes an entry and touches no future |
| Invocations.InvocationsMem.Fail | hdp-bridge/hdp_bridge/invocations.py:159-191 | removes and fails exactly the entries the filters reach, and lists them in the table's order |
| Invocations.InvocationsMem.FailAllForDevice | hdp-bridge/hdp_bridge/invocations.py:134-151 | exactly the device's entries are failed and listed, and none is left |
| Invocations.InvocationsMem.FailAllForConnection | hdp-bridge/hdp_bridge/invocations.py:153-157 | exactly the connection's entries are failed and listed, and none is left |
| Capabilities.ValidateExact | hdp-spec/hdp_proto/capabilities.py:79-119 | the recursive check accepts exactly the conforming values |
| Capabilities.MismatchNamesAFault | hdp-spec/hdp_proto/capabilities.py:79-119 | the path in a mismatch leads to a place that really is at fault |
| Policy.AcceptedExactly | hdp-bridge/hdp_bridge/policy.py:54-130 | a document is accepted exactly when it renders a valid table: nothing dropped, invented or let through |
| Policy.CapabilityNameExactly | hdp-bridge/hdp_bridge/policy.py:28-28 | capability names are two lower-case words joined by a dot |
| Policy.ModeWords | hdp-bridge/hdp_bridge/policy.py:17-24 | the five words of the policy file |
| Policy.ConfiguredExactly | hdp-bridge/hdp_bridge/policy.py:82-103 | a default device needs a rule for its capability, global or of any device |
| Policy.KnownExactly | hdp-bridge/hdp_bridge/policy.py:292-316 | the devices that must be known are the keys of the devices section and the texts that are default devices |
| Policy.FailsClosed | hdp-bridge/hdp_bridge/policy.py:132-145 | any mode but deny was written down by the operator for that device and capability |
| Policy.FirstLayerDecides | hdp-bridge/hdp_bridge/policy.py:132-159 | the decision is what the first of the four layers that says anything says, and the default device is the configured one |
| Policy.PolicyEngine.Reload | hdp-bridge/hdp_bridge/policy.py:191-241 | the snapshot and token are replaced exactly by a changed (or forced), readable, known-device, valid document, and otherwise stay; it raises exactly on a mapping key that cannot be hashed, or a device named by something that is no text |
| Targets.ResolvedExactly | hdp-bridge/hdp_bridge/control.py:1005-1083 | resolution succeeds exactly when a device is meant and a version shared, and is then that device at the greatest mutual version on its live connection |
| Targets.FailuresExactly | hdp-bridge/hdp_bridge/control.py:973-1074 | each failure code characterises its state, in both directions |
| Targets.FailureLists | hdp-bridge/hdp_bridge/control.py:1039-1074 | the candidate list is complete, sorted and without repeats; the version list is exact |
| Targets.RowOrderIrrelevant | hdp-bridge/hdp_bridge/control.py:1006-1015 | the order of the registry's rows does not matter |
| Targets.CandidateExactly | hdp-bridge/hdp_bridge/control.py:1005-1015 | a candidate is an active, connected row with a capability of that name |
| Targets.FirstDescriptorExactly | hdp-bridge/hdp_bridge/control.py:1075-1083 | of several descriptors for one version the first listed counts |
| Approvals.StepConsistent | hdp-bridge/hdp_bridge/approvals.py:75-171 | every operation keeps the tables consistent and never rewrites a terminal row |
| Approvals.ConsistencyExactly | hdp-bridge/hdp_bridge/approvals.py:75-171 | an operation keeps the tables consistent unless, and only unless, it creates an approval under a recorded id |
| Approvals.NoCollision | hdp-bridge/hdp_bridge/approvals.py:195-225 | a decision records exactly one row for a pending approval and otherwise changes nothing |
| Approvals.StepGrants | hdp-bridge/hdp_bridge/approvals.py:227-249 | every grant traces to an approved decision with that device, capability and scope |
| Approvals.RunsAreAccounted | hdp-bridge/hdp_bridge/approvals.py:75-171 | over any run with distinct ids each approval is pending, terminal or abandoned, never two of them, and waiters agree with the rows |
| Approvals.DeadlineReleases | hdp-bridge/hdp_bridge/approvals.py:166-171 | an unsettled waiter has a pending entry, and expiry at its deadline settles it with the row on record |
| Approvals.ExpiryExactly | hdp-bridge/hdp_bridge/approvals.py:131-143 | after an expiry exactly what was pending with its deadline ahead is pending, untouched; exactly what was due is recorded as expired and told; grants stay |
| Approvals.DecisionExactly | hdp-bridge/hdp_bridge/approvals.py:109-129 | a decision takes exactly a pending approval off the table, records who decided what and how widely, and reaches the waiter there is or the next one |
| Approvals.AbandonExactly | hdp-bridge/hdp_bridge/approvals.py:145-152 | abandoning drops entry and mail, cancels a waiter that waits, and leaves records, grants and other ids alone |
| Approvals.WaitExactly | hdp-bridge/hdp_bridge/approvals.py:154-166 | a wait yields the answer at hand and uses it up, or an unsettled future with that approval's own deadline, and decides nothing |
| Approvals.CreationExactly | hdp-bridge/hdp_bridge/approvals.py:75-103 | creating makes exactly an id that is not pending pending, as asked |
| Approvals.ReusedIdStrandsItsWaiter | hdp-bridge/hdp_bridge/approvals.py:195-225 | a concrete run with a reused id that leaves a waiter nothing can expire |
| Approvals.ApprovalManager.Create | hdp-bridge/hdp_bridge/approvals.py:75-103 | adds the entry, or refuses a pending id |
| Approvals.ApprovalManager.Resolve | hdp-bridge/hdp_bridge/approvals.py:109-129 | take, record, grant and notify, as the specification function |
| Approvals.ApprovalManager.Grant | hdp-bridge/hdp_bridge/approvals.py:227-249 | the grant a scope leads to, and no other |
| Approvals.ApprovalManager.Notify | hdp-bridge/hdp_bridge/approvals.py:251-256 | settles the waiter, or leaves the resolution in the mailbox |
| Approvals.ApprovalManager.ExpirePending | hdp-bridge/hdp_bridge/approvals.py:131-143 | expires the due entries one by one, as the specification function, and lists them |
| Approvals.ApprovalManager.Abandon | hdp-bridge/hdp_bridge/approvals.py:145-152 | drops entry, waiter and mail, cancelling an open waiter |
| Approvals.ApprovalManager.StartWait | hdp-bridge/hdp_bridge/approvals.py:154-166 | the answer at hand, an error, or the future to await |
| Enrollment.EnrollmentCoordinator.Start | hdp-bridge/hdp_bridge/enrollment.py:47-89 | one new live row, or an error and every table as it was |
| Enrollment.EnrollmentCoordinator.ApproveCandidate | hdp-bridge/hdp_bridge/enrollment.py:91-93 | marks exactly an open row |
| Enrollment.EnrollmentCoordinator.ApprovePrimary | hdp-bridge/hdp_bridge/enrollment.py:95-105 | marks exactly an open row, by the current primary |
| Enrollment.EnrollmentCoordinator.Block | hdp-bridge/hdp_bridge/enrollment.py:107-133 | blocks an open row and sets the lock, or changes nothing |
| Enrollment.EnrollmentCoordinator.Deny | hdp-bridge/hdp_bridge/enrollment.py:135-139 | denies an open row, by the current primary |
| Enrollment.EnrollmentCoordinator.Cancel | hdp-bridge/hdp_bridge/enrollment.py:141-143 | denies an open row |
| Enrollment.EnrollmentCoordinator.SetTerminalState | hdp-bridge/hdp_bridge/enrollment.py:243-259 | the terminal update and its errors |
| Enrollment.EnrollmentCoordinator.Consume | hdp-bridge/hdp_bridge/enrollment.py:158-204 | the consuming update and the rolled-back expiry, as the specification function |
| Enrollment.Database.ExpireLive | hdp-bridge/hdp_bridge/enrollment.py:261-266 | expires exactly the overdue live rows |
| EnrollmentOutcomes.ConsumeExactly | hdp-bridge/hdp_bridge/enrollment.py:158-204 | consuming succeeds exactly on a row bound to these fingerprints, with both marks, approved, neither settled nor expired; it grants that row's role and changes its state alone; each error is explained |
| EnrollmentOutcomes.StartExactly | hdp-bridge/hdp_bridge/enrollment.py:47-89 | a start succeeds exactly with a usable, unused identifier, no lock and no other request still waiting; the new row, the rows it expires, and nothing else |
| EnrollmentOutcomes.CandidateExactly | hdp-bridge/hdp_bridge/enrollment.py:91-93 | the candidate approval marks exactly a row that still waits |
| EnrollmentOutcomes.PrimaryExactly | hdp-bridge/hdp_bridge/enrollment.py:95-143 | approval, denial and block take a device that is primary now and a row that still waits; what each writes |
| EnrollmentOutcomes.DetailsExactly | hdp-bridge/hdp_bridge/enrollment.py:145-156 | details are those of a row that still waits |
| EnrollmentOutcomes.PerformExactly | hdp-bridge/hdp_bridge/enrollment.py:47-204 | in a run each operation goes through exactly when it may and leaves its own row in its own state |
| EnrollmentOutcomes.ApprovalsSuffice | hdp-bridge/hdp_bridge/enrollment.py:47-204 | after a successful start a consumption in time, of a request nobody settled, succeeds exactly if the candidate has agreed and, where there was a primary, a primary has, in either order and whatever else happened |
| EnrollmentOutcomes.MarksAreCollected | hdp-bridge/hdp_bridge/enrollment.py:206-259 | until it is settled or expires a request keeps its bindings and collects exactly the marks it is given |
| EnrollmentRuns.StepDiscipline | hdp-bridge/hdp_bridge/enrollment.py:47-143 | one live row at most, terminal rows never change, what raises changes nothing, the lock stays and stops every start |
| EnrollmentRuns.OnlyPrimariesDecide | hdp-bridge/hdp_bridge/enrollment.py:95-143 | approvals, denials and blocks come from a device primary at that moment, and a row comes into each state only by the operation for it |
| EnrollmentRuns.RunDiscipline | hdp-bridge/hdp_bridge/enrollment.py:158-266 | the same over any run |
| EnrollmentRuns.BlockIsFinal | hdp-bridge/hdp_bridge/enrollment.py:107-133 | after one successful block no start ever succeeds |
| EnrollmentRuns.EveryConsumptionJustified | hdp-bridge/hdp_bridge/enrollment.py:158-241 | each consumption followed a start with those fingerprints, in time, a candidate approval, and an approval by a device primary at that moment unless there was none at the start; and none is repeated |
| Roles.DeviceRoleManager.Promote | hdp-bridge/hdp_bridge/device_roles.py:18-34 | demotes every primary and promotes one active device, or changes nothing |
| Roles.DeviceRoleManager.MayRemovePrimary | hdp-bridge/hdp_bridge/device_roles.py:36-46 | true exactly when no active secondary would be left without a primary |
| Roles.DeviceRoleManager.RemovePrimary | hdp-bridge/hdp_bridge/device_roles.py:48-59 | deletes the row exactly when nothing forbids it |
| Roles.PromoteExactly | hdp-bridge/hdp_bridge/device_roles.py:18-34 | a promotion succeeds exactly for an active device, which is then the one primary, and changes no other device's row |
| Roles.BeforeEnrollment | hdp-bridge/hdp_bridge/store/migrations/003_usb_sentinel_pairing.sql:6-24 | the empty store, and any devices with one primary at most and no enrollment yet, satisfy what the run lemmas start from |
| Roles.OnePrimaryAlways | hdp-bridge/hdp_bridge/connection.py:562-576 | one primary at most in every run of completions, promotions, removals, registrations and revocations |
| Roles.OneLiveSuffices | hdp-bridge/hdp_bridge/enrollment.py:57-89 | without a promotion during a live primary-target request the index is never needed |
| Roles.IndexNeeded | hdp-bridge/hdp_bridge/store/migrations/003_usb_sentinel_pairing.sql:9-9 | a concrete run that would have two primaries without the index |
| Roles.IndexFires | hdp-bridge/hdp_bridge/connection.py:652-656 | the index refuses a completion exactly when a second primary would appear |
| Roles.RemovalExactly | hdp-bridge/hdp_bridge/device_roles.py:48-59 | exactly a lone active primary that no credential, enrollment or lock names can be removed, and then it is all that goes |
| Roles.ReferencesHold | hdp-bridge/hdp_bridge/store/migrations/003_usb_sentinel_pairing.sql:6-24 | over any run whoever approved an enrollment or set the lock stays on record |
| Roles.RefreshExactly | hdp-bridge/hdp_bridge/registry.py:84-105 | registering activates a row or adds a secondary, revoking deactivates it, and neither changes anything else |
| Roles.CompletionExactly | hdp-bridge/hdp_bridge/connection.py:562-624 | a completion adds one active device with the approved role, the proven key and one credential, and consumes that enrollment |
| Roles.EnrolledStays | hdp-bridge/hdp_bridge/store/migrations/001_initial.sql:14-19 | a device with a credential row can never be removed, keeps its key, and changes role only by promotion |
| Bootstrap.UsbBootstrapService.BeginSecondary | hdp-bridge/hdp_bridge/usb_bootstrap.py:99-152 | the peer is closed on every exit; success means a row bound to this host and key with a verified candidate approval; an error leaves the identifier dead |
| Bootstrap.UsbBootstrapService.Attempt | hdp-bridge/hdp_bridge/usb_bootstrap.py:99-152 | whatever others do during its three awaits, a candidate approval is recorded only after a signature verified under the bound key |
| Bootstrap.SucceedsExactly | hdp-bridge/hdp_bridge/usb_bootstrap.py:99-152 | if nobody settles the request meanwhile, an attempt succeeds exactly when the owner agrees, the service is configured, the key usable, a primary online if there is one, the start goes through, a valid approval comes back in time and the primary can be told |
| Bootstrap.FailedBootstrapIsOver | hdp-bridge/hdp_bridge/usb_bootstrap.py:140-152 | after an error no later consume of the identifier succeeds, under a non-decreasing clock |
| Bootstrap.BindingsSurvive | hdp-bridge/hdp_bridge/enrollment.py:206-259 | whatever others do during an await, the row's bindings and candidate mark stay |
| Registry.Registry.Register | hdp-bridge/hdp_bridge/registry.py:66-116 | one atomic upsert and full replacement of the capability rows; it fails exactly on an unserialisable or repeated capability and then changes nothing |
| Registry.UpsertExactly | hdp-bridge/hdp_bridge/registry.py:66-105 | what a registration writes into its own device's row, first or again, and that no other row changes |
| Registry.RegisterIsRolesRegister | hdp-bridge/hdp_bridge/registry.py:84-105 | seen through the enrollment tables, registering a record is the role rules' registration |
| Registry.ReRegistrationKeeps | hdp-bridge/hdp_bridge/registry.py:84-95 | any sequence of registrations keeps role, enrolled key and first pairing time |
| Credentials.CredentialTable.Issue | hdp-bridge/hdp_bridge/credentials.py:16-27 | adds one live row |
| Credentials.CredentialTable.VerifyAndResolve | hdp-bridge/hdp_bridge/credentials.py:41-56 | the scan's answer |
| Credentials.CredentialTable.Revoke | hdp-bridge/hdp_bridge/credentials.py:59-74 | revokes the device's live rows and counts exactly those |
| Credentials.ResolveExact | hdp-bridge/hdp_bridge/credentials.py:41-56 | a secret resolves to a device exactly when a live row of it holds that secret |
| Credentials.RevocationExact | hdp-bridge/hdp_bridge/credentials.py:59-74 | afterwards nothing resolves to that device and everything else still does |
| Credentials.IssueResolves | hdp-bridge/hdp_bridge/credentials.py:16-27 | an issued secret resolves to its device and disturbs no other |
| Pairing.PairingCodes.Mint | hdp-bridge/hdp_bridge/pairing.py:63-95 | the first sample that is not live gets a fresh row, reusing a dead slot |
| Pairing.FirstFreeExactly | hdp-bridge/hdp_bridge/pairing.py:63-95 | minting takes the first sample that is no live code and gives up exactly if all are |
| Pairing.PairingCodes.Burn | hdp-bridge/hdp_bridge/pairing.py:136-159 | charges every live code, destroys those that ran out, and counts them |
| Pairing.PairingCodes.Consume | hdp-bridge/hdp_bridge/pairing.py:162-175 | wins exactly on a live code |
| Pairing.RunsFaithful | hdp-bridge/hdp_bridge/pairing.py:63-175 | after any run each row tells exactly its history: mints, charges, redemption |
| Pairing.BudgetIsExact | hdp-bridge/hdp_bridge/pairing.py:114-133 | the stored status is the history's; a pending code's budget is five minus its charges, in 1..5; consuming succeeds exactly when pending |
| Pairing.DeadUntilMinted | hdp-bridge/hdp_bridge/pairing.py:152-158 | a redeemed or five times charged code never lives again before its next mint |
| Trackers.FrameTrackers.Admit | hdp-bridge/hdp_bridge/connection.py:264-269 | drops exactly a remembered id and remembers any other |
| Trackers.FrameTrackers.RememberId | hdp-bridge/hdp_bridge/connection.py:739-742 | a FIFO of at most 256 |
| Trackers.FrameTrackers.RecordMalformed | hdp-bridge/hdp_bridge/connection.py:744-751 | appends, prunes and reports an excess of ten |
| Trackers.FifoIsLast256 | hdp-bridge/hdp_bridge/connection.py:264-269 | the FIFO is the last 256 accepted ids of the whole history, so drops are exact |
| Trackers.RepeatsAreFarApart | hdp-bridge/hdp_bridge/connection.py:739-742 | two acceptances of one id are more than 256 acceptances apart |
| Trackers.DroppedWhileNear | hdp-bridge/hdp_bridge/connection.py:264-269 | an id is dropped exactly while its last acceptance is within 256 |
| Trackers.WindowIsExact | hdp-bridge/hdp_bridge/connection.py:744-751 | the pruned list is the full history of the last 60 s; the connection closes exactly when the eleventh-last malformed frame is that recent |
| Connection.NodeConnection.HandleFrame | hdp-bridge/hdp_bridge/connection.py:244-302 | the dispatch, as `Handshake.Receive` |
| Connection.NodeConnection.HandleHello | hdp-bridge/hdp_bridge/connection.py:373-432 | the three kinds of hello |
| Connection.NodeConnection.HandlePairingHello | hdp-bridge/hdp_bridge/connection.py:454-482 | liveness without consumption, or redemption without a key |
| Connection.NodeConnection.HandleEnrollmentHello | hdp-bridge/hdp_bridge/connection.py:434-452 | a challenge under the enrolling context, or refusal |
| Connection.NodeConnection.HandleProof | hdp-bridge/hdp_bridge/connection.py:533-582 | one attempt, then the purpose of the challenge |
| Connection.NodeConnection.CompletePairing | hdp-bridge/hdp_bridge/connection.py:600-624 | row, role, presence, key, credential, in that order |
| Connection.NodeConnection.RegisterDevice | hdp-bridge/hdp_bridge/connection.py:632-660 | what is written when registration or the role update is refused |
| HandshakeSafety.GainExactly | hdp-bridge/hdp_bridge/connection.py:373-482 | a frame gains a device exactly by a live credential of a key-less device, a live code without a key where no coordinator is configured, or a verified proof whose purpose holds; and is then welcomed accordingly |
| HandshakeSafety.ChallengeExactly | hdp-bridge/hdp_bridge/connection.py:511-531 | a challenge becomes outstanding exactly by a hello that entitles to it, with a nonce drawn for it and the matching context |
| HandshakeSafety.DeviceIsEarned | hdp-bridge/hdp_bridge/connection.py:533-582 | over any run a device id is gained once, by one frame; a proof answered a challenge this connection opened and nothing had answered; at most one challenge is ever sent |
| HandshakeSafety.NothingSpentBeforeProof | hdp-bridge/hdp_bridge/connection.py:454-482 | no enrollment, credential or device row changes before the proof verifies, but for key-less hellos; no known device changes role, key or credentials |
| HandshakeSafety.CodesExactly | hdp-bridge/hdp_bridge/connection.py:484-497 | exactly which frames redeem a code, which charge the budget, and which touch no code |
| HandshakeSafety.EnrollingCompletes | hdp-bridge/hdp_bridge/connection.py:562-576 | a verified enrollment proof does exactly what the role rules' completion does |
| HandshakeOutcomes.GainIsStored | hdp-bridge/hdp_bridge/connection.py:600-660 | whoever gains a device is present under it; one that comes back keeps role, key and credentials; a new one has the approved role, the offered key and the credential it is welcomed with; no other row changes |
| HandshakeOutcomes.ProvenKeyIsStored | hdp-bridge/hdp_bridge/connection.py:533-624 | over any run the key stored for a new device is the one its proof verified under |
| HandshakeOutcomes.RefusalsExactly | hdp-bridge/hdp_bridge/connection.py:373-624 | a refused hello or proof ends the connection with an authentication failure, or without a word exactly where the handler raises |
| HandshakeOutcomes.EnrolledComesBack | hdp-bridge/hdp_bridge/connection.py:403-432 | a device with an enrolled key and a live credential comes back over any new connection by signing the nonce under that key and the reconnecting context, whatever happens to the tables in between |
| HandshakeOutcomes.OutOfTurnExactly | hdp-bridge/hdp_bridge/connection.py:244-302 | what becomes of frames that are malformed or out of turn: complaint, close, or nothing |
| HandshakeOutcomes.MalformedComplains | hdp-bridge/hdp_bridge/connection.py:744-767 | a complaint ends the connection exactly if it is the eleventh within a minute |
| HandshakeSafety.PhasesKept | hdp-bridge/hdp_bridge/connection.py:271-284 | the handshake's phases survive every frame |
| Possession.HolderSigned | hdp-bridge/hdp_bridge/connection.py:533-549 | if a signature verifies under one challenged key and for one message only, a device gained by a proof means the key's holder signed the nonce this connection drew and sent, under the context of its challenge |
| Possession.ProofServesOnce | hdp-bridge/hdp_bridge/connection.py:511-549 | with fresh nonces too, one signature gains a device at most once, over all connections and all their frames |
| Possession.AskedOnce | hdp-bridge/hdp_bridge/connection.py:511-549 | with fresh nonces, no two gains by proof ask for the same message, over all connections and all their frames |
| Possession.EachGainTakesAMessage | hdp-bridge/hdp_bridge/connection.py:511-549 | assuming only that one key's holder signed what verifies under that key: each gain under it takes a message of its own that the holder signed, whatever else it signed |
| Possession.PurposesStayApart | hdp-bridge/hdp_bridge/device_keys.py:29-32 | what was signed to enroll never reconnects, nor the other way round |
| Possession.CandidateAgreed | hdp-bridge/hdp_bridge/usb_bootstrap.py:154-171 | a valid candidate approval is one its key's holder signed, for this enrollment, host and key, whatever else the same key has signed |
| Possession.OneKeyManyMessages | hdp-bridge/hdp_bridge/device_keys.py:29-32 | the premise is met by a key that has signed proofs, decisions and candidate approvals |
| Sentinel.SentinelHandler.HandleDecision | hdp-bridge/hdp_bridge/connection.py:304-335 | the decision frame, as `Sentinel.Decide` |
| Sentinel.DecidesExactly | hdp-bridge/hdp_bridge/connection.py:304-335 | a decision is taken exactly from the current primary, on an open enrollment, signed under its enrolled key over enrollment, decision and deadline; it changes that row and, blocking, the lock, and nothing else |
| Sentinel.OwnerDecided | hdp-bridge/hdp_bridge/enrollment.py:304-308 | a taken decision is one the primary's owner signed, for that enrollment and deadline, whatever else the same key has signed |
| SignedBytes.DecisionBytesInjective | hdp-bridge/hdp_bridge/enrollment.py:304-308 | the signed bytes determine identifier, decision and deadline |
| SignedBytes.CandidateBytesInjective | hdp-bridge/hdp_bridge/usb_bootstrap.py:186-187 | the candidate's bytes determine identifier, host and key |
| SignedBytes.ChallengeBytesInjective | hdp-bridge/hdp_bridge/device_keys.py:87-101 | a proof's bytes determine context and nonce |
| SignedBytes.DomainsSeparate | hdp-bridge/hdp_bridge/device_keys.py:29-32 | bytes signed for enrolling, for reconnecting, for a decision and for a candidate approval are never equal |
| SignedBytes.BytesInjective | hdp-bridge/hdp_bridge/device_keys.py:29-32 | of all that a device key signs, the bytes determine the kind of message and every field |
| SignedBytes.WireFormat | hdp-bridge/hdp_bridge/enrollment.py:304-308 | each signed message byte for byte, its number in decimal |
| Transport.OnlyOwnReply | hermes-device-plugin/hermes_device_plugin/transport/socket.py:179-211 | a caller gets bridge_unavailable or a frame carrying its own id, read on the one generation it registered on, after it did |
| Transport.LoopEndSettlesExactly | hermes-device-plugin/hermes_device_plugin/transport/socket.py:141-177 | a started read loop that ends settles exactly the futures registered on its connection, one cancelled before its first turn settles none, and every other generation is left alone |
| Transport.HangsExactly | hermes-device-plugin/hermes_device_plugin/transport/socket.py:107-211 | no run releases a waiting caller exactly when it registered after its loop was over or that loop was cancelled before its first turn |
| Transport.ReleasedByItsLoop | hermes-device-plugin/hermes_device_plugin/transport/socket.py:169-177 | any other waiting caller is released by its loop's end |
| Transport.UnheardIsStuck | hermes-device-plugin/hermes_device_plugin/transport/socket.py:208-211 | a caller of those two kinds stays stuck over every run, until its own task is cancelled |
| Transport.NobodyHangs | hermes-device-plugin/hermes_device_plugin/transport/socket.py:95-211 | if writes on a lost connection raise, and nobody closes a connection whose reader has not started while callers are registered on it, every waiting caller is released |
| Transport.AWriteAfterTheEnd | hermes-device-plugin/hermes_device_plugin/transport/socket.py:193-209 | from any idle open connection, how a late write hangs |
| Transport.AClosureBeforeTheFirstTurn | hermes-device-plugin/hermes_device_plugin/transport/socket.py:107-139 | from any connecting caller, how a close ahead of the reader's first turn leaves it hanging |
| Transport.RunKeeps | hermes-device-plugin/hermes_device_plugin/transport/socket.py:95-211 | the multiplexer's invariant survives every run |
| TransportOutcomes.ArrivalReachesItsCaller | hermes-device-plugin/hermes_device_plugin/transport/socket.py:150-211 | a frame read with the id of a caller waiting on that connection is what the caller is given, whatever else happens before it resumes |
| TransportOutcomes.UnavailableHasAReason | hermes-device-plugin/hermes_device_plugin/transport/socket.py:119-211 | in every run a caller is given bridge_unavailable only inside the backoff window, by a failed connect, by a failed write, or because its read loop ended while it was registered |
| TransportOutcomes.StartExactly | hermes-device-plugin/hermes_device_plugin/transport/socket.py:86-94 | starting takes and frees the lock; it leaves an open connection, a window, or, given up, everything as it was |
| TransportOutcomes.EntranceExactly | hermes-device-plugin/hermes_device_plugin/transport/socket.py:186-204 | with the lock free a caller is registered on the open connection, connects, or is turned away while the window lasts |
| TransportOutcomes.OpeningExactly | hermes-device-plugin/hermes_device_plugin/transport/socket.py:119-139 | a connection that opens is new, empty and current, its reader not started |
| TransportOutcomes.NobodyElseMoves | hermes-device-plugin/hermes_device_plugin/transport/socket.py:179-211 | only a caller's own op moves it, and only a frame with its id or the end of a loop settles its future |
| TransportOutcomes.FailedWriteCleansUp | hermes-device-plugin/hermes_device_plugin/transport/socket.py:201-206 | a failed write leaves no entry and no current connection |
| TransportOutcomes.CancelledCallerLeaves | hermes-device-plugin/hermes_device_plugin/transport/socket.py:186-211 | a caller cancelled while it waits takes its entry along; cancelled under the lock it lets go of it |
| TransportOutcomes.EntriesAreOwned | hermes-device-plugin/hermes_device_plugin/transport/socket.py:193-211 | over any run whoever is in a pending dictionary is writing or waiting on that connection, or was cancelled while it wrote |
| TransportOutcomes.BackoffIsExact | hermes-device-plugin/hermes_device_plugin/transport/socket.py:128-137 | in every run the delay is one second doubled with every failure in a row, thirty at most |
| TransportOutcomes.WindowAfterFailure | hermes-device-plugin/hermes_device_plugin/transport/socket.py:131-136 | after a failure the window lasts that delay and the jitter |
| Transport.SocketTransport.BeginRoundtrip | hermes-device-plugin/hermes_device_plugin/transport/socket.py:186-200 | fail fast, connect, or register and write |
| Transport.SocketTransport.ConnectLocked | hermes-device-plugin/hermes_device_plugin/transport/socket.py:119-139 | a new generation, or the next step of the backoff |
| Transport.SocketTransport.CloseLocked | hermes-device-plugin/hermes_device_plugin/transport/socket.py:107-117 | cancels the reader, which ends there if it had not started, and forgets the connection |
| Transport.SocketTransport.BeginReadLoop | hermes-device-plugin/hermes_device_plugin/transport/socket.py:150-152 | the reader's first turn |
| Transport.SocketTransport.FinishWrite | hermes-device-plugin/hermes_device_plugin/transport/socket.py:201-206 | a failed write unregisters, closes and reports |
| Transport.SocketTransport.ReadFrame | hermes-device-plugin/hermes_device_plugin/transport/socket.py:151-166 | pops and settles the matching future |
| Transport.SocketTransport.EndReadLoop | hermes-device-plugin/hermes_device_plugin/transport/socket.py:169-177 | settles and clears its own dictionary |
| Transport.SocketTransport.Deliver | hermes-device-plugin/hermes_device_plugin/transport/socket.py:208-211 | hands over the settled reply |
| ControlServer.AtMostOneReply | hdp-bridge/hdp_bridge/control.py:402-499 | however invokes, cancels and inline verbs overlap, no request is answered twice |
| ControlOutcomes.LoopAnswers | hdp-bridge/hdp_bridge/control.py:402-477 | the loop's own reply is written and flushed once the lock is let go |
| ControlOutcomes.TaskAnswers | hdp-bridge/hdp_bridge/control.py:479-499 | an invoke answered at once, or whose call ends otherwise than cancelled, is answered as soon as the lock is free |
| ControlOutcomes.ArrivalExactly | hdp-bridge/hdp_bridge/control.py:430-477 | an invoke becomes a task that has not begun; the loop answers anything else before it reads on |
| ControlOutcomes.TaskTurnsExactly | hdp-bridge/hdp_bridge/control.py:440-499 | a task's other turns: beginning its call, giving up its reply on a lost connection, leaving with its table entry and its lock |
| ControlOutcomes.CancelReachesItsTarget | hdp-bridge/hdp_bridge/control.py:440-468 | in every run with distinct ids a cancel asks exactly the invoke under way that carries the id it names |
| ControlOutcomes.AskedExactly | hdp-bridge/hdp_bridge/control.py:458-468 | what asking does to a task, by what the task is doing |
| ControlServer.AnsweredExactly | hdp-bridge/hdp_bridge/control.py:479-499 | once an invoke is over it was answered exactly when its call ended other than cancelled and its task was not cancelled on the way to the lock; and the call ended cancelled exactly when asked to and no failure of its awaited future was delivered instead |
| ControlServer.AskedReplies | hdp-bridge/hdp_bridge/control.py:800-856 | the reply to an invoke that was asked to cancel is a disconnection reply |
| ControlServer.CancelMutes | hdp-bridge/hdp_bridge/control.py:458-468 | exactly when a cancel silences an invoke at once, for any task still in the table |
| ControlServer.CancelledStaysSilent | hdp-bridge/hdp_bridge/control.py:458-477 | an invoke so silenced is never answered |
| ControlServer.SilencedExactly | hdp-bridge/hdp_bridge/control.py:458-499 | of an invoke asked to cancel, on an open connection, no run at all answers it exactly when it is silenced in that sense |
| ControlServer.LostStaysSilent | hdp-bridge/hdp_bridge/control.py:472-477 | nothing is written on a lost connection |
| ControlServer.CancelledYetAnswered | hdp-bridge/hdp_bridge/control.py:458-499 | how a cancelled invoke is answered all the same |
| Cancellation.DeliveryExactly | hdp-bridge/hdp_bridge/control.py:765-856 | a delivered cancellation ends the call as cancelled exactly unless the failure of the awaited future is handed on instead |
| Cancellation.AskingDooms | hdp-bridge/hdp_bridge/control.py:765-856 | exactly when asking already settles that, for any call not finished |
| Cancellation.WayPasses | hdp-bridge/hdp_bridge/control.py:765-856 | otherwise at most two steps lead to the failure being delivered in place of the cancellation |
| Cancellation.UnaskedIsNotRaised | hdp-bridge/hdp_bridge/control.py:544-867 | a call nobody asked to cancel never ends as cancelled |
| ControlServer.AnswersItsOwnRequest | hdp-bridge/hdp_bridge/control.py:182-190 | end to end, a caller given a frame is given the one reply the server wrote to its request |
| Ulid.EncodeCrockford | hdp-spec/hdp_proto/ids.py:30-35 | the digits, most significant first |
| Ulid.DecodeCrockford | hdp-spec/hdp_proto/ids.py:38-46 | the number of the upper-cased text, or an error |
| Ulid.ParseUlid | hdp-spec/hdp_proto/ids.py:68-77 | length, characters and time range, in the code's order |
| Ulid.Minter.New | hdp-spec/hdp_proto/ids.py:49-65 | the next pair and its text |
| Ulid.ParseOfFormat | hdp-spec/hdp_proto/ids.py:65-77 | formatting then parsing gives the pair back exactly for 48-bit times |
| Ulid.ParseOfLowerCase | hdp-spec/hdp_proto/ids.py:38-77 | a text in lower case is read all the same |
| Ulid.AlphabetExactly | hdp-spec/hdp_proto/ids.py:17-20 | the digits and upper-case letters without I, L, O and U |
| Ulid.FormatOfParse | hdp-spec/hdp_proto/ids.py:38-77 | parsing then formatting gives the upper-cased text exactly when upper-casing expands nothing |
| Ulid.FormatOfAscii | hdp-spec/hdp_proto/ids.py:38-77 | in particular for every ASCII text |
| Ulid.SharpSOverflows | hdp-spec/hdp_proto/ids.py:38-46 | an accepted text whose random part exceeds 80 bits |
| Ulid.FormatOrder | hdp-spec/hdp_proto/ids.py:30-35 | string order is the order of (time, random) |
| Ulid.NextIsLater | hdp-spec/hdp_proto/ids.py:49-65 | a call's text is after the previous one exactly when it does not wrap, under any clock |
| Ulid.MintedSays | hdp-spec/hdp_proto/ids.py:49-65 | a minted text reads back as the clock's time and the drawn randomness, or the last text's pair with one more |
| Ulid.RunIncreases | hdp-spec/hdp_proto/ids.py:49-65 | a run's texts strictly increase exactly when no call wraps |
| Ulid.WrapGoesBack | hdp-spec/hdp_proto/ids.py:57-60 | what the mask does in place of the specification's overflow failure |

## Left out

- SQLite itself, WAL, the two connections to one file and migrations: one atomic store with rollback.
- Cryptography, hashing, key parsing, JSON and YAML text, sockets, real clocks, random jitter.
- Audit records and logging, which are taken not to fail; the columns that only describe a request (`args_summary`, `risk_class`).
- `_validate_invoke_payload`: requests arrive typed; a malformed one is answered before anything is resolved or minted.
- Malformed output schemas: a schema is one of the forms the validator understands, or untyped.
- `InvocationsMem.fail_all` and server shutdown; USB probing, TLS, daemon wiring, command lines, user interfaces.
- `NodeConnection` after the handshake, as one class: acks, results, disconnects and re-advertisements are actions of `Bridge`, the sentinel decision frame is `SentinelHandler`; progress, heartbeat and error frames are not modelled.
- `verify_credential`, which the handshake does not use.
- Coroutines as Dafny methods: a coroutine is an automaton over values, and `SocketTransport` has one method for each stretch between two awaits. A pending dictionary's identity is its generation number, so aliasing of the dictionaries is modelled by number. `ControlServer` is on values only.
- Pairing.PairingCodes.Mint: codes enter already normalised (dashes, spaces and case removed).
- Bridge.Bridge: device rows are never deleted there; removal is part of `Roles`, and the credential scan of a revocation is a flag of its first step.
