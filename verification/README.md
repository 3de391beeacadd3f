# Keplaria: the supplier mission, verified

Keplaria watches a supplier's certificates. Events arrive at least once, a graph of deterministic nodes and language
models judges them, commands are queued in a ledger, a person may decide on parked cases, and an executor drains the
ledger against an ERP while a sweep drives failures again. Anything may crash, repeat or overlap in between.

This Dafny project models that mission and proves what it keeps. Models and the screening service answer
arbitrarily; the database and the ERP are stores whose writes are atomic; every lost response, abort and crash is a
step. `dafny verify dfyconfig.toml` checks all of it.

## How it is built

| file | models | from |
|---|---|---|
| Lifecycle, Dates | the station-keeping decision, its commands, calendar arithmetic | app/lifecycle.py |
| Store, Commands, Inbox, Approvals | the case document and its transactions, as a class and methods | app/state/ |
| Erp, Runner, Sweep | the ERP and its five calls, the drain, the sweep | app/executor/ |
| Graph, Terminals | edge table, nodes, one run, and the writes a run makes | app/agent.py, app/nodes.py |
| Grounding, Injection, Risk, Fleet | evidence checks, the injection scan, the gate, routing | app/grounding.py, app/injection.py, app/risk.py, app/policy.py, app/catalog.py |
| Ingress, Review | the push handler and the decision handler | ingress/main.py, console/review.py |
| GraphSafety, Agreement | safety of every run; end-to-end agreement of lifecycle and ERP | several |
| Deliveries | histories of pushes, decisions and sweeps on one case | several |
| HoldAndFile | what any drain makes of a hold and a file | app/executor/runner.py |
| Gathering | what every finishing run has asked for, gathered and been judged on | app/agent.py, app/nodes.py |
| Laundering | the stored verdict over runs that stop anywhere | app/nodes.py |
| Release | what a department's scope does to a released supplier's evidence | app/nodes.py, catalog/fleet.v1.json |
| Protocol | one case as a step machine: deliveries, graph writes, decisions, any number of overlapping drains that may stop anywhere, and requests that land after their drain stopped waiting | several |
| DrainRefinement, HandlerRefinement | the drain and the two handlers as schedules of that machine, an engine that writes on after its invocation failed included | several |
| ProtocolSafety, Parking, RetryBound | authority, decisions and the parking they answer, and bounded retry in every schedule of that machine | several |
| Serialized, ExactlyOnce, Renewals | final rows, records and messages with one drain at a time | several |
| Overlap, SerialWitnesses | schedules that show what each of these cannot do without | several |
| Basics, Json, Text | options, bands, tagged JSON values, numerals | |

Code that updates state is a method with a loop where the source has one, and is proved equal to a function of the
old state (`ExecutePendingCommands` to `DrainedUntil`, `InvokeEngine` to `ApplyAll(Cut(Writes))`, `HandlePush` to `Pushed`,
`IterSentences` to `Sentences`); what the source promises is proved about those functions. `DrainRefinement` and
`HandlerRefinement` tie the drain and the handlers as single operations to their steps in the machine.

## The main results

- In every interleaving of deliveries, graph writes, decisions and drains, a permissive call to the ERP goes back to a
  clear gate or to an approval that was committed while the case was parked
  (`ProtocolSafety.PermissiveCallsAreAuthorised`), and a decision answers a parking of the very version it commits at
  (`Parking.DecisionsFollowTheirParking`).
- Retry is bounded under any overlap (`RetryBound.RetryIsBounded`). Rows are final exactly when drains are serialized
  (`Overlap.FinalExactlyWhenSerialized`); then records appear exactly once, for exactly the cases that name their
  supplier (`ExactlyOnce.ExactlyOnceRecords`, `SerialWitnesses.ExactlyOnceExactlyWhenNamed`), and a message is sent
  again only after a lost answer (`Renewals.RenewalsAreSentOncePerLoss`).
- The drain and the handlers are schedules of that machine, whatever dies on the way (`DrainRefinement.DrainIsASchedule`,
  `HandlerRefinement.PushIsASchedule`, `HandlerRefinement.StragglingPushIsASchedule`).
- Lifecycle and ERP agree after every push (`Agreement.ErpAgreesAfterEveryPush`); holds and releases balance
  (`Lifecycle.Conservation`); a drain's holds, files and rows follow its calls (`HoldAndFile.HoldAndFileExactly`,
  `Runner.RowsFollowTheirCalls`, `Runner.ReportsTellTheRows`), and sweeps come to an end (`Sweep.SweepsFinish`).
- What any run of the graph gathers, what it is judged on and what it leaves of the case, as iffs over event, route and
  answers (`Gathering.RunsGatherExactly`, `Risk.VerdictsExactly`, `GraphSafety.VerdictsAtTheGate`,
  `Lifecycle.DecisionsExactly`, `Terminals.RunsLeave`); a stored expiry stands on its page
  (`GraphSafety.StoredExpiryStandsOnThePage`), time never launders a verdict (`Laundering.TimeNeverLaunders`), and an
  interrupted run run again converges (`Terminals.RedispatchConverges`).
- Splitting a page into sentences loses nothing and parts them at terminators alone (`Injection.SplittingIsExact`,
  `Injection.PiecesEndAtTerminators`); findings are made exactly where a sentence carries both
  (`Injection.FindingsExactly`).

## Where the code and its documentation part

The code is what is modelled. In each case below the exact condition, or a witness, is proved.

- `decide` is documented as total; it raises at the ends of the calendar and on evidence fields that are no list
  (`Lifecycle.DecisionRaisesExactly`). The second never happens in a graph run, whose evidence is grounded.
- The gate is documented as total; an untyped `error` and a score too large for a float make it raise
  (`Risk.GateRaisesExactly`). A screening the graph records can do the second (`GraphSafety.ScreensAreScored`).
- Other nodes are documented never to raise and can: an extraction with a huge confidence
  (`Grounding.RaisesExactlyOnHugeConfidence`), a candidate id that cannot be hashed, a screening answer of no usable
  shape (`GraphSafety.HowRunsEnd`). A run then ends before anything is written and the event is delivered again.
- The gate is documented to carry a malformed verdict as blocked; a well-formed one with a band outside the vocabulary
  is carried as it is, to a route without an edge (`Graph.EveryRouteHasAnEdge`).
- The drain order is documented to keep a released supplier from lacking evidence. A drain goes on after a failed
  upload, and a department that may originate releases but no uploads asks for none
  (`HoldAndFile.ReleasedWithoutEvidence`, `Release.ComplianceWitness`).
- The ledger is documented never to drive a done command again. Recording an outcome does not look at the status, so
  two overlapping drains can turn a done row back to failed (`Overlap.OverlapUndoesDone`) and pass the cap of five
  attempts, by no more than their number (`RetryBound.RetryIsBounded`). Rows are final exactly when drains are
  serialized (`Overlap.FinalExactlyWhenSerialized`).
- A comment in app/state/approvals.py says that a commit changes phase and version; it changes neither
  (`Approvals.CommitLeavesTheGateAlone`).
- Creation takes any 409 or 417 for a duplicate, whether or not the supplier exists (`Erp.CreationTrustsTheDuplicateCode`).
- A readable certificate before any dated packet makes a case active whose supplier is never created
  (`Lifecycle.CreationIsSkippedExactly`).
- Uploads are documented as idempotent, by looking the file up first. They are for requests that arrive one after the
  other; one that lands late is filed again (`SerialWitnesses.LateLandingFilesTwice`).
- A decision outlives a later verdict at the same version (`Runner.ApprovalOverridesAnyGateBand`), and the executor
  honours a band named in a block the gate finds unreadable (`Ingress.ExecutorTrustsANamedBand`).
- Running an interrupted commit again can report `no_action` (`Terminals.RedispatchConverges`), and reading its
  document again with a later expiry renews twice (`Lifecycle.AnotherReadingRenewsAgain`).

## Model

| member | source | states |
|---|---|---|
| `Lifecycle.DecisionRaisesExactly` | app/lifecycle.py:95-227 | `decide` raises if and only if a due renewal's window opens before 0001-01-01, an overdue one's grace ends after 9999-12-31, or evidence that is looked at has truthy fields that cannot be looped over; on every other input it returns a decision |
| `Lifecycle.DecideIsNotTotal` | app/lifecycle.py:159-166 | a concrete stored certificate and timing on which the decision raises, against its documentation |
| `Lifecycle.StepKeeps` | app/lifecycle.py:104-227 | what one event keeps: a certificate exists exactly past onboarding, each accepted one strictly raises the expiry and adds one to its version, the cycle never falls and keeps its distance from the version, a hold is emitted exactly on entering `held` and cleared exactly on leaving it |
| `Lifecycle.Conservation` | app/lifecycle.py:104-227 | over any events in any date order and under changing timings, emitted holds minus emitted releases is 1 in `held` and 0 otherwise, and the invariant above holds |
| `Lifecycle.NoCertificateIsUnreachable` | app/lifecycle.py:159-163 | no run ever answers that a certificate is missing, on either clock branch |
| `Lifecycle.CommandsOf` | app/lifecycle.py:133-225 | a decision names an action exactly under the reason that implies it, for all five actions |
| `Lifecycle.CommandsNameTheSupplier` | app/lifecycle.py:117-131 | every command of a decision is for the supplier the case is about |
| `Lifecycle.EmittedOnce` | app/lifecycle.py:133-225 | along any run, an (action, cycle) other than the creation of the supplier is emitted by at most one transition |
| `Lifecycle.CreationRepeats` | app/lifecycle.py:133-152 | creation is emitted only while onboarding and only at cycle 1, and is emitted again by the same packet while it stays there |
| `Lifecycle.ReplayIsStable` | app/lifecycle.py:133-225 | deciding an event again after its outcome was stored changes neither state, cycle nor certificate, and names commands again exactly when the packet still awaits evidence |
| `Lifecycle.AnotherReadingRenewsAgain` | app/lifecycle.py:204-225 | deciding an accepted certificate again with another reading of its document renews a second time if and only if that reading's expiry is later still |
| `Lifecycle.LateRequestTurnsBack` | app/nodes.py:1060-1084 | a renewal request stored after a certificate was accepted sets the cycle back by one and requests the renewal again; the lifecycle invariant survives if and only if cycle and version were one apart |
| `Lifecycle.CreationIsSkippedExactly` | app/lifecycle.py:133-225 | a run never commands the supplier's creation if and only if every dated packet that can be decided comes after a readable certificate, which alone already makes the case active |
| `Dates.OrderIsOrdinalOrder` | app/lifecycle.py:159-195 | comparing dates field by field is comparing day numbers, so shifting a date by days and comparing may be stated on day numbers |
| `Dates.OrdinalRange` | app/lifecycle.py:159-195 | day numbers of calendar dates lie between those of 0001-01-01 and 9999-12-31 |
| `Dates.PrintThenParse` | app/lifecycle.py:81-85 | a stored full-date reads back as the date it was printed from |
| `Dates.ParseThenPrint` | app/lifecycle.py:81-85 | a full-date that parses is printed back letter for letter; the other forms a parser may know reach no stored expiry, see Grounding.AcceptedExpiriesAreFullDates |
| `Commands.CommandIdIsInjective` | app/state/commands.py:50-58 | command identifiers are equal only for the same case, action and cycle, whatever characters a case id contains |
| `Commands.ClaimCommand` | app/state/commands.py:84-132 | the claim transaction: a new row, a requeued one with one attempt more, or a refusal that reports `done` or `dead` and writes nothing |
| `Commands.RecordSuccess` | app/state/commands.py:135-152 | marks the row done whatever its status was, and touches nothing else |
| `Commands.RecordFailure` | app/state/commands.py:155-190 | counts one execution attempt and makes the row failed, or dead at the fifth, whatever its status was |
| `Commands.EveryWriteKeepsTheCap` | app/state/commands.py:84-190 | helper: no write leaves a row with its attempts used up in an open status |
| `Commands.ClaimingNeverRevives` | app/state/commands.py:90-132 | claiming any command never changes a settled row nor any row's execution attempts, and adds at most its own key |
| `Inbox.ClaimEvent` | app/state/firestore.py:80-171 | the claim transaction with its four outcomes and the exact new case |
| `Inbox.MarkDispatched` | app/state/firestore.py:174-182 | marks one event and changes nothing else |
| `Inbox.VersionsNumberTheEvents` | app/state/firestore.py:107-171 | after any deliveries, marks and writes elsewhere in the document, recorded versions are a bijection onto 1 .. case version |
| `Inbox.ClaimsLast` | app/state/firestore.py:107-182 | a claimed event stays, at its version, and a dispatched one stays dispatched |
| `Inbox.ClaimedEventsAreNeverStale` | app/state/firestore.py:107-138 | once claimed an event is redispatched at its first version until it is marked and a duplicate ever after, never stale |
| `Inbox.FreshEventsAreAdmitted` | app/state/firestore.py:139-171 | a new event is admitted if and only if it expects no version or the current one, and then takes the next version |
| `Approvals.TryCommit` | app/state/approvals.py:88-153 | one commit transaction with its five refusals in order and the exact new case |
| `Approvals.FirstServed` | app/state/approvals.py:63-85 | which of the five tries is the first the database does not abort |
| `Approvals.CommitApproval` | app/state/approvals.py:63-85 | the retry decides on what its served try reads, writes nothing on aborted tries, and gives up after the fifth |
| `Approvals.DerivedIdIsInjective` | console/review.py:282-287 | within a case the derived approval id determines the version |
| `Approvals.RunKeeps` | app/state/approvals.py:105-151 | after any attempts, aborts, deliveries and outcomes the case's approval block is the newest record, filed under its own derived id |
| `Approvals.OneDecisionPerVersion` | app/state/approvals.py:105-151 | after a commit every later readable attempt at that version is refused as a duplicate |
| `Approvals.CommittedVersionsIncrease` | app/state/approvals.py:105-151 | committed versions strictly increase along every run |
| `Approvals.RacingAttempts` | app/state/approvals.py:63-153 | among concurrent attempts at one version of a parked case, under any aborts, exactly one commits if any is served |
| `Approvals.CommitLeavesTheGateAlone` | app/state/approvals.py:128-151 | a commit changes neither phase, version nor verdict, so a repeat under another id would commit again |
| `Review.Decide` | console/review.py:239-301 | derives the id, commits with its retries against whatever others write meanwhile, and drains only a committed decision, up to any death of the drain; an id with a slash is answered as unknown and touches nothing |
| `Review.RejectionGrantsNothing` | console/review.py:287-301 | a committed rejection moves no permissive row or record, even if its drain dies, and still drives every open hold if it does not |
| `Review.ApprovalReleasesEverything` | console/review.py:287-301 | a committed approval leaves every open row done or with exactly one failure more, or, only if its drain dies, as it was |
| `Review.ResubmissionChangesNothing` | console/review.py:282-301 | a second decision at a decided version is refused and moves neither case nor ERP, whatever the ERP would answer |
| `Erp.Frappe.CreateSupplierIfAbsent` | app/executor/frappe.py:96-144 | creates once; 409 and 417 count as success without a record of this call |
| `Erp.Frappe.SetSupplierHold` | app/executor/frappe.py:147-165 | puts the hold and reports success only on a readable acceptance |
| `Erp.Frappe.ClearSupplierHold` | app/executor/frappe.py:168-178 | lifts the hold likewise |
| `Erp.Frappe.SendSupplierMessage` | app/executor/frappe.py:181-252 | sends only for a supplier that is found and has an address, and again on every call |
| `Erp.Frappe.AttachEvidence` | app/executor/frappe.py:255-329 | looks the file of (supplier, cycle) up first and uploads only when it is absent |
| `Erp.CreationTrustsTheDuplicateCode` | app/executor/frappe.py:130-144 | creation reports success without a supplier exactly when acceptance, 409 or 417 is answered for one that neither existed nor was created |
| `Erp.OkMeansRecorded` | app/executor/frappe.py:96-329 | helper: with an honest ERP a call that returns has left its record behind, for all five calls |
| `Erp.RepeatsAreHarmless` | app/executor/frappe.py:96-329 | repeating any call but the message changes nothing once its effect has landed |
| `Runner.RunCommand` | app/executor/runner.py:146-179 | dispatches an action to its ERP call, with the cycle of the command |
| `Runner.ReadLedger` | app/executor/runner.py:280-301 | splits the listed rows into those to act on and those only reported dead |
| `Runner.ExecutePendingCommands` | app/executor/runner.py:253-384 | the drain: one read of band and ledger, then refuse, or call and record, in order, up to any point at which it may die, with or without an unrecorded call; new ledger, new ERP and reports equal `DrainedUntil`; a missing document drains as empty |
| `Runner.DriveAll` | app/executor/runner.py:310-373 | the loop over the sorted commands, up to the death of the drain if there is one |
| `Runner.SortedIsExact` | app/executor/runner.py:120-126 | sorting loses, adds and repeats no command |
| `Runner.SortedIsInOrder` | app/executor/runner.py:303-308 | sorted commands ascend in the drain order of actions |
| `Runner.DrainsExactlyTheOpenRows` | app/executor/runner.py:283-308 | whatever order rows are listed in, a drain acts on exactly the rows neither done nor dead, each once, evidence before releases, and no hold after a release |
| `Runner.DrainMovesOpenRows` | app/executor/runner.py:310-373 | a drain leaves settled and refused rows identical and finishes each other row or counts exactly one failure against it |
| `Runner.DyingDrainMovesOpenRows` | app/executor/runner.py:310-373 | one that dies on the way leaves each row as it was or as a whole drain could have left it |
| `Runner.NothingIsGrantedUncleared` | app/executor/runner.py:310-337 | while the effective band is not clear any number of drains leave permissive rows, their counters and all permissive records unchanged |
| `Runner.HoldsRunUncleared` | app/executor/runner.py:310-325 | an open hold is driven by every drain, cleared or not |
| `Runner.ApprovalOverridesAnyGateBand` | app/executor/runner.py:199-236 | helper: an applicable decision decides alone, whatever the gate's band has become since, and stops applying at any other version |
| `HoldAndFile.HoldAndFileExactly` | app/executor/runner.py:303-373 | after any drain, whether a hold stood before or not: the hold is gone if and only if the case is cleared and an open release is applied, or there was none and no open hold is applied; a file is there if and only if it was, or an open upload of it is applied in a cleared case |
| `HoldAndFile.DyingHoldAndFile` | app/executor/runner.py:303-373 | the same of a drain that dies anywhere, with the commands it reached in place of the open ones |
| `HoldAndFile.RecordsOfTheReached` | app/executor/runner.py:303-373 | a call that is made and not recorded leaves the same ERP as one that is |
| `HoldAndFile.ReleasesAreReachedLast` | app/executor/runner.py:112-126 | a drain that has got as far as a release has called every other open command before |
| `HoldAndFile.ReleasedWithoutEvidence` | app/executor/runner.py:112-126 | the drain order does not keep a released supplier from lacking its file: a drain leaves one so if and only if the file was absent, no open upload of it is applied in a cleared case, and an open release is applied in a cleared case, or no hold stood or landed |
| `HoldAndFile.DyingReleaseWithoutEvidence` | app/executor/runner.py:112-126 | the same of a dying drain over the commands it reached; with a hold standing before, it leaves a supplier so only if a whole drain would |
| `HoldAndFile.BareReleaseBeforehand` | app/executor/runner.py:283-345 | what ERP and ledger tell before the call: a drain can leave the supplier so if and only if the file is missing and no hold stands or an open release meets a cleared case; a release that is applied then does so whatever the ERP answers to the rest if and only if no open row asks for the upload |
| `Release.ScopeDecidesTheRelease` | app/nodes.py:1018-1085 | with every call served, a certificate accepted for a held supplier lifts the hold if and only if the department may originate releases, and files the certificate if and only if it may originate uploads |
| `Release.ComplianceMayReleaseBare` | catalog/fleet.v1.json:57-83 | the shipped catalog loads, its compliance department may have evidence extracted, and may originate a release but no upload |
| `Release.ComplianceReleasesBare` | app/nodes.py:1018-1085 | so every certificate accepted for a held supplier by way of that department releases it without its file, though nothing fails |
| `Release.ComplianceWitness` | app/nodes.py:1018-1085 | a concrete held supplier, certificate, drain and ERP for which that happens |
| `Protocol.GraphWritesAreLegitimate` | app/nodes.py:562-646 | every write of every graph run is one the step machine allows, for every answer of the models and every case |
| `DrainRefinement.UndisturbedCallIsAtomic` | app/executor/frappe.py:96-329 | lookup, request and response with nothing in between are the one-step ERP call |
| `DrainRefinement.DrainIsASchedule` | app/executor/runner.py:253-384 | the drain as one operation, dying on the way or not, and its step-by-step schedule reach the same case and the same ERP records |
| `HandlerRefinement.PushIsASchedule` | ingress/main.py:109-271 | the push handler as one operation and its steps in the machine reach the same case and the same ERP records, on every early return and however far engine and drain get |
| `HandlerRefinement.DecisionIsASchedule` | console/review.py:282-301 | the same for the decision handler, dying in its drain or not |
| `HandlerRefinement.StragglersLand` | app/nodes.py:983-1085 | no write of a graph run is refused for coming late: whatever happens in between, each lands on what has become of the case |
| `HandlerRefinement.StragglingPushIsASchedule` | ingress/main.py:161-191 | a push whose invocation fails while the engine goes on writing is a schedule with anything in between, and keeps the authority and the retry invariants throughout |
| `ProtocolSafety.PermissiveCallsAreAuthorised` | app/executor/runner.py:199-337 | in every interleaving a permissive call belongs to a drain whose only case read saw a clear gate with no applicable decision, or an approval at the version read that was committed on a parked case whose stored gate band was review |
| `RetryBound.RetryIsBounded` | app/state/commands.py:155-190 | in every interleaving of at most n drains, a row's counter is its number of recorded failures, is at most 4 + n, and from 5 on the row is done or dead |
| `RetryBound.LateDrainsMakeNoCall` | app/executor/runner.py:280-345 | every call for a row is made by a drain that had read the ledger before the row's fifth failure was recorded |
| `Serialized.SettledIsAbsorbing` | app/state/commands.py:84-190 | with at most one drain at a time, a done or dead row never changes again in any run |
| `ExactlyOnce.RecordsAreFaithful` | app/executor/runner.py:253-373 | with drains one at a time, crashes anywhere and an honest ERP, at every moment of a case that names its supplier: what is done is there, what is there was commanded, and a certificate is on file once at most but for requests that landed after their drain had stopped waiting |
| `ExactlyOnce.ExactlyOnceRecords` | app/executor/runner.py:253-373 | when all accepted commands are done, suppliers and certificates on file are those of executing each command once, in any order; each late landing adds one copy of a file at most, and without any the files are equal with multiplicity |
| `SerialWitnesses.ExactlyOnceExactlyWhenNamed` | app/lifecycle.py:120-120 | that holds of every such run of a case if and only if its document names its supplier |
| `SerialWitnesses.NamelessCaseCreatesTwice` | app/lifecycle.py:120-120 | for a nameless case, a lost response and an event that names another supplier create two for one command that is done |
| `SerialWitnesses.LateLandingFilesTwice` | app/executor/frappe.py:255-329 | an upload that lands after a later drain's files the certificate twice, with drains one at a time |
| `Renewals.RenewalsAreSentOncePerLoss` | app/executor/frappe.py:181-252 | a finished renewal request has sent exactly one message more than were lost - unacknowledged or landing late -, an unfinished one at most one more, and nothing else has been mailed; all of it went to the supplier the case names |
| `Overlap.OverlapUndoesDone` | app/state/commands.py:135-190 | whenever two drains may overlap, one lost response can turn a done row failed and file one certificate twice |
| `Overlap.FinalExactlyWhenSerialized` | app/state/commands.py:135-190 | settled rows are final in every run with at most n drains in flight if and only if n is at most 1 |
| `Sweep.FindStuckCaseIds` | app/executor/sweep.py:55-106 | lists distinct stuck cases up to the limit; listed plus skipped are all of them, and none is skipped below the limit |
| `Sweep.SweepFailedCommands` | app/executor/sweep.py:109-155 | drains each listed case once, passes over drains that die, counts the ones that get through and tallies every result |
| `Sweep.SweepTalliesAddUp` | app/executor/sweep.py:130-155 | driven plus refused plus dead is the number of results |
| `Sweep.DrainProgress` | app/executor/runner.py:253-373 | a drain lowers the attempts left over open rows if and only if some open row is permitted to run, and never raises them |
| `Sweep.SweepProgress` | app/executor/sweep.py:109-155 | while every stuck case is clear, each sweep that gets through with one strictly lowers the attempts left |
| `Sweep.SweepsRunOut` | app/executor/sweep.py:109-155 | if the cases stuck at the start are clear, no series of sweeps that each find a failed row and get through with a case is longer than the attempts left at that start |
| `Sweep.SweepsFinish` | app/executor/sweep.py:109-155 | and as many such sweeps as there are attempts left leave no failed row anywhere |
| `Sweep.UnclearedFailuresStayStuck` | app/executor/sweep.py:55-106 | a failed permissive row of an uncleared case is found again and moved by no drain |
| `Graph.EveryRouteHasAnEdge` | app/agent.py:232-286 | a node's answer lacks an edge if and only if the node raises or the gate carries, untainted, a stored verdict whose band is outside its vocabulary; every other step lowers a rank, the retry by spending an attempt |
| `GraphSafety.GraphIsSound` | app/nodes.py:347-949 | the state at the end of a run: grounded evidence only from an untainted document, screening only on a compliance route, the gate's verdict only from the gate |
| `GraphSafety.TerminalsCarryTheirVerdict` | app/agent.py:276-284 | commit is reached exactly with a clear verdict, parking exactly with review, and a run that reaches a terminal otherwise ends in quarantine |
| `GraphSafety.HowRunsEnd` | app/nodes.py:184-949 | a run stops short of a terminal if and only if its last node raises or carries such a verdict |
| `GraphSafety.OrdinaryRunsFinish` | app/nodes.py:184-949 | on answers of ordinary shape and size and a stored band of the vocabulary every run reaches a terminal, whatever the answers say |
| `GraphSafety.TaintedRunsAreQuarantined` | app/nodes.py:184-330 | a tainted document never leads to a command: the run has no evidence and ends in quarantine on every path, if and only if no screening step raises first |
| `GraphSafety.AtMostTwoExtractions` | app/nodes.py:480-559 | at most two evidence extractions per run, for every answer |
| `GraphSafety.ClockEventsEngageNoAgent` | app/agent.py:240-243 | a clock event visits the gate and one terminal and nothing else, unless the gate carries a band outside its vocabulary, where it stops |
| `GraphSafety.ScreensAreScored` | app/nodes.py:649-716 | a screening recorded by the graph makes the gate raise if and only if it is well formed and the policy asks about a score in it too large to write out |
| `GraphSafety.OrdinaryScreensAreScored` | app/nodes.py:649-716 | so scores that fit a float never do |
| `GraphSafety.TaintBlocks` | app/nodes.py:898-904 | helper: taint gives blocked in both modes of the gate |
| `GraphSafety.AbsenceBlocks` | app/nodes.py:835-904 | helper: without a screening the gate blocks if and only if the document is tainted, the stored verdict is missing or unreadable, or it blocks itself |
| `GraphSafety.ComplianceOnlyTightensClear` | app/nodes.py:914-937 | the compliance record can only move a fresh clear to review and never the score |
| `Laundering.OnlyWholeRunsStore` | app/nodes.py:137-170 | only a run that makes all its writes stores its verdict; one that raises, strays or dies earlier leaves the old block |
| `Laundering.OneRunNeverLaunders` | app/nodes.py:832-904 | a run that stores no screening of its own never makes the stored band less severe, wherever it stops |
| `Laundering.TimeNeverLaunders` | app/nodes.py:832-904 | no series of such runs does, finished, raised, strayed or dead after any write, whatever else the case document holds between them |
| `GraphSafety.StoredExpiryStandsOnThePage` | app/nodes.py:483-559 | any expiry a run stores is the value of the first expiry field of one of at most two extractions, stands verbatim in that field's cited span on its cited page of that event's own untainted document, is the only date in that span, and carries that document's checksum |
| `Ingress.ExecutorTrustsANamedBand` | app/executor/runner.py:219-236 | helper: without a decision in force, executor and gate part exactly on an unreadable stored block that names clear |
| `Terminals.ClaimLifecycleCommands` | app/nodes.py:983-1085 | claims every command in scope in order, then writes the lifecycle block with the refused ones, up to any write at which the process may die; the new case is the cut `ClaimStep` applied |
| `Terminals.Conclude` | app/nodes.py:1088-1172 | the claiming terminals: claim, then record the outcome, up to any write |
| `Terminals.ClaimWritesClaim` | app/nodes.py:1022-1082 | every command of a decision is either claimed or recorded as refused, as its department's scope says, and nothing else is |
| `Terminals.RecordOutcome` | app/nodes.py:137-170 | writes phase and, when there is one, the verdict |
| `Terminals.InvokeEngine` | app/nodes.py:562-1172 | a graph run and its terminal's writes, up to any write; it fails exactly when a node or the decision raises, the process dies, or the response is lost |
| `Terminals.WritesExtendTheOutbox` | app/nodes.py:983-1085 | no write of a run loses a row, resets a settled one, or touches version, inbox or approvals |
| `Terminals.GraphRepeats` | app/nodes.py:798-949 | a run repeated on the verdict it left takes the same nodes to the same verdict |
| `Terminals.RedispatchConverges` | app/nodes.py:983-1161 | stopping a run after any single write and running the event again in a new session, with other answers but the same evidence, reaches lifecycle, certificate and outbox keys of the uninterrupted first run and resets no settled row, whenever both runs reach a claiming terminal; the recorded phase is stated exactly |
| `Terminals.RedispatchThatDoesNotClaim` | app/nodes.py:562-592 | when the second run does not, it leaves lifecycle and rows where the first had got, which is the uninterrupted outcome if and only if the lifecycle write had happened or nothing was left to decide and claim |
| `Terminals.FirstRunThatDoesNotClaim` | app/nodes.py:562-592 | when the first run does not, the second starts from the lifecycle and rows it started from |
| `Terminals.SameAnswersConverge` | app/nodes.py:798-1085 | when the answers do repeat, the verdict converges too, on every path |
| `Ingress.HandlePush` | ingress/main.py:109-271 | claim, engine, mark, drain and answer, in this order and with these early returns, however many of its writes the engine has made by the time the invocation fails and however far the drain gets |
| `Ingress.DriveEvent` | ingress/main.py:154-271 | the engine for an admitted event, and the rest if it returns |
| `Ingress.DrainDuplicate` | ingress/main.py:119-148 | a duplicate drains, and how that goes is not reported |
| `Ingress.FinishPush` | ingress/main.py:193-271 | mark, drain, and the answer that asks for a retry exactly when the drain died or a command failed |
| `Deliveries.InboxRemembers` | ingress/main.py:109-193 | over any history of pushes, decisions and sweeps, the inbox knows exactly the events that reached the engine and has marked exactly those that came back from it |
| `Deliveries.EngineRunsUntilDispatched` | ingress/main.py:109-193 | a delivery reaches the engine if and only if no earlier one of its event came back from it, and one had already got there or it fits the current version |
| `Agreement.PushKeepsAgreement` | ingress/main.py:109-196 | one push in smooth conditions keeps case, ledger and ERP in agreement |
| `Agreement.ErpAgreesAfterEveryPush` | ingress/main.py:109-196 | after any number of such pushes, in any order and with repeats, the supplier is on hold if and only if `held`, exists past onboarding, and has exactly one file per accepted certificate |
| `Grounding.GroundedExpiryStandsOnThePage` | app/grounding.py:59-119 | a grounded answer's expiry is the value of its first expiry field, stands in that field's span on that field's page, and is the only date in that span |
| `Grounding.AcceptedExpiriesAreFullDates` | app/grounding.py:50-119 | an accepted expiry value has the ten-character shape of a full-date |
| `Grounding.RaisesExactlyOnHugeConfidence` | app/grounding.py:59-96 | the check raises if and only if the first field it does not pass is typed as it should be but has a confidence too large for a float |
| `Grounding.NamedExpiryIsReadable` | app/grounding.py:50-119 | a grounded expiry field always parses |
| `Injection.IterSentences` | app/injection.py:140-151 | the splitting loop yields exactly the specified sentences at their offsets |
| `Injection.SplittingIsExact` | app/injection.py:140-151 | sentences are ordered disjoint slices at their reported offsets, and with the terminators between them rebuild the page |
| `Injection.InsideASentence` | app/injection.py:140-141 | a sentence holds no `!` or `?`, a full stop only between digits, a line break only before a lower-case continuation |
| `Injection.Scan` | app/injection.py:165-213 | findings in page and sentence order; tainted exactly when there is one |
| `Injection.TaintedIffOneSentenceCarriesBoth` | app/injection.py:165-213 | a document is tainted if and only if some sentence carries both a directive and a signal |
| `Risk.ScoreCase` | app/risk.py:276-324 | the scoring loop computes the specified assessment, raising included |
| `Risk.GateRaisesExactly` | app/risk.py:84-105 | the gate raises if and only if the screening is well formed and a factor of the policy cannot describe it: an untyped error of an unreachable screen, or a matched or topmost score too large to write out |
| `Risk.GateIsNotTotal` | app/risk.py:244-273 | a loaded policy and two screenings on which the gate raises, against its documentation |
| `Risk.GateIsMonotone` | app/risk.py:212-324 | a more alarming screen or one more flag never lowers score or band, and a malformed one is above all; scores stay in [0, 1] |
| `Risk.GrowingAScreenIsAtLeast` | app/risk.py:84-105 | adding candidates or flags anywhere and raising scores is such a change |
| `Risk.ScoreInRange` | app/risk.py:212-217 | scores stay in [0, 1] and blocked is exactly the block threshold reached |
| `Fleet.RouteIsTheDeclaredOne` | app/policy.py:80-154 | an accepted route is the declared one as a set, in canonical order, without repeats, inside the department; proposal minus dropped plus added is the route |
| `Fleet.ProposalDoesNotChooseTheRoute` | app/policy.py:80-154 | helper: two accepted proposals for one event type get the same route |
| `Fleet.EvidenceComesFirst` | app/catalog.py:113-183 | evidence precedes compliance in every accepted route that has both |
| `Lifecycle.FirstNamedDecides` | app/lifecycle.py:95-101 | the expiry of an evidence is that of the first field named so, and none if its value is no text that reads as a date, whatever later fields hold |
| `Lifecycle.DecisionsExactly` | app/lifecycle.py:104-225 | a hold, a renewal request, a renewal and an opening each happen if and only if state, event and stored expiry say so: a hold when the event is dated more than the grace after the expiry, a request from the window's opening on, a renewal on a strictly later expiry; everything else leaves state, cycle and certificate alone |
| `Lifecycle.CertificatesExactly` | app/lifecycle.py:133-225 | a certificate is stored exactly with an opening on evidence or a renewal, with the offered expiry, the next version, the document's checksum and the event's day |
| `Lifecycle.RefusalsExactly` | app/lifecycle.py:104-225 | each reason for doing nothing is answered if and only if its condition on state, event, stored expiry and evidence holds |
| `GraphSafety.EventsDecideExactly` | app/nodes.py:983-1084 | what a run's terminal decides on each of the four event types, with the day of the event against the stored expiry and the loaded timing; any other type does nothing |
| `Commands.ClaimsAnswerTheirRow` | app/state/commands.py:84-132 | a claim answers the status its row then has, and that it was acquired exactly when it moved the row |
| `Commands.EveryWriteParksLate` | app/state/commands.py:84-190 | helper: no write leaves a dead row with attempts left |
| `Inbox.ClaimsExactly` | app/state/firestore.py:107-171 | when a claim succeeds, and that it answers the version recorded for the event |
| `Inbox.ClaimsKeepTheRest` | app/state/firestore.py:139-171 | a new event puts the case to processing under the next version and keeps its verdict, decision, lifecycle and ledger; no other claim changes anything |
| `Approvals.AnswersInOrder` | app/state/approvals.py:105-151 | which of the five refusals an attempt gets, each if and only if its condition holds and no earlier one does |
| `Approvals.DecisionsAreOnRecord` | app/state/approvals.py:130-151 | a committed decision is stored under its id with the word, the actor and the version of the attempt |
| `Approvals.FreshEventsUnpark` | app/state/firestore.py:135-169 | after the claim of a new event no attempt of whatever version commits |
| `Parking.DecisionsFollowTheirParking` | app/state/approvals.py:125-129 | in every schedule, a decision commits at a version only after an outcome parked the case that was written after the event of that version was claimed |
| `Review.DecisionsRule` | app/executor/runner.py:199-236 | a committed approval clears the case and a rejection blocks it until the next new event, under the derived id and beside the gate's own band |
| `Runner.ReportsTellTheRows` | app/executor/runner.py:310-384 | a drain that gets through reports each row that is not done exactly once: the status it left a driven row with, a refusal exactly for a withheld one, and the dead ones |
| `Runner.ReportsComeInTurn` | app/executor/runner.py:310-384 | driven rows are reported first, in the order creation, upload, renewal request, hold, release, and dead ones after them by name |
| `Sweep.TalliesTellTheRows` | app/executor/sweep.py:130-155 | the three tallies of a sweep count the rows of the drained cases: those driven, those withheld and those dead |
| `Ingress.FailuresAreReported` | ingress/main.py:240-265 | a drain that gets through reports a failure if and only if it leaves a permitted row failed |
| `Ingress.AnswersTellWhatHappened` | ingress/main.py:109-271 | a push answers that commands failed if and only if its drain died or left a row it ran failed, that the engine failed if and only if the engine did, and that the event was processed otherwise |
| `Gathering.AskedExactly` | app/nodes.py:347-949 | how often a run that finishes asks the coordinator and the extraction: the coordinator once unless the clock sent the event; the extraction if and only if evidence is routed and a document is named and clean, and again if and only if the first was not grounded in a document that could be loaded |
| `Gathering.RunsGatherExactly` | app/nodes.py:347-949 | what a run that finishes has gathered and been judged on, for every event, route and answer: the first grounded extraction, a screening if and only if compliance is in the route, an opinion if and only if the screening has candidates; a run whose route is refused or whose evidence is not grounded is quarantined unjudged |
| `GraphSafety.VerdictsAtTheGate` | app/nodes.py:832-949 | the verdict of a run from its screening, its flags and the record of the model's opinion: scored, escalated to review exactly on the three conditions, blocked on taint, carried when nothing was screened |
| `GraphSafety.AnswersAreRecorded` | app/nodes.py:649-716 | what a screening answer is recorded as: reachable with exactly its candidates and flagged matches, or unreachable with its error |
| `Terminals.ScopesExactly` | app/nodes.py:955-980 | a command is within scope if and only if the event's department, or the legacy one for an event that names none, is listed in the catalog and may originate it |
| `Terminals.ClaimingRowsExactly` | app/nodes.py:1100-1172 | claiming moves a row if and only if it is listed, in scope, under the cycle and open, and then by one attempt under the listed supplier |
| `Terminals.RunsLeave` | app/nodes.py:983-1172 | what a run leaves of the case in terms of its decision and verdict: lifecycle, verdict, phase, the rows it queues and the record of refused commands |
| `Risk.VerdictsExactly` | app/risk.py:84-324 | the verdict of a loaded policy on well-formed input: the score is the clamped, rounded sum of the weights of the factors whose stated condition holds, the band is blocked, review or clear by the two thresholds, and the factors named are those |
| `Risk.RoundIsNearest` | app/risk.py:205-217 | rounding gives a multiple of a millionth nearest to the sum, the even one of two |
| `Risk.WellFormedExactly` | app/risk.py:244-304 | which screenings the gate scores |
| `Risk.MalformedIsBlocked` | app/risk.py:244-304 | any other is blocked |
| `Risk.NoPolicyWithholds` | app/risk.py:197-345 | without a policy every screening is blocked, and the timing is that of no window and no grace |
| `Grounding.AcceptedExactly` | app/grounding.py:59-119 | an extraction is grounded if and only if it is of a usable shape, names the document's checksum, and every field has a confidence in range, a value that stands in its span and a span that stands on its page, expiries as one full date |
| `Grounding.FieldsStandExactly` | app/grounding.py:73-119 | the fields of an extraction pass if and only if each stands on its page |
| `Grounding.EveryDateIsMet` | app/grounding.py:50-56 | the search for date-shaped pieces meets every one that no earlier piece overlaps |
| `Injection.PiecesEndAtTerminators` | app/injection.py:140-151 | what parts two sentences is a whole run of stops that are no decimal points, or a line break with the blanks and breaks after it that is a blank line or that no lower-case letter follows; nothing else does |
| `Injection.FindingsExactly` | app/injection.py:165-213 | a finding is made if and only if a directive matches in a sentence that carries a signal; it names the page, the place of the match on it, the directive and the first signal of that sentence |
| `Fleet.RoutableExactly` | app/catalog.py:108-110 | the routable agents are those the catalog marks so, in its order |
| `Fleet.RoutedExactly` | app/policy.py:80-154 | when a proposal is accepted: event and department are known, nothing unknown is named, and required, permitted and proposed agents agree |
| `Fleet.RefusedExactly` | app/policy.py:80-154 | each refusal is given if and only if its condition holds and no earlier one does, the empty proposal included |
| `Fleet.ResolvedExactly` | app/policy.py:55-77 | an event that names no department gets the catalog's legacy one |
| `Erp.RecordsMoveExactly` | app/executor/frappe.py:96-329 | what each of the five calls changes of suppliers, holds, files and messages, at whatever supplier and cycle one looks |
| `Erp.CallsFailExactly` | app/executor/frappe.py:96-329 | a call raises if and only if its lookup fails, its answer is lost or an error that is not taken for success, or a message finds no supplier with an address |
| `GraphSafety.ReasonsAtTheGate` | app/nodes.py:832-949 | the reasons a verdict carries beyond the scored or the stored ones: the injection if and only if it is what blocked, and the interpreter's objection if and only if it is what held a clear score back |
| `GraphSafety.SilencesAreRecorded` | app/nodes.py:649-716 | the error an unusable answer is recorded with: the service's own, a missing key, or a match without a text for an id |
| `GraphSafety.RecordsReadBack` | app/nodes.py:649-716 | the record of a screening reads back as the answer it was made from |
| `GraphSafety.ConditionsReadTheService` | app/nodes.py:649-716 | which conditions of a policy hold in a run that screens, in terms of the service's own results: no usable answer, a match, a score at or above the floor, a tainted document |
| `Grounding.RejectionsExactly` | app/grounding.py:73-119 | each reason for turning a field down is given if and only if it holds and the ones before it do not; a lone date that differs from the value is reported as a value not in its span |
| `Grounding.FirstFailureSpeaks` | app/grounding.py:73-119 | the first field that does not stand decides the answer of the check |
| `GraphSafety.OnlyNamedDocumentsCount` | app/nodes.py:184-330 | a run's document is tainted if and only if its event names one that loads and has a suspicious page; evidence a run took names that document |
| `Runner.RowsFollowTheirCalls` | app/executor/runner.py:340-371 | a driven row is finished if and only if its call returned, on the ERP as the earlier commands had left it; otherwise it has one more failure, and is parked exactly with the fifth |
| `Sweep.NamedExactly` | app/executor/sweep.py:60-127 | a query names its cases each once, in the order of first mention and without the empty id, and a sweep takes the first ones up to its limit |
| `Ingress.PushesAreAdmittedExactly` | ingress/main.py:110-152 | a push is stale if and only if its event is new and expects another version than the case has, and a duplicate if and only if the event was dispatched; a new case is about the event's supplier |
| `Ingress.EnginesFailExactly` | ingress/main.py:155-193 | the engine fails exactly on a death, on a run that stops before a terminal, and on a terminal whose decision raises; a run that stops at a band without an edge may pass |
| `Ingress.PushesDriveTheLedger` | ingress/main.py:109-271 | every push that reaches its drain, a duplicate included, finishes or charges each open row the case permits and leaves the others; any other push leaves the ERP alone |
| `Inbox.MarksKeepTheRest` | app/state/firestore.py:174-182 | a mark makes one event dispatched and keeps the phase, the versions and everything else about the case |
| `Ingress.PushesKeepTheRunsCase` | ingress/main.py:109-271 | beside ledger and inbox a push leaves the case as the engine left it, and as it was if the push is turned away |
| `GraphSafety.RoutesExactly` | app/nodes.py:347-480 | an event is routed if and only if the department it names, or else the legacy one, accepts the proposal for its type; the route then is what is declared and routable |

## Left out

- Parse: reads the extended full-date (`YYYY-MM-DD`, ASCII digits) only, the one form in which an expiry is ever accepted or stored; an event's effective date enters already read.
- ErpAgreesAfterEveryPush: stated for dated events of one supplier and one case, departments that may originate every command, no review verdict and no failing call, each event drained before the next; outside those conditions the properties of the step machine hold instead. The catalog is one that screens new packets only.
- ExactlyOnceRecords: stated for one drain at a time, an ERP that accepts only what it applies, and a case that names its supplier; `Overlap.FinalExactlyWhenSerialized` and `SerialWitnesses.ExactlyOnceExactlyWhenNamed` show that the first and the last are needed. Holds are not keyed records and are covered by the agreement theorem.
- RecordsAreFaithful: stated under the same three conditions.
- RedispatchConverges: asks for the same evidence in both runs; `Lifecycle.AnotherReadingRenewsAgain` shows what other evidence does. The phase does not converge, and the contract says to what.
- PermissiveCallsAreAuthorised: speaks of the gate's band when the approval was committed; a later run at the same version may store another band.
- HandlePush: an engine that goes on writing behind the handler's back is no part of the handler as one operation; it is the schedule of `HandlerRefinement.StragglingPushIsASchedule`, for which lifecycle facts are not promised (`Lifecycle.LateRequestTurnsBack`).
- What the workflow library does at a route without an edge is not visible: whether it reports an error is a parameter of a run.
- Scores are exact reals rounded half to even at six digits; binary rounding, infinities and NaN are not modelled. Text is assumed to be encodable.
- Of a command's payload only the supplier's name is kept: addresses, hold types and message texts are not; whether the ERP's record has an address is part of its answer.
- Repairs of malformed stored documents (a missing cycle, a version or a cycle that is no number, an unknown action or status) are not modelled; the policy block is the exception.
- The state `quarantined`, which no decision returns, is not modelled.
- Directive and signal patterns are arbitrary matchers, and the digit class of the splitter is an arbitrary predicate; only the splitter's own boundaries and the date pattern are spelled out.
- Pages that are no list, prompts, schema parsing of model output beyond its outcome, and file loading are not modelled; policy and catalog are values that satisfy what their loaders require.
- Timestamps, trace attributes, redispatch counts, the dead-letter route, HTTP status texts, sign-in and cross-site checks, the console's pages, and fleet statistics are not modelled.
