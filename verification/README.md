# Decision logic of the in-process security state machines

This project models the decision logic of nine components of the library and proves what their
documentation and tests promise of them, over every input, every run and every interleaving of their
locked sections.

- **Data lifecycle**: a catalogue of records that grows by registration and derivation, authorises uses, and
  plans and executes deletions (`Lifecycle*.dfy`, `DataLifecycleManager.dfy`).
- **Failure containment**: per-tenant circuit breakers over a sliding window, single-use permits, retry
  sequencing, idempotency reservations, failure domains and fallbacks (`Failure*.dfy`).
- **Tool authorisation**: leases, counters, per-chain sequencing, data-flow provenance and quarantine
  (`Tool*.dfy`).
- **Credential capabilities** under interleaved issue, resolve, revoke and rotate (`Credential*.dfy`).
- **Goal integrity**: steps and mutations checked before a lock and committed under it (`Goal*.dfy`).
- **Replay stores** for signed messages and approval grants (`Replay*.dfy`, `McpReplayStore.dfy`,
  `HighImpactApproval.dfy`) and the **approval-prompt limiter** (`Prompt*.dfy`, `HighImpactApproval.dfy`).
- **Data labels**: conservative joins and the guard's lineage check (`DataLabel*.dfy`).
- **Trusted context**: assembly and verification of provider requests (`Context*.dfy`,
  `TrustedContextAssembler.dfy`).

## How it is built

Each component has a `*Model` module: its values, its state, one function per locked section, and runs of
such sections. The theorems are lemmas about these functions and runs. Where the source keeps mutable
objects, a class with the same fields has methods, written with the source's branches and loops, whose
contracts tie decision and whole new state to the model's functions; so every theorem about runs is a theorem
about sequences of these calls. Where several threads may interleave, the model's steps are the locked
sections themselves, and what lies between them where it matters, with what a call has learnt so far as part of
the state.

What a guard demands is stated twice. The model has it as a predicate that the operations use; the modules
`*Decisions`, `FailureAdmission`, `FailureOutcomes`, `ToolHistory` and `CredentialBinding` state each decision again, field by field and in
terms of what the run did before, without these predicates, and prove the two equivalent.

Conventions:

- Identifiers that are only compared, digests and timestamps are integers; durations are in the same unit.
- Rates, costs and latencies are floats in the source and `real` in the model.
- A digest is injective, so a digest field holds the value it digests. Context digests normalise texts first,
  so they hold the normalised value. A signature holds the key and what it signs.
- UUIDs are fresh: where a theorem needs it, it says so (`FreshIds`, `Unseen`).
- Verifiers, connectors, vaults, detectors and comparisons of fixed identities are inputs of a call. A
  connector that raises returns no evidence.
- A step of a run carries the time its call read at its start. Theorems that need a non-decreasing clock say
  so (`ClockForward`).
- An absent dictionary entry and the empty one the source would insert on lookup are the same.
- Findings are reduced to the decision they lead to; outcomes that callers treat differently stay apart.

## Where the code falls short

Some promises do not hold of the code as it is. The model keeps the code's behaviour, shows a failing case,
and proves exactly when the promise does hold. `LifecycleExamples.dfy`, `FailureExamples.dfy`,
`GoalInvariants.dfy`, `GoalRaces.dfy`, `CredentialMaterial.dfy` and `ReplayInvariants.dfy` also give concrete runs.

- *Idempotency reservations.* The request validator allows an idempotency key on a request without side
  effects. Settling such a request releases the key even when another permit has reserved it, and a run then
  reaches two side-effecting calls in flight under one key (`FailureExamples.KeyGrantedTwiceAtOnce`). For each
  outcome the reservations stay exact if and only if the settled permit does not carry, without side effects, a
  key another permit has reserved (`FailureInvariants.SettleKeepsReservationsIff`). They are exact
  throughout a run if and only if none of its outcomes does that
  (`FailureInvariants.ReservationsExactThroughoutIff`), which holds when only side-effecting requests carry keys.
  Then each key commits once (`FailureEffects.KeyCommittedOnce`); a second side effect under one key needs such a
  theft (`FailureEffects.SecondCommitNeedsTheft`), and `FailureExamples.KeyCommittedTwice` shows one.
- *Cascading deletion.* A derivation between planning and execution is not noticed, because only the selected
  records are compared. Containment holds if and only if nothing unheld was derived from a target in between
  (`LifecycleDeletion.TombstonesContainIff`).
- *Overlapping executions.* A plan made after another execution has set its tombstones passes the prechecks,
  and whichever finishes last decides, so VERIFIED can become FAILED (`LifecycleOutcomes.OverlappingPlansUndoVerified`).
  VERIFIED is final if and only if no unfinished execution has the artifact in its plan
  (`LifecycleOutcomes.VerifiedIsFinalIff`). For the same reason an execution can end with all its artifacts
  VERIFIED and still block (`LifecycleExamples.OvertakenExecutionBlocks`). It happens if and only if nothing
  failed, nothing was held, some artifact is limited, and every limited one is already VERIFIED
  (`LifecycleOutcomes.AllowedIffAllVerified`); never with executions one at a time.
- *Steps under a superseded manifest.* The commit of a plan step rechecks counters and ids but not the manifest,
  so a step checked before a mutation and committed after it can activate a delegate the new manifest no longer
  allows (`GoalInvariants.StaleStepActivatesDelegate`). The active delegates stay allowed throughout a run if and
  only if no authorised step delegates to somebody its current manifest does not allow
  (`GoalInvariants.DelegatesAllowedThroughoutIff`). In the same way a step commits although its actor has been
  dropped (`GoalRaces.FormerDelegateIsReachable`); the actor is still active if and only if it is the primary
  identity or no mutation since the check drops it (`GoalRaces.ActorStillActiveIff`).
- *Drift history.* The sequence number makes sure that a step commits on the very history its check read
  (`GoalRaces.HistoryAtCommitIsChecked`), as long as the check does not read in the middle of another commit: the
  count is raised before the fragment is kept, and a check in between passes without it
  (`GoalRaces.HalfCommittedHidesFragment`).
- *Material after a revocation.* A resolution uses its capability up under the lock and asks the vault afterwards.
  After a revocation has completed nothing of the reference is used up, but a call that had used its capability up
  before still hands the material out, if and only if the vault has its version
  (`CredentialMaterial.MaterialAfterRevocation`, `MaterialAfterRevocationIsOld`, `UsedIsHandedOutIff`).
- *Clocks that go back.* The capability store turns an expired entry into a consumed one when a later call
  presents an earlier time (`CredentialInvariants.ExpiredReopensIff`). Behind the broker this cannot happen:
  each resolution tests the same expiry at the same time before it reaches the store. The replay stores accept
  again what they have evicted, so one envelope and one grant can be accepted twice
  (`ReplayInvariants.EnvelopeAcceptedTwice`, `GrantAcceptedTwice`). With any clock, a replay is refused if and
  only if nothing since its claim reached the store at or after the retention deadline
  (`ReplayInvariants.ReplayedIff`, `EnvelopeRefusedIff`, `GrantRefusedIff`); under a non-decreasing clock that is
  always so.
- *Context digests.* A request digest normalises texts, so a request whose texts differ from the assembled one
  only in normal form is accepted (`ContextLaws.DecomposedIsAccepted`); nothing else gets through
  (`ContextLaws.AcceptedIsAssembled`).

## Model

| member | source | states |
|---|---|---|
| `LifecycleInvariants.StepKeepsState` | src/trustrail/data_lifecycle.py:168-379 | One locked section of registration, derivation or deletion keeps the catalogue invariant, removes no record, and returns no artifact to the active state |
| `LifecycleInvariants.ReachableStateOk` | src/trustrail/data_lifecycle.py:168-379 | In every reachable catalogue each record obeys its validator and the policy it was admitted under, held records are active, and each direct source is catalogued in the same tenant, at smaller depth, and is no stricter than its child |
| `LifecycleInvariants.HeldStaysActive` | src/trustrail/data_lifecycle.py:755-786 | Whatever follows, a held artifact is never changed, and an artifact once out of the active state never returns to it |
| `LifecycleInvariants.AncestorsBound` | src/trustrail/data_lifecycle.py:972-1053 | A record is as strict as every transitive ancestor in classification, purposes, residencies, retention, consent, holds and subjects, lies strictly deeper, and shares its tenant |
| `LifecycleInvariants.LineageIsAcyclic` | src/trustrail/data_lifecycle.py:314-332 | No artifact of a reachable catalogue descends from itself |
| `LifecycleInvariants.UseMeetsAncestors` | src/trustrail/data_lifecycle.py:446-498 | An authorised use meets the purpose, residency and deadline of every transitive ancestor; authorised training implies every ancestor granted consent and has a trainable classification |
| `LifecycleInvariants.HoldsReachDescendants` | src/trustrail/data_lifecycle.py:1035-1043 | Below a held artifact every descendant carries the hold and stays active in every continuation |
| `LifecycleDecisions.ActiveIffUsable` | src/trustrail/data_lifecycle.py:168-379 | In any run the active records are exactly those some step entered and no execution has marked since |
| `LifecycleDecisions.RegisteredIff` | src/trustrail/data_lifecycle.py:168-219 | A registration enters its record exactly when it is intact, active, original, of a new id with room left, and within the purposes, residencies, retention and training classes of the policy |
| `LifecycleDecisions.DerivedIff` | src/trustrail/data_lifecycle.py:233-379 | A derivation enters a record exactly when it is well formed, within policy and of a new id with room left, and each source is a version of the run not marked since, of its tenant, not too deep, none of whose restrictions it loosens |
| `LifecycleDecisions.UseIff` | src/trustrail/data_lifecycle.py:393-538 | In any run a use is authorised exactly when it names for its tenant the version in which a step entered the artifact, no execution has marked it since, and purpose, residency, time, retention and training are within record and policy |
| `LifecycleDecisions.PlanAllowedIff` | src/trustrail/data_lifecycle.py:552-646 | Planning is allowed exactly when the request is in scope, lists only artifacts of its tenant, reaches something by naming or descent, reaches only expired records if that is its reason, and has not too many copies to delete |
| `LifecycleDecisions.PlanDeletesCopiesDue` | src/trustrail/data_lifecycle.py:632-692 | The actions of a plan are exactly the copies of reached, outstanding, unheld artifacts, each once, the held set the held ones, and it expires its lifetime after it was made |
| `LifecycleDecisions.StartedIff` | src/trustrail/data_lifecycle.py:713-755 | An execution starts exactly when its plan is intact, in scope and unexpired, every version it looked at is still catalogued, and each action is on the planned version, unheld and not VERIFIED |
| `LifecycleDecisions.StartingMarks` | src/trustrail/data_lifecycle.py:755-793 | Starting marks every planned artifact as TOMBSTONED in a new version under the tombstone of this plan, and changes nothing else |
| `LifecycleDeletion.CascadeStaysInTenant` | src/trustrail/data_lifecycle.py:589-600 | Every transitive descendant of a deletion seed is in the requesting tenant, so the tenant filter of the cascade drops none |
| `LifecycleDeletion.SubjectRequestNeedsNoCascade` | src/trustrail/data_lifecycle.py:583-600 | A subject-only request selects the same artifacts with and without cascade, because descendants inherit every subject |
| `LifecycleDeletion.PlanCoversClosure` | src/trustrail/data_lifecycle.py:632-659 | A cascade plan names every active, unheld record among the seeds and their transitive descendants |
| `LifecycleDeletion.TombstonesContainIff` | src/trustrail/data_lifecycle.py:742-786 | After the tombstone phase of a cascade plan every active target or descendant carries a legal hold if and only if no unheld record was derived from a target between planning and that phase |
| `LifecycleDeletion.ContainedForever` | src/trustrail/data_lifecycle.py:296-303 | Once every active target or descendant is held, no later registration, derivation or deletion breaks it |
| `LifecycleDeletion.CascadeContains` | src/trustrail/data_lifecycle.py:706-793 | A cascade plan that reaches its tombstone phase with no derivation since planning leaves, then and after any continuation, only held artifacts active among the targets and their descendants |
| `LifecycleDeletion.DerivationEscapesPlan` | src/trustrail/data_lifecycle.py:755-786 | The failing case: a derivation between planning and execution leaves an active, unheld descendant of a deleted target |
| `LifecycleOutcomes.PlansCoverLocations` | src/trustrail/data_lifecycle.py:648-650 | A plan made by planning has an action for every storage location of every record it names |
| `LifecycleOutcomes.VerifiedOnlyWithEvidence` | src/trustrail/data_lifecycle.py:795-894 | In any run of such plans an artifact is VERIFIED only after a finalising step that saw, for each of its locations, a receipt that says deleted and a verification that says verified, both for that artifact, connector, external reference, tombstone and plan, in time order and the latter for the former, at a location that erases and keeps no backup beyond the execution |
| `LifecycleOutcomes.RecordedOutcome` | src/trustrail/data_lifecycle.py:795-894 | A planned artifact is recorded FAILED exactly when one of its actions lacks a field of that receipt or verification; otherwise it stays as it was when a copy is recoverable, and is VERIFIED when none is |
| `LifecycleOutcomes.AllowedIffShown` | src/trustrail/data_lifecycle.py:822-908 | An execution is allowed exactly when every action has that evidence at a location that erases for good and nothing was held |
| `LifecycleOutcomes.AllowedIffAllVerified` | src/trustrail/data_lifecycle.py:874-908 | Past the prechecks, whatever other executions have done, the answer (allowed exactly when every planned artifact ends VERIFIED and none was held) is right if and only if it is not the case that nothing failed, nothing was held, some artifact is limited, and every limited one was already VERIFIED |
| `LifecycleOutcomes.AllowedImpliesAllVerified` | src/trustrail/data_lifecycle.py:874-908 | An allowed execution leaves every planned artifact VERIFIED and has held nothing back, however executions overlap |
| `LifecycleOutcomes.OneAtATimeDecides` | src/trustrail/data_lifecycle.py:874-908 | With executions one at a time every reachable execution is allowed exactly when all it planned ends VERIFIED and nothing was held |
| `LifecycleOutcomes.VerifiedIsFinalIff` | src/trustrail/data_lifecycle.py:882-894 | A VERIFIED artifact stays VERIFIED in every continuation if and only if no unfinished execution still has it in its plan |
| `LifecycleOutcomes.OverlappingPlansUndoVerified` | src/trustrail/data_lifecycle.py:742-894 | The failing case: a second plan made after a first execution set its tombstones is admitted, and ends an artifact FAILED that the first had VERIFIED |
| `LifecycleExamples.VerifiedCanBecomeFailed` | src/trustrail/data_lifecycle.py:742-894 | A concrete run of two plans for one artifact in which VERIFIED becomes FAILED |
| `LifecycleExamples.OvertakenExecutionBlocks` | src/trustrail/data_lifecycle.py:742-908 | A concrete run in which an execution ends with all it planned VERIFIED and nothing held, and blocks |
| `LifecycleExamples.DeletionCanMissACopy` | src/trustrail/data_lifecycle.py:742-786 | A concrete run in which a cascade plan leaves an active, unheld copy of its target |
| `LifecycleOutcomes.VerifiedIsTerminal` | src/trustrail/data_lifecycle.py:882-894 | With executions one at a time VERIFIED is terminal from the moment it is reached |
| `DataLifecycle.CommonObligations` | src/trustrail/data_lifecycle.py:972-1052 | The obligations accumulated over all sources are exactly those a lifecycle must be as strict as to be as strict as every source |
| `DataLifecycle.Cascade` | src/trustrail/data_lifecycle.py:589-600 | The repeated passes terminate and select exactly the seeds and all their transitive descendants, in whatever order records are visited |
| `DataLifecycle.CollectActions` | src/trustrail/data_lifecycle.py:632-659 | Held records are set aside and every location of every other pending record gets exactly one action |
| `DataLifecycle.DataLifecycleManager.Register` | src/trustrail/data_lifecycle.py:168-219 | The catalogue becomes what registration specifies: the record is added when intact, original, new, within policy and capacity, and otherwise nothing changes |
| `DataLifecycle.DataLifecycleManager.Derive` | src/trustrail/data_lifecycle.py:233-379 | The catalogue becomes what derivation specifies, and the call succeeds exactly when every source is current, active and of the tenant and every restriction is preserved |
| `DataLifecycle.DataLifecycleManager.AuthorizeUse` | src/trustrail/data_lifecycle.py:393-538 | A use is allowed exactly for the expected version of an active record of the tenant, within purposes, residencies, retention and training rules of record and policy |
| `DataLifecycle.DataLifecycleManager.PlanDeletion` | src/trustrail/data_lifecycle.py:552-692 | A plan is returned exactly when planning is allowed, and it has the actions, held artifacts, record versions and expiry the request determines |
| `DataLifecycle.DataLifecycleManager.Tombstone` | src/trustrail/data_lifecycle.py:713-793 | All planned artifacts are marked when every check passes; a failed precheck changes no record |
| `DataLifecycle.DataLifecycleManager.Dispatch` | src/trustrail/data_lifecycle.py:795-872 | The failed artifacts are those with an action not fully proven, the limited ones those with a proven but weak action |
| `DataLifecycle.DataLifecycleManager.Finalise` | src/trustrail/data_lifecycle.py:882-894 | Each planned artifact ends FAILED, TOMBSTONED or VERIFIED as the outcomes of all its actions require |
| `DataLifecycle.DataLifecycleManager.ExecuteDeletion` | src/trustrail/data_lifecycle.py:706-908 | A whole execution either changes nothing and refuses, or tombstones and finalises every planned artifact and answers by the outcomes |
| `FailureInvariants.OutcomeLeavesHalfOpen` | src/trustrail/failure_containment.py:366-422 | An accepted outcome keeps the circuit invariant and always leaves the half-open state, closing exactly on a successful probe whose slid window crosses no threshold |
| `FailureOutcomes.OutcomeOpensIff` | src/trustrail/failure_containment.py:366-422 | In any run an accepted outcome opens a CLOSED circuit, at its time, exactly when the slid window has enough samples and too large a share failed or too great a mean latency, or too much cost or too many abnormal calls in sum; it closes a HALF_OPEN one exactly on a success without that, and the call is allowed exactly when it succeeded within the cost limit without that |
| `FailureOutcomes.WindowIsRecent` | src/trustrail/failure_containment.py:366-422 | In any run the window holds the latest outcomes accepted since the circuit was last closed, up to its size |
| `FailureOutcomes.ClosedHasNotTripped` | src/trustrail/failure_containment.py:786-860 | A CLOSED circuit has not reached any of the four thresholds on what it accepted since it was last closed |
| `FailureOutcomes.FailuresOpen` | src/trustrail/failure_containment.py:814-824 | After the minimum number of outcomes, all failures, a circuit is not CLOSED, and it is OPEN as soon as the last of them is recorded |
| `FailureInvariants.ReachableBreakersOk` | src/trustrail/failure_containment.py:366-422 | In every reachable manager a circuit is CLOSED if and only if it has no opening time, a CLOSED window is below every trip threshold, a probe implies HALF_OPEN, and the window is bounded |
| `FailureInvariants.PermitsSelectAvailable` | src/trustrail/failure_containment.py:656-682 | Every permit of every run selects a known HEALTHY dependency whose circuit is not OPEN |
| `FailureInvariants.OpenCircuitRefuses` | src/trustrail/failure_containment.py:861-891 | Before its cool-down has passed an OPEN circuit is neither selected nor changed by an admission |
| `FailureInvariants.FallbackOnlyWhenNeeded` | src/trustrail/failure_containment.py:656-746 | Over any run a permit names a fallback exactly when its primary was unhealthy, OPEN, waiting for its probe or in a failure domain at its limit; it then selects the target declared and allow-listed for that primary, in another failure domain, and otherwise the primary itself |
| `FailureAdmission.PermittedIff` | src/trustrail/failure_containment.py:166-253 | In any run an attempt is permitted exactly when it is within policy, new, the next retry of its operation and under an unused key if it has side effects, and a dependency may be chosen: the primary when it is healthy and its circuit closed below the domain limit, unprobed half-open or past its cool-down, else the named fallback when that fits and is so; the permit names it and expires with its lifetime |
| `FailureAdmission.RecordedIff` | src/trustrail/failure_containment.py:267-368 | In any run an outcome is recorded exactly when its permit is an unaltered one of the run, not settled before and not expired, and the report is authentic, made for that permit within its time, and not used before |
| `FailureAdmission.ActiveIffOutstanding` | src/trustrail/failure_containment.py:339-360 | The active permits are exactly those granted in the run and not yet settled |
| `FailureInvariants.ProbeStaysOut` | src/trustrail/failure_containment.py:669-672 | While a circuit stays HALF_OPEN with its probe out, the probe stays out and no permit selects it |
| `FailureInvariants.OnePermitPerEpisode` | src/trustrail/failure_containment.py:756-758 | Once a HALF_OPEN circuit has issued a permit no second one is issued until it leaves HALF_OPEN |
| `FailureInvariants.RetriesAreSequential` | src/trustrail/failure_containment.py:599-633 | The authorised attempts of a tenant and operation carry retry counts 0, 1, 2, ... in issue order and number at most the retry limit plus one |
| `FailureInvariants.SettleKeepsReservationsIff` | src/trustrail/failure_containment.py:901-909 | Settling a permit keeps the active reservations equal to the keys of active side-effecting permits if and only if the permit does not carry, without side effects, a key another permit has reserved |
| `FailureInvariants.ReservationsExactThroughoutIff` | src/trustrail/failure_containment.py:773-909 | The reservations are exact after every step of a run if and only if none of its accepted outcomes settles a permit that carries, without side effects, a key reserved at that moment |
| `FailureInvariants.ReachableReservationsExact` | src/trustrail/failure_containment.py:773-785 | When only side-effecting requests carry keys, the active reservations of every reachable manager are exactly the pairwise-distinct keys of active side-effecting permits |
| `FailureInvariants.KeyWithoutSideEffectStealsReservation` | src/trustrail/models/failure_containment.py:276-279 | The failing case: the request validator admits a key on a request without side effects, and two admissions reach a state where settling that request releases a key another permit holds |
| `FailureExamples.KeyGrantedTwiceAtOnce` | src/trustrail/failure_containment.py:773-909 | The failing case as a whole run: a write reserves a key, a read carrying the same key settles, a second write is granted, and two side-effecting permits are in flight under one key |
| `FailureEffects.KeyGuardedUntilStolen` | src/trustrail/failure_containment.py:773-909 | Until an accepted outcome steals the key, it is reserved whenever a side-effecting permit holds it, and one permit at most does |
| `FailureEffects.SecondCommitNeedsTheft` | src/trustrail/failure_containment.py:641-909 | A second side effect is committed under a key only if an outcome no later than the first commit stole the reservation of that key |
| `FailureEffects.KeyCommittedOnce` | src/trustrail/failure_containment.py:641-909 | When only side-effecting requests carry keys, no two accepted outcomes of a run commit the same key |
| `FailureExamples.KeyCommittedTwice` | src/trustrail/failure_containment.py:773-909 | The failing case as a whole run: after a theft two side effects are committed under one key |
| `FailureInvariants.CommittedNeverReserved` | src/trustrail/failure_containment.py:901-909 | Committed and reserved keys are disjoint in every reachable manager |
| `FailureInvariants.CommittedNeverAuthorisesAgain` | src/trustrail/failure_containment.py:641-653 | A committed key stays committed and never again authorises a side-effecting attempt |
| `FailureInvariants.SettledOnce` | src/trustrail/failure_containment.py:339-368 | No permit and no report id is accepted twice in a run |
| `FailureIsolation.AdmitLocal` | src/trustrail/failure_containment.py:166-253 | An admission decides and acts on its tenant's slice of the state alone |
| `FailureIsolation.SettleLocal` | src/trustrail/failure_containment.py:339-422 | An outcome decides and acts on its tenant's slice of the state alone |
| `FailureIsolation.OtherTenantsStepIsInvisible` | src/trustrail/failure_containment.py:166-253 | A step on another tenant's request or permit changes nothing of this tenant's slice |
| `FailureIsolation.OtherTenantsCanBeDeleted` | src/trustrail/failure_containment.py:166-253 | Deleting the other tenants' steps from a run whose report ids are not shared across tenants leaves this tenant's decisions and slice unchanged |
| `FailureRecovery.ProbesSlideTheWindow` | src/trustrail/failure_containment.py:366-422 | While a tripped circuit has not closed, its window is the old window slid by the probes so far, and after the latest probe it still crosses a threshold |
| `FailureRecovery.RecoveryIsBounded` | src/trustrail/failure_containment.py:366-422 | If only good probes arrive, a circuit that has not closed has seen fewer of them than its window holds |
| `FailureRecovery.NextProbeDecides` | src/trustrail/failure_containment.py:392-422 | The next good probe closes the circuit exactly when the slid window crosses no threshold, and otherwise re-opens it at that time |
| `FailureRecovery.CoolDownAdmitsProbe` | src/trustrail/failure_containment.py:861-891 | Past the cool-down a well-formed request on an OPEN circuit is admitted as its probe, with the window kept |
| `FailureRecovery.FreshPermitSettles` | src/trustrail/failure_containment.py:267-368 | An authentic, timely report on a permit just issued is always accepted |
| `FailureContainment.CountTripped` | src/trustrail/failure_containment.py:673-682 | Counting domain members in any order, advancing each on the way, gives the number of circuits of the domain that are not CLOSED |
| `FailureContainment.FailureContainmentManager.DependencyUnavailable` | src/trustrail/failure_containment.py:656-682 | Answer and circuits are what availability specifies |
| `FailureContainment.FailureContainmentManager.SelectFallback` | src/trustrail/failure_containment.py:684-746 | Returns the declared fallback exactly when it is known, available and allowed for the request |
| `FailureContainment.FailureContainmentManager.IssuePermit` | src/trustrail/failure_containment.py:748-785 | The permit and every table it touches are what issuing specifies |
| `FailureContainment.FailureContainmentManager.Authorize` | src/trustrail/failure_containment.py:166-253 | Decision and whole new state are what admission specifies |
| `FailureContainment.FailureContainmentManager.RecordOutcome` | src/trustrail/failure_containment.py:267-505 | Decision and whole new state are what settling specifies |
| `FailureContainment.FailureContainmentManager.FinishSideEffect` | src/trustrail/failure_containment.py:901-909 | The permit's key leaves the reservations, and joins the committed keys when the report says so |
| `ToolInvariants.ReachableSequencing` | src/trustrail/agency.py:435-457 | With a semantic policy at most one call per chain is in flight, every history id is a verified call of its chain, and adjacent history entries are allowed transitions when unlisted ones are denied, although they are checked at authorisation and appended at completion |
| `ToolInvariants.VerifyKeepsSequencing` | src/trustrail/agency.py:270-318 | Closing a call, whether verified, failed or quarantined, keeps the sequencing invariant |
| `ToolInvariants.QuarantineIsForever` | src/trustrail/agency.py:302-316 | From the step that quarantines a chain on, its history never changes and no call of it is authorised |
| `ToolInvariants.CallsAreConserved` | src/trustrail/agency.py:1107-1123 | In every run the call counter equals the sum over chains, over operations and over intents, and the leases in flight plus those released |
| `ToolInvariants.NoLeaseReleasedTwice` | src/trustrail/agency.py:254-300 | No two releases of a run concern the same lease |
| `ToolInvariants.LimitsHold` | src/trustrail/agency.py:1045-1105 | Session, chain, parallel and autonomous limits hold throughout, and no operation is attempted more often than its retries plus one |
| `ToolInvariants.IntentCallsBounded` | src/trustrail/agency.py:1095-1099 | Calls under an intent never exceed the largest limit any request carried for it |
| `ToolInvariants.ApprovalUsedOnce` | src/trustrail/agency.py:1060-1067 | No two authorised calls of a session consume the same approval |
| `ToolInvariants.FlowUsesBounded` | src/trustrail/agency.py:459-550 | When unlisted flows are denied, every value passed from call to call came from a verified call, no more often than some rule for those tools and that argument allows, which lists a label of that call's outputs |
| `ToolInvariants.LabelUsesBounded` | src/trustrail/agency.py:459-550 | Over any run, whether or not unlisted flows are denied, the granted calls that pass a value of one label along one flow number at most what the first rule listing that label allows, none before the source is verified, and none at all when no rule lists it and unlisted flows are denied |
| `ToolDecisions.AuthorizedIff` | src/trustrail/agency.py:141-239 | In any run a call is authorised exactly when it passed the other checks, is of the session, uses an approval nobody used if it must, and leaves room in the session, chain, operation, intent, autonomous and parallel counts of the calls granted so far; and, under a semantic policy, when its chain has no condemned or open call and may continue so, and every value it passes on was verified earlier on the chain as that very output and the first rule listing its label lets it pass once more |
| `ToolDecisions.QuarantinedIff` | src/trustrail/agency.py:302-316 | A chain is quarantined exactly when a call of it was closed with a report that failed its postconditions |
| `ToolDecisions.HistoryIsVerified` | src/trustrail/agency.py:270-300 | The history of a chain lists exactly its verified calls in the order of their verification |
| `ToolDecisions.GivenBackIff` | src/trustrail/agency.py:254-318 | A lease is released by completion exactly when it is held, of the session and without semantic policy, and settled by verification exactly when it is held under one |
| `ToolHistory.CountersCountGrants` | src/trustrail/agency.py:1108-1124 | Every counter of the budget is the number of calls granted so far that it is about |
| `ToolHistory.RecordedIffVerified` | src/trustrail/agency.py:270-300 | The verified calls of the budget are exactly those that some step of the run verified, with the tool, chain and intent granted and the resources and outputs reported |
| `ToolAuthorization.ToolAuthorizer.DataFlowsAllowed` | src/trustrail/agency.py:459-550 | True exactly when every flow is intact, from a verified call of the chain with that label and digest, and within its rule |
| `ToolAuthorization.ToolAuthorizer.SequenceAllowed` | src/trustrail/agency.py:435-457 | True exactly when the last verified call of the chain may be followed by this tool |
| `ToolAuthorization.ToolAuthorizer.BudgetAllows` | src/trustrail/agency.py:1045-1105 | True exactly when no limit of session, chain, operation, parallelism, autonomy, intent or approval is reached |
| `ToolAuthorization.ToolAuthorizer.RecordFlows` | src/trustrail/agency.py:220-227 | Each flow of the request is counted once |
| `ToolAuthorization.ToolAuthorizer.Reserve` | src/trustrail/agency.py:1107-1123 | Every counter, the lease and the approval are recorded, and nothing else changes |
| `ToolAuthorization.ToolAuthorizer.Authorize` | src/trustrail/agency.py:141-239 | Outcome and whole new budget are what authorisation specifies |
| `ToolAuthorization.ToolAuthorizer.Complete` | src/trustrail/agency.py:254-268 | A lease is released exactly when it belongs to the session, is in flight and is not semantic |
| `ToolAuthorization.ToolAuthorizer.VerifyCompletion` | src/trustrail/agency.py:270-318 | Outcome and whole new budget are what verified completion specifies |
| `CredentialInvariants.ExpiredReopensIff` | src/trustrail/credentials.py:174-203 | In the store alone, an entry found expired is consumed by a second call if and only if that call presents a time before the expiry; under a non-decreasing clock it is final |
| `CredentialInvariants.RunKeepsState` | src/trustrail/credentials.py:174-222 | Interleaving issue, resolve, revoke and rotate, a store entry only moves from STORED to CONSUMED or REVOKED and no entry is ever found expired in the store |
| `CredentialInvariants.UsedAtMostOnce` | src/trustrail/credentials.py:501-527 | Each capability is used up at most once |
| `CredentialInvariants.RegisteredBeforeNeverUsedAfter` | src/trustrail/credentials.py:561-603 | A capability registered before a revocation or rotation reaches the store is never used up after it |
| `CredentialInvariants.UsedIsCurrent` | src/trustrail/credentials.py:561-603 | Once a revocation or rotation has reached the store, and until the tables of the reference change again, only capabilities of an unrevoked reference and its current version are used up, even by calls that passed their checks before |
| `CredentialInvariants.RevokedNeverUsed` | src/trustrail/credentials.py:561-575 | After a revocation has completed no capability of the reference is used up until it is rotated |
| `CredentialMaterial.HandedOutAtMostOnce` | src/trustrail/credentials.py:501-559 | Each capability yields material at most once, however uses and fetches interleave |
| `CredentialMaterial.HandedOutWasUsed` | src/trustrail/credentials.py:501-559 | Material is handed out only by a call that has itself used the capability up, and at the version the vault answers with |
| `CredentialMaterial.MaterialIsOldOrCurrent` | src/trustrail/credentials.py:501-603 | After a revocation or rotation has reached the store, and until the tables change again, material of the reference is handed out only for capabilities used up before, or used up since while current |
| `CredentialMaterial.MaterialAfterRevocationIsOld` | src/trustrail/credentials.py:501-575 | Material handed out for a reference after its revocation has completed is of a capability used up before that |
| `CredentialMaterial.UsedIsHandedOutIff` | src/trustrail/credentials.py:525-559 | Whatever other calls do, revocations included, a call that has used its capability up hands the material out if and only if the vault then has the version of the capability |
| `CredentialMaterial.MaterialAfterRevocation` | src/trustrail/credentials.py:501-575 | The failing case as a whole run: one call uses its capability up, another revokes the reference to the end, and the first still hands the material out |
| `CredentialBinding.UsedForItsExecution` | src/trustrail/credentials.py:315-527 | In any run whatever is used up was presented by the same thread, intact and within its lifetime, with the very execution it is bound to, authentic and current, while its version was in use; and had been issued to that execution under an active binding, within the lifetime of both, at the version then in use |
| `CredentialBinding.HandedOutForItsExecution` | src/trustrail/credentials.py:315-559 | So does whatever material is handed out |
| `CredentialBinding.UsedIff` | src/trustrail/credentials.py:501-527 | A capability is used up exactly by a call that presented it and finds it issued and neither used up nor withdrawn since |
| `CredentialBinding.IssuedIff` | src/trustrail/credentials.py:388-446 | A capability is issued exactly when its thread drafted it, the vault holds its version, its id is new to the store and there is room |
| `CredentialBinding.IssueBeginsIff` | src/trustrail/credentials.py:315-388 | A draft is made exactly for an authentic, current execution under an active binding in use, for a lifetime from one second to that of the binding, and ends with that or with the execution |
| `CredentialBinding.StoredIffOutstanding` | src/trustrail/credentials.py:155-222 | The store holds as STORED exactly the capabilities issued and neither used up nor withdrawn since |
| `CredentialBinding.WithdrawalChangesStored` | src/trustrail/credentials.py:205-222 | What a withdrawal counts is what it changes: exactly the stored capabilities of the reference, which end REVOKED |
| `CredentialBinding.RegistrationIff` | src/trustrail/credentials.py:155-172 | A capability is registered exactly under a new id with room left, and is a replay exactly when the store holds this very one |
| `CredentialBinding.InUseIffHistory` | src/trustrail/credentials.py:561-603 | A reference is in use at a version exactly when its last rotation, or the start, set it and nothing revoked it since |
| `CredentialBinding.UninterruptedResolveIff` | src/trustrail/credentials.py:462-559 | A resolution with nothing in between hands material out exactly when the capability is presented intact in its lifetime by its own authentic, current execution, in use, stored, and at the version of the vault |
| `CredentialBroker.MemoryCredentialCapabilityStore.Register` | src/trustrail/credentials.py:155-172 | Result and new store are what registration specifies, with replay and collision told apart |
| `CredentialBroker.MemoryCredentialCapabilityStore.Consume` | src/trustrail/credentials.py:174-203 | Result and new store are what consumption specifies |
| `CredentialBroker.MemoryCredentialCapabilityStore.RevokeReference` | src/trustrail/credentials.py:205-222 | Exactly the stored entries of the reference become REVOKED, and the count is their number |
| `CredentialBroker.CredentialBroker.Issue` | src/trustrail/credentials.py:315-446 | An uninterrupted issue equals its two locked sections in sequence |
| `CredentialBroker.CredentialBroker.Resolve` | src/trustrail/credentials.py:462-559 | An uninterrupted resolution equals its two locked sections and its vault read in sequence |
| `CredentialBroker.CredentialBroker.Revoke` | src/trustrail/credentials.py:561-575 | An uninterrupted revocation equals its two locked sections in sequence, and returns how many capabilities of the reference were still stored |
| `CredentialBroker.CredentialBroker.Rotate` | src/trustrail/credentials.py:577-603 | An uninterrupted rotation equals its two locked sections in sequence and returns how many capabilities of the reference were still stored; an unbound reference is an error and changes nothing |
| `GoalInvariants.RevisionCountsMutations` | src/trustrail/goal_integrity.py:319-392 | However checks and commits of racing mutations interleave, the current revision less the first equals the mutation count and the number of approvals used, and stays within the limit |
| `GoalInvariants.ApprovalUsedOnce` | src/trustrail/goal_integrity.py:355-371 | Each approval authorises at most one mutation of a run |
| `GoalInvariants.StepsAreSequential` | src/trustrail/goal_integrity.py:206-222 | However step checks interleave, the authorised sequences are exactly 1 to the step count, ids are distinct, and the drift history is what the authorised steps leave |
| `GoalInvariants.AuthorizedStepMeetsItsManifest` | src/trustrail/goal_integrity.py:522-553 | Every authorised step keeps to the actions, constraints and delegates of the manifest it names, whose digest was the current one of this execution at that or an earlier moment of the run |
| `GoalDecisions.AuthorizedStepFits` | src/trustrail/goal_integrity.py:171-222 | Every authorised step was, when checked under a manifest then current, intended, clean, short enough, of an allowed action and delegate, bound to constraints of the goal and to all of them if so required, next in sequence, and of the primary identity or a delegate |
| `GoalDecisions.PassesIff` | src/trustrail/goal_integrity.py:171-206 | In any run a step passes its check exactly when all of that holds |
| `GoalDecisions.StepAuthorizedIff` | src/trustrail/goal_integrity.py:206-222 | A commit authorises a step exactly when its thread has checked it, nothing has touched it since, and it still comes next |
| `GoalDecisions.UninterruptedStepIff` | src/trustrail/goal_integrity.py:171-243 | A step checked and committed with nothing in between is authorised exactly when all of that holds of the state |
| `GoalDecisions.ActiveIffDelegated` | src/trustrail/goal_integrity.py:206-222 | The active delegates are exactly those an authorised step delegated to and no mutation has dropped since |
| `GoalDecisions.AuthorizedMutationFits` | src/trustrail/goal_integrity.py:259-392 | Every authorised mutation fits the manifest current at its commit and changes something, has an authentic, timely, exact approval of an approver that nobody used before, and yields the manifest that replaces exactly what it proposes |
| `GoalDecisions.MutationBeginsIff` | src/trustrail/goal_integrity.py:259-317 | A mutation is taken up exactly when its manifest is current and intact in time, it fits and changes something, and its actor may act |
| `GoalDecisions.CountedIff` | src/trustrail/goal_integrity.py:319-352 | A mutation taken up is counted exactly when the limit allows one more and its approval is authentic, timely, exact, of an approver and unused, and is given up otherwise |
| `GoalDecisions.UninterruptedMutationIff` | src/trustrail/goal_integrity.py:259-403 | A mutation checked, counted and committed with nothing in between is authorised exactly when all of that holds and the limits allow one more |
| `GoalDecisions.HistoryIsMostRecent` | src/trustrail/goal_integrity.py:774-780 | In any run the drift history is exactly the most recent fragments of the authorised steps whose joined text fits the character limit |
| `GoalDecisions.DigestTells` | src/trustrail/goal_integrity.py:419-468 | A digest tells everything about a manifest except the order of its constraints |
| `GoalInvariants.TrimIsIncremental` | src/trustrail/goal_integrity.py:774-780 | Trimming the drift history after every step keeps what trimming the whole history at once would keep |
| `GoalInvariants.TrimIsLongestFit` | src/trustrail/goal_integrity.py:774-780 | The drift history is the longest run of most recent fragments within the character limit |
| `GoalInvariants.StepCommitKeepsDelegatesIff` | src/trustrail/goal_integrity.py:206-222 | The commit of a step leaves every active delegate allowed by the current manifest if and only if the step delegates to nobody or to one it allows |
| `GoalInvariants.StaleStepActivatesDelegate` | src/trustrail/goal_integrity.py:206-222 | The failing case: a step checked before and committed after a mutation that removes its delegate leaves that delegate active and able to propose |
| `GoalInvariants.DisallowedDelegateIsReachable` | src/trustrail/goal_integrity.py:206-222 | A concrete run of one step and one mutation ends with an active delegate the current manifest does not allow |
| `GoalInvariants.DelegatesAllowedThroughoutIff` | src/trustrail/goal_integrity.py:206-222 | The active delegates stay allowed at every moment of a run if and only if no authorised step delegates to somebody the manifest current at that moment does not allow |
| `GoalInvariants.DelegatesStayAllowed` | src/trustrail/goal_integrity.py:388-392 | Without that race every active delegate is always one the current manifest allows |
| `GoalRaces.HistoryAtCommitIsChecked` | src/trustrail/goal_integrity.py:189-222 | Every authorised step had a check of the same thread, untouched since, and the drift history, counters and ids that the check read are those the step commits on, since no other step is authorised in between |
| `GoalRaces.ActorStillActiveIff` | src/trustrail/goal_integrity.py:206-222 | The actor of an authorised step may still act at its commit if and only if it is the primary identity or no mutation committed since the check drops it |
| `GoalRaces.FormerDelegateCommits` | src/trustrail/goal_integrity.py:206-222 | The failing case: a step whose actor a mutation drops between check and commit is authorised |
| `GoalRaces.FormerDelegateIsReachable` | src/trustrail/goal_integrity.py:206-222 | A concrete run authorises a step of a delegate that is no longer active |
| `GoalRaces.HalfCommittedHidesFragment` | src/trustrail/goal_integrity.py:206-222 | A check that reads in the middle of a commit passes exactly the counter tests the next commit repeats, without seeing the fragment that the commit then keeps |
| `GoalIntegrity.GoalIntegrityGuard.RememberStep` | src/trustrail/goal_integrity.py:774-780 | The loop leaves the trimmed history and its exact length |
| `GoalIntegrity.GoalIntegrityGuard.ValidateStep` | src/trustrail/goal_integrity.py:171-243 | An uninterrupted step equals its check and its commit in sequence |
| `GoalIntegrity.GoalIntegrityGuard.ValidateMutation` | src/trustrail/goal_integrity.py:259-403 | An uninterrupted mutation equals its check, its count and its commit in sequence |
| `ReplayInvariants.EvictionIsInvisible` | src/trustrail/mcp_messages.py:117-126 | Under a non-decreasing clock the evicting store gives every answer, FULL included, of a log that forgets nothing |
| `ReplayInvariants.RememberedIff` | src/trustrail/mcp_messages.py:106-126 | With any clock a claim not made again is still stored, with its deadline, if and only if no offer since reached the store at or after that deadline |
| `ReplayInvariants.ReplayedIff` | src/trustrail/mcp_messages.py:106-126 | With any clock, the next offer of a claimed key that reaches the store is answered REPLAYED if and only if no offer since the claim, itself included, reached the store at or after the deadline of the claim |
| `ReplayInvariants.BackwardClockForgets` | src/trustrail/mcp_messages.py:117-126 | The failing case: after an offer past its deadline the store accepts again, at an earlier time, what the log still refuses |
| `ReplayInvariants.AcceptedAgainOnlyAfterDeadline` | src/trustrail/mcp_messages.py:374-386 | A key is accepted again only at or after the deadline of its first claim |
| `ReplayInvariants.NoErrorAndNoOverflow` | src/trustrail/mcp_messages.py:115-126 | The past-expiry error is never reached and the store never outgrows its capacity |
| `ReplayInvariants.EnvelopeRefusedIff` | src/trustrail/mcp_messages.py:323-407 | With any clock, an accepted envelope presented again while fresh is refused as a replay if and only if every fresh authentic message in between came before its retention deadline |
| `ReplayInvariants.GrantRefusedIff` | src/trustrail/high_impact_approval.py:439-447 | With any clock, an accepted grant presented again before its expiry is refused as a replay if and only if every fresh authentic grant in between came before its retention deadline |
| `ReplayInvariants.EnvelopeAcceptedTwice` | src/trustrail/mcp_messages.py:323-407 | The failing case: a fresh authentic envelope accepted twice, with a later message in between and the clock gone back |
| `ReplayInvariants.GrantAcceptedTwice` | src/trustrail/high_impact_approval.py:439-447 | The failing case: a fresh authentic grant accepted twice, with a later grant in between and the clock gone back |
| `ReplayInvariants.EnvelopeAcceptedOnce` | src/trustrail/mcp_messages.py:323-407 | Under a non-decreasing clock no message envelope is accepted twice |
| `ReplayInvariants.GrantAcceptedOnce` | src/trustrail/high_impact_approval.py:439-447 | Under a non-decreasing clock no approval grant is accepted twice |
| `ReplayInvariants.GrantsWellTimed` | src/trustrail/high_impact_approval.py:185-205 | Grant claims never reach the past-expiry error and stay within capacity |
| `ReplayInvariants.MessagesWellTimed` | src/trustrail/mcp_messages.py:377-386 | Message claims never reach the past-expiry error and stay within capacity |
| `ReplayDecisions.MessageAcceptedIff` | src/trustrail/mcp_messages.py:323-407 | With any clock a message is accepted exactly when it is authentic, neither from the future nor too old, unexpired, of no longer life than allowed, its key and nonce are not remembered, and there is room |
| `ReplayDecisions.MessageOffered` | src/trustrail/mcp_messages.py:372-380 | A message is remembered until the later of its expiry and its greatest age, plus the allowance for the clock, which is after every time it may be accepted |
| `ReplayDecisions.GrantAcceptedIff` | src/trustrail/high_impact_approval.py:718-776 | With any clock a grant is accepted exactly when it is authentic, in time, of no longer life than allowed, its nonce is not remembered, and there is room |
| `ReplayDecisions.AnsweredIff` | src/trustrail/mcp_messages.py:106-126 | With any clock the answer to an offer, by what the offers so far have left remembered |
| `McpMessages.MemoryMCPReplayStore.Claim` | src/trustrail/mcp_messages.py:106-126 | Answer and new entries are what a claim specifies, expired entries deleted |
| `McpMessages.MCPMessageVerifier.Verify` | src/trustrail/mcp_messages.py:323-407 | Verdict and store are those of offering the message with its retention deadline |
| `HighImpactApproval.MemoryHighImpactApprovalStateStore.ClaimApproval` | src/trustrail/high_impact_approval.py:185-205 | Answer and rebuilt claims are what a claim specifies |
| `HighImpactApproval.HighImpactApprovalGate.ClaimGrant` | src/trustrail/high_impact_approval.py:759-776 | Verdict and store are those of offering the grant with its retention deadline |
| `PromptInvariants.PruneIsFilter` | src/trustrail/high_impact_approval.py:168-172 | On a queue in time order, popping expired prompts from the front removes exactly the expired ones |
| `PromptInvariants.PruningIsInvisible` | src/trustrail/high_impact_approval.py:154-183 | With a fixed window and a non-decreasing clock the pruned queues give every answer, FULL included, of counting a never-pruned log beyond the cutoff |
| `PromptInvariants.EveryWindowBounded` | src/trustrail/high_impact_approval.py:179-183 | Any interval of the window's length holds at most the allowed number of stored prompts per key, and at most the repeat limit per preview |
| `PromptDecisions.AnsweredIff` | src/trustrail/high_impact_approval.py:154-183 | Under a non-decreasing clock a prompt is refused FULL exactly when nothing of its key was stored within the window and enough other keys were, refused as FATIGUE exactly when otherwise its key or preview has used up the window, and stored in all other cases |
| `HighImpactApproval.MemoryHighImpactApprovalStateStore.PopExpired` | src/trustrail/high_impact_approval.py:169-170 | The loop drops exactly the expired front |
| `HighImpactApproval.MemoryHighImpactApprovalStateStore.PruneAll` | src/trustrail/high_impact_approval.py:168-172 | Every queue is pruned and empty queues are dropped |
| `HighImpactApproval.MemoryHighImpactApprovalStateStore.CountRepeats` | src/trustrail/high_impact_approval.py:179 | The number of prompts of a queue that showed the preview |
| `HighImpactApproval.MemoryHighImpactApprovalStateStore.RecordPrompt` | src/trustrail/high_impact_approval.py:154-183 | Answer and new queues are what recording specifies |
| `DataLabelLaws.CombinedIsLeast` | src/trustrail/data_labels.py:326-342 | A restriction is as strict as the combined one if and only if it is as strict as that of every source |
| `DataLabelLaws.JoinPassesGuard` | src/trustrail/data_labels.py:585-620 | A joined label passes the guard's lineage and downgrade check against its own sources whenever they verify |
| `DataLabelLaws.JoinVerifies` | src/trustrail/data_labels.py:201-269 | A joined label verifies for as long as its sources do and its signer is trusted for their tenant |
| `DataLabelLaws.JoinIsLeastStrict` | src/trustrail/data_labels.py:628-670 | Every label the guard accepts over the same sources is at least as strict as the joined one |
| `DataLabelLaws.JoinIgnoresOrder` | src/trustrail/data_labels.py:286-378 | The order of the sources changes neither whether a join succeeds nor the label it gives |
| `DataLabelLaws.NestedIsFlat` | src/trustrail/data_labels.py:326-378 | However joins are nested, the restrictions are those of one flat join of the origins |
| `DataLabelLaws.NestingsAgree` | src/trustrail/data_labels.py:326-378 | Two nestings over the same origins give the same restrictions |
| `DataLabelLaws.ChainKeepsOrigins` | src/trustrail/data_labels.py:326-378 | A chain of joins of any shape is as strict as every transitive origin |
| `DataLabelDecisions.JoinedIff` | src/trustrail/data_labels.py:286-378 | A join succeeds exactly for different sources, each signed by its issuer with a key in force for its tenant and within its time, of one tenant of the signer, with something in common in every part and time left; the label names them and has their restrictions part by part |
| `DataLabelDecisions.LineageIff` | src/trustrail/data_labels.py:585-620 | The guard accepts a lineage exactly when the sources are the declared ones, without repetition, each so trusted, of the tenant of the label, and loosened in nothing |
| `DataLabelDecisions.CombinedParts` | src/trustrail/data_labels.py:326-342 | Combined restrictions have in each part exactly what all sources have, the handling duties of any, the highest class and the earliest end |
| `DataLabels.Intersection` | src/trustrail/data_labels.py:676-684 | Exactly what every label has in that part of its restrictions |
| `DataLabels.Restrict` | src/trustrail/data_labels.py:642-653 | The parts computed one by one are the combined restrictions of all labels |
| `DataLabels.JoinLabels` | src/trustrail/data_labels.py:286-378 | Gives exactly the specified join, or none |
| `DataLabels.DowngradeFree` | src/trustrail/data_labels.py:628-670 | Comparing with the common restrictions decides exactly whether the label is as strict as each source and of their one tenant |
| `DataLabels.LineageAllowed` | src/trustrail/data_labels.py:585-620 | Accepts exactly when all sources verify, are the declared ones without repetition, and none is weakened |
| `ContextLaws.SortKeeps` | src/trustrail/context.py:220 | Ordering by role and ordinal rearranges the segments and loses none |
| `ContextLaws.MessageIsValid` | src/trustrail/context.py:565-591 | A segment of a valid hierarchy becomes a message with exactly its origin's authority; data is wrapped between the markers |
| `ContextLaws.AssembledIsAccepted` | src/trustrail/context.py:170-342 | What assembly returns is accepted for the same identities exactly within the time window |
| `ContextLaws.EverySegmentOnce` | src/trustrail/context.py:194-228 | The messages of an assembled request are those of the prepared segments in role and ordinal order, each exactly once |
| `ContextLaws.AcceptedIsLayered` | src/trustrail/context.py:638-708 | Any accepted request lists system, developer, user and data messages in that order, each with its origin's authority, from distinct segments and, when required, with exactly one system-policy message |
| `ContextLaws.AcceptedIsAssembled` | src/trustrail/context.py:258-342 | Against the manifest of an assembled request exactly those requests are accepted that are in the window, carry the same identities, keep the hierarchy and equal the assembled one up to the normal form of its texts |
| `ContextDecisions.VerifiedIff` | src/trustrail/context.py:258-342 | Any request is accepted exactly when its manifest is signed with the key, no older than the allowed age and no further ahead than the skew, made under the same policy for the same identities, and covers each message, all of which have the authority of their origin, in layers, from different segments, with the one system message required |
| `ContextDecisions.AssembledIff` | src/trustrail/context.py:170-235 | A request is assembled exactly when the segments are within all limits, different, of the right tenant, purpose and authority, and may be sent; it then has one message for each, arranged by layer and ordinal, under a signed manifest that describes them |
| `ContextLaws.OtherFormIsAccepted` | src/trustrail/context.py:258-342 | The failing case: a request whose system message is another text of the same normal form than the assembled one is accepted |
| `ContextLaws.DecomposedIsAccepted` | src/trustrail/context.py:258-342 | The failing case with its texts: a letter followed by its accent is accepted in place of the accented letter |
| `TrustedContext.TrustedContextAssembler.StructureAllowed` | src/trustrail/context.py:374-500 | True exactly when identities, counts, ordinals, sizes, tenant, purpose and hierarchy of all segments are in order |
| `TrustedContext.TrustedContextAssembler.PrepareAll` | src/trustrail/context.py:190-218 | Succeeds exactly when no content must be refused, and gives each segment as it is or escaped |
| `TrustedContext.TrustedContextAssembler.AssembleRequest` | src/trustrail/context.py:170-235 | Gives exactly the specified request and manifest, or none; unless it reports a transformation, no content was altered |
| `TrustedContext.TrustedContextAssembler.HierarchyKept` | src/trustrail/context.py:638-708 | The single pass accepts exactly the layered requests with distinct segments and, when required, one system message |
| `TrustedContext.TrustedContextAssembler.VerifyProviderRequest` | src/trustrail/context.py:258-342 | Accepts exactly the requests that verification specifies |

## Left out

- Cryptography: signatures, HMAC and SHA-256 are opaque inputs or injective digests.
- Audit sinks, events, hooks, compensators, message texts and severities; they feed no decision.
- Text and content detectors: hijack patterns, Unicode controls, reserved tokens, escaping and the normaliser are inputs.
- Field formats and size limits of the record classes, other than those a decision reads.
- `src/trustrail/guard.py`, the browser, code-execution, grounding, citation and delegated-identity guards, and the command line: long lists of comparisons or wiring.
- Several processes sharing a store, and liveness after lost or expired permits: the code claims neither.
- Reads made outside a lock are taken to happen at one moment, except that a goal mutation reads the digest and the mutation count at two.
- GoalRaces.HistoryAtCommitIsChecked: the runs take each commit as one moment, so a check that reads in the middle of one is outside them; `HalfCommittedHidesFragment` says what such a check sees.
- Failure containment inserts a fresh circuit on lookup; the model treats an absent circuit as that fresh one.
- Iteration order: plan actions, evictions and pruned keys are visited in any order, so the sorted order of a plan's actions is not stated.
- Tool authorisation: the checks of identity, intent, scope, arguments, ownership, facts and destinations, and the comparison of a report with its postconditions, are booleans; compensation is not modelled.
- High-impact approval: building the preview, its impact level and the binding of a grant to plan, policy, actor and context are one boolean.
- Data labels: the destination and handling checks of the boundary guard; only its lineage check is modelled.
- LifecycleOutcomes.VerifiedOnlyWithEvidence: is stated for plans with an action at every location, as all plans made by planning have; a plan object built by hand could name fewer.
