# Gjallar verification model

Gjallar manages virtual machines of a Proxmox cluster. This project models the parts of its
backend where several processes, transactions or caches meet, and proves what they promise.

| module | what it models |
|---|---|
| `Operations` | operation statuses and their transition table |
| `RegistrationRows` | the rows of a credential registration and each transaction on them, as functions |
| `RegistrationRepository` | the same transactions as methods of a class that changes its rows in place and rolls back |
| `RegistrationProtocol` | all service calls as one state machine: any number of processes, calls and attempts, a possible crash or failure at every point, and a log of markers, token requests, activations and admissions |
| `RegistrationInvariant`, `RegistrationSafety` | the invariant of rows, log, calls and pins, and its proof step by step |
| `RegistrationTheorems`, `RegistrationRecords` | the promises of the protocol over every run; what a row records of its run |
| `RegistrationAcceptance`, `RegistrationAdmission`, `RegistrationCalls` | exactly when each transaction, admission and call goes ahead, what it does then, and why it is refused otherwise |
| `RegistrationReopening` | runs on which two expected promises fail |
| `LoginLimiter` | the sliding-window limit on Proxmox logins |
| `VmAdmission`, `VmAdmissionRuns` | the admission transaction of one- and two-machine mutations, as a class and as interleaved statements |
| `InventoryCache`, `InventoryLoads`, `InventoryAvailability` | the two inventory caches under concurrent callers, where the details of a snapshot come from, and the bookkeeping of expected, observed and failed targets |
| `Thresholds`, `ThresholdHistory` | validated history, the single-pass threshold scanner and its declarative meaning; what a report says of raw rows |
| `AdminGuard` | the last enabled administrator under concurrent transactions, statement by statement |
| `Accounts`, `AccountRuns` | account and session operations, as a class and over concurrent runs |
| `RequestBodies`, `ImageContracts`, `BackupContracts` | request builders and the validators that guard them |
| `Base64`, `Passwords` | stored password hashes |
| `Placement`, `Sorting` | greedy placement advice and the sorts it relies on |
| `Decimal`, `Wrappers` | decimal notation and joined strings; option and result types |

Runs are sequences of steps from an initial state; a step that is not possible leaves the state
alone, so a statement about `Run(steps)` for every `steps` is a statement about every reachable
state. Functions such as `Advance` or `Prepared` are the specification of one transaction; the
class methods are proved equal to them, and the state machines are built from them.

## Where the code does less than one would expect

- **Reopened guided operations.** An expired operation is finished, so it does not hold up an
  activation or a revocation. A late attestation takes it up again without a new admission
  (`backend/app/operations/guided_qm/application.py:257-283`). Unfinished mutations are therefore
  not always admitted under the current selection, nor is a closed connection always quiet.
  `RegistrationReopening` gives the runs; `SelectionExactlyKept` and `QuietExactlyKept` say that
  such a reopening is the only way.
- **The login limiter** reads its clock before it takes the lock
  (`backend/app/setup_integration/registration.py:53-54`). `LimitKeptExactlyInOrder` and
  `PruningInvisibleExactlyInOrder` say that the limit and the pruning hold for all runs exactly when
  no clock value arrives late; any lateness at all lets six accepted attempts fall into one window.
- **A failed inventory collection** keeps the details it stored without replacing the snapshot, so a
  later snapshot can hold details of the failed collection. A state is exposed when a caller would
  collect and still find a live detail: without exposed states no snapshot holds a foreign detail.
  `LeaksExactlyWhenTainted` says from which idle states a foreign detail can still be returned.
- **The administrator guard** locks the rows that are enabled administrators when its statement
  starts. An administrator who appears meanwhile is missed. `AdminStays` holds in every run in which no
  guard comes into force without a locked row, or beside another guard in force unless the two have
  locked each other's target. Each exception is real: with no row locked the last administrator can be
  lost (`EmptyGuardLoses`, `EmptyGuardHappens`); with two administrators a second guard is such an
  exception exactly when both administrators can be lost from then on (`FaultyExactlyWhenLosing`,
  `OverlapLosesExactly`), and such a state is reached (`MissedAdminLoses`).
- **Dead sessions.** A call that read the session, or the clock, while the session was alive can still
  accept it afterwards; `AcceptedAgainExactlyWhenSeen` says that no other call can.
- **Revocation times.** Revoking one session reads the row and later writes it by its key, so two
  overlapping calls can both write. `TimesExactlyKept` says that a time changes exactly when a call
  writes what another step revoked, at another time, after the call had read it. A revocation is
  never taken back.

## Names and conventions

- Phases and states are named as in the database with these exceptions: `PlanReady` is `planned`,
  `TokenVerifying` is `verifying`, `PhaseCancelled` is `cancelled`, credential states `InUse` and
  `Withdrawn` are `active` and `revoked`. `Work` is any operation that is neither a registration nor
  a revocation, with the target lock and the recovery item it may hold.
- Digests of keys, intents, plans and tokens are represented by what they digest. Random identifiers
  are parameters; one that is taken already is refused.
- The connection row is a singleton, so connection identifiers are implicit.
- `build_plan`, `verify_token`, decryption, feature and target checks and every answer of Proxmox are
  free choices of a step. An authentication context may be dropped at any point, which covers expiry
  and `invalidate_session`.
- Transactions that take the connection lock are single steps, as the lock is held from their first
  statement to their end. The admission of machines takes it at its first insertion, so its
  statements are steps of their own.
- Times are real or integer numbers, pressures and percentages are reals.

## Model

| member | source | states |
|---|---|---|
| `RegistrationTheorems.TokenRequestsAtMostOnce` | backend/app/setup_integration/registration.py:184-216 | in every interleaved run, with a crash possible at every point, each attempt sends at most one token POST and at most one token DELETE, each preceded in the log by its committed marker; only attempts that issue a token ever send one |
| `RegistrationTheorems.CredentialsStayCoherent` | backend/app/setup_integration/repository.py:158-267 | in every reachable state a credential in use is the one the connection names, the ciphertext is absent exactly when the credential is withdrawn, and an open managed connection names a credential in use |
| `RegistrationTheorems.OperationFollowsPhase` | backend/app/setup_integration/repository.py:133-156 | the status of an attempt's operation is a function of its phase, of whether it was ever activated and of the phase in which a revocation was asked for; the three unknown-outcome phases are never reached; a revocation operation exists exactly for revoking and revoked attempts |
| `RegistrationTheorems.StatusHeldFromMarker` | backend/app/setup_integration/repository.py:222-248 | in every run, from the step that commits the marker of a revocation and for as long as the revocation waits for its outcome, the registration operation keeps the status that belongs to the phase in which the revocation was asked for |
| `RegistrationTheorems.RevocationKeepsStatus` | backend/app/setup_integration/repository.py:222-248 | asking for a revocation leaves the status of the registration operation as it was |
| `RegistrationTheorems.OneAttemptAtATime` | backend/app/setup_integration/repository.py:79-108 | two unresolved attempts are the same attempt, the connection version is one more than the number of activations, and the unresolved attempt expects exactly that version |
| `RegistrationTheorems.VersionNeverBlocksActivation` | backend/app/setup_integration/repository.py:200-201 | an activation refused with a conflict was refused for its phase, never for the connection version |
| `RegistrationTheorems.ActivationWaitsForRevocation` | backend/app/setup_integration/repository.py:202-203 | while any revocation waits for its outcome, no attempt can be activated |
| `RegistrationTheorems.ReplayedPrepare` | backend/app/setup_integration/repository.py:81-87 | preparing again with the same key, intent and actor, in any later state of any run, returns the same attempt and changes no row |
| `RegistrationTheorems.RunEvolves` | backend/app/setup_integration/repository.py:110-156 | over any continuation of a run attempts keep key, intent and actor, never return to the phases before dispatch nor leave revocation, no credential becomes pending again, and the installation stays the same |
| `RegistrationTheorems.OneSelectionPerProcess` | backend/app/setup_integration/runtime.py:48-53 | one process never admits mutations under two different selections |
| `RegistrationTheorems.SelectionExactlyKept` | backend/app/setup_integration/runtime.py:75-113 | all unfinished mutations stay admitted under the connection's current selection throughout a run if and only if the run never takes up an expired mutation that was admitted under a replaced selection |
| `RegistrationTheorems.QuietExactlyKept` | backend/app/setup_integration/repository.py:231-236 | a closed connection has no unfinished mutation throughout a run if and only if the run never takes up an expired mutation while the connection is closed |
| `RegistrationTheorems.WithdrawnConnectionIsClosed` | backend/app/setup_integration/repository.py:231-263 | a connection whose named credential is withdrawn is closed to admissions |
| `RegistrationTheorems.StaleProcessNeverAdmits` | backend/app/setup_integration/runtime.py:48-53 | a process that pinned a selection which was then replaced never admits another mutation |
| `RegistrationRecords.SameVersionSameRow` | backend/app/setup_integration/repository.py:110-117 | over any continuation of a run, whoever finds the version that he has read finds the very row that he has read |
| `RegistrationRecords.RowNamesLastPlan` | backend/app/setup_integration/repository.py:144-156 | in every run the plan digest of an attempt is that of the plan committed last for it, by a plan or an import plan, and there is none before the first |
| `RegistrationRecords.DispatchedUnderConfirmedPlan` | backend/app/setup_integration/registration.py:181-200 | what is dispatched, a token to issue or a secret to import, is dispatched under the plan committed last, which is the one the call has confirmed |
| `RegistrationRecords.AdvanceExactly` | backend/app/setup_integration/registration.py:77-79 | a phase change of any call is committed exactly when the row is still the one the call has read and in a phase that call moves on from; then phase, resolution, version and plan digest of that row change as written out, and no other row |
| `RegistrationAdmission.AdmittedExactlyWhen` | backend/app/setup_integration/runtime.py:75-113 | a mutation is admitted if and only if the pin allows the selection and, with a connection, it is open and of the same cluster and, when managed, its credential is in use, the target is in scope and the secret can be decrypted |
| `RegistrationAdmission.RefusalCauses` | backend/app/setup_integration/runtime.py:75-113 | each of the five refusals of an admission has exactly one cause |
| `RegistrationAdmission.AdmittedOnlyChecked` | backend/app/setup_integration/runtime.py:75-113 | in every run, whatever was admitted was admitted by a step at which all of this held |
| `RegistrationAdmission.ManagedAdmissionIsChecked` | backend/app/setup_integration/runtime.py:86-113 | under a managed selection in particular nothing is ever admitted without the cluster, scope and decryption checks having passed |
| `RegistrationAdmission.WorkAdmitsExactly` | backend/app/setup_integration/runtime.py:75-113 | an admission pins the selection of a running process and, exactly when it is admissible, is logged, records the selection and opens the lock |
| `RegistrationAdmission.WorkProgressesExactly` | backend/app/operations/core/domain.py:36-59 | work moves on only while it is underway, along the transition table, and never takes a lock or another admission by itself |
| `RegistrationAdmission.WorkBeginsExactly` | backend/app/operations/guided_qm/application.py:257-283 | work is planned when it is new, and taken up again exactly when it has expired and left neither lock nor recovery behind |
| `RegistrationAdmission.SelectPins` | backend/app/setup_integration/runtime.py:56-72 | selecting a credential pins the present selection, once |
| `RegistrationAcceptance.PreparedExactlyWhenNew` | backend/app/setup_integration/repository.py:81-108 | a new key is prepared exactly for an administrator of the same installation while no attempt is unresolved; the row, the operation and the first connection it adds are written out |
| `RegistrationAcceptance.PreparedExactlyWhenKnown` | backend/app/setup_integration/repository.py:81-87 | a known key is answered with its attempt exactly when intent and actor are the same |
| `RegistrationAcceptance.PreparationRefused` | backend/app/setup_integration/repository.py:53-80 | each other refusal of a preparation has exactly one cause |
| `RegistrationAcceptance.OnlyCurrentOwner` | backend/app/setup_integration/repository.py:110-117 | every transaction on an attempt is refused to anybody but its owner, and for any version but the present one |
| `RegistrationAcceptance.StagedExactlyWhen` | backend/app/setup_integration/repository.py:158-182 | a secret is stored exactly for an attempt that awaits one under the token that belongs to it; what is written, and each refusal, is written out |
| `RegistrationAcceptance.ActivatedExactlyWhen` | backend/app/setup_integration/repository.py:193-220 | over rows as runs leave them, a verified attempt is activated if and only if nothing else is unfinished, the secret decrypts and the pin allows the selection; then its credential alone is in use and the connection is open under the next version |
| `RegistrationAcceptance.BegunExactlyWhen` | backend/app/setup_integration/repository.py:222-248 | a revocation is begun exactly for an issued token that may exist, and for the active one only while nothing else is unfinished |
| `RegistrationAcceptance.FinishedExactlyWhen` | backend/app/setup_integration/repository.py:250-267 | a revocation is finished exactly while it is pending; the ciphertext is erased and both operations end as written out |
| `RegistrationCalls.BeginsExactlyWhen` | backend/app/setup_integration/registration.py:71-75 | each of the nine calls begins exactly for the owner of the present row, with the login, phase, mode and plan digests that it asks for, and stands where written out |
| `RegistrationCalls.AnsweredExactly` | backend/app/setup_integration/registration.py:108-135 | an answer of Proxmox moves on exactly the call that awaits it, a token observation only with the pending secret decrypted; it commits nothing |
| `RegistrationCalls.AnswerEnds` | backend/app/setup_integration/registration.py:108-135 | a call whose answer does not let it go on is over |
| `RegistrationCalls.AdvanceContinues` | backend/app/setup_integration/registration.py:188-251 | after each phase change the call stands where written out, or is over; a refused one ends it; the marker of the POST is logged with its commit |
| `RegistrationCalls.SendContinues` | backend/app/setup_integration/registration.py:201-202 | a request is sent and logged after its marker, and the call waits for that request |
| `RegistrationCalls.StoreContinues` | backend/app/setup_integration/registration.py:206-208 | a stored secret takes the call on to the access control, or to the verification of an import |
| `RegistrationCalls.ActivateContinues` | backend/app/setup_integration/registration.py:246-251 | an activation ends its call, is logged, and pins the selection it replaces |
| `RegistrationCalls.RevocationContinues` | backend/app/setup_integration/registration.py:275-276 | the marker of a revocation is logged with its commit, and the DELETE comes next |
| `RegistrationCalls.CompletionContinues` | backend/app/setup_integration/registration.py:279-282 | the completion of a revocation ends its call |
| `RegistrationCalls.CrashEndsAll` | backend/app/setup_integration/registration.py:43-50 | a crash ends the calls of its process and nothing stored |
| `RegistrationCalls.CrashLasts` | backend/app/setup_integration/registration.py:43-50 | a process that has crashed begins and admits nothing afterwards |
| `RegistrationCalls.LoginsAfterAnswer` | backend/app/setup_integration/registration.py:108-135 | a login is kept in memory for the caller who authenticated, a plan is attached to an existing one, and no other login changes |
| `RegistrationCalls.LoginsEndExactly` | backend/app/setup_integration/registration.py:246-282 | otherwise a login stays as it is until its attempt is cancelled, activated or revoked, it is dropped, or its process crashes |
| `RegistrationReopening.ReopenedUnderReplacedSelection` | backend/app/operations/guided_qm/application.py:257-283 | a concrete run through login, plan, confirmation, verification and activation after which an expired guided operation is reopened under a replaced selection |
| `RegistrationReopening.ReopenedWhileClosed` | backend/app/operations/guided_qm/application.py:257-283 | the same run carried on through the revocation of the active token: the reopened operation is unfinished on a closed connection |
| `RegistrationReopening.GuidedOperationExpires` | backend/app/operations/guided_qm/application.py:965-978 | a guided operation can be admitted, handed off and expire, lock released, before any connection row exists |
| `RegistrationReopening.ActivatedRun` | backend/app/setup_integration/registration.py:91-251 | the whole life of an issued token up to its activation is reachable |
| `RegistrationSafety.RunKeeps` | backend/app/setup_integration/repository.py:53-267 | the joint invariant holds in every reachable state |
| `RegistrationSafety.ActivateSwitches` | backend/app/setup_integration/repository.py:202-219 | an accepted activation finds no unfinished work, and opens the connection under the next version for a credential that was pending |
| `RegistrationSafety.AdmitPinned` | backend/app/setup_integration/runtime.py:75-84 | an accepted admission was made under the selection of the connection, which is open, and equals the pin |
| `RegistrationInvariant.PrepareKeeps` | backend/app/setup_integration/repository.py:53-108 | an accepted preparation either changes nothing or adds one attempt and keeps the rows coherent |
| `RegistrationInvariant.AdvanceKeeps` | backend/app/setup_integration/repository.py:133-156 | a legal phase change keeps the rows coherent and is never refused by the operation's transition table |
| `RegistrationInvariant.StageSecretKeeps` | backend/app/setup_integration/repository.py:158-182 | storing the secret keeps the rows coherent and is never refused by the transition table |
| `RegistrationInvariant.ActivateKeeps` | backend/app/setup_integration/repository.py:193-220 | activation keeps the rows coherent and is never refused by the transition table |
| `RegistrationInvariant.BeginRevokeKeeps` | backend/app/setup_integration/repository.py:222-248 | asking for a revocation keeps the rows coherent and is never refused by the transition table |
| `RegistrationInvariant.FinishRevokeKeeps` | backend/app/setup_integration/repository.py:250-267 | finishing a revocation keeps the rows coherent and is never refused by the transition table |
| `RegistrationInvariant.RevocationSucceeds` | backend/app/setup_integration/repository.py:256-259 | the three status changes of a dispatched revocation always go through and end in success |
| `RegistrationInvariant.MovedFits` | backend/app/setup_integration/repository.py:144-156 | each phase change the service asks for leads to the operation status its phase stands for |
| `Operations.TransitionsExactly` | backend/app/operations/core/domain.py:36-59 | each operation status has exactly its predecessors; what has come to its end has no successor, except that what has expired can be reconciled |
| `RegistrationRepository.Repository.Prepare` | backend/app/setup_integration/repository.py:53-108 | the rows after the call, or the refusal, are those of the preparation transaction; idempotency keys stay unique |
| `RegistrationRepository.Repository.Advance` | backend/app/setup_integration/repository.py:133-142 | refused for owner, version, phase or transition with all rows as before, or the row is moved and its operation appended |
| `RegistrationRepository.Repository.MoveRow` | backend/app/setup_integration/repository.py:144-156 | one operation status is appended and phase, resolution, version and plan digest change together |
| `RegistrationRepository.Repository.StageSecret` | backend/app/setup_integration/repository.py:158-182 | stores one pending credential and names it in the attempt, or leaves all rows as before |
| `RegistrationRepository.Repository.Activate` | backend/app/setup_integration/repository.py:193-220 | the previous credential retires, the verified one takes over and the connection opens under the next version, or all rows stay; the process pins the selection it replaces |
| `RegistrationRepository.Repository.BeginRevoke` | backend/app/setup_integration/repository.py:222-248 | creates and dispatches the revocation operation, closing the connection for the active token, or leaves all rows as before |
| `RegistrationRepository.Repository.FinishRevoke` | backend/app/setup_integration/repository.py:250-267 | the loop appends all three statuses, the ciphertext is erased and the original operation fails unless it had succeeded; otherwise all rows stay |
| `RegistrationRepository.Repository.AdmitMutation` | backend/app/setup_integration/runtime.py:75-113 | pins the selection, and grants the lock exactly when the admission checks pass |
| `RegistrationRepository.Repository.Owned` | backend/app/setup_integration/repository.py:110-117 | finds the row for its owner and version only |
| `RegistrationRepository.SelectionPins.PinSelection` | backend/app/setup_integration/runtime.py:48-53 | the first selection of a process is kept for ever; any other is refused |
| `LoginLimiter.Limiter.RateLimit` | backend/app/setup_integration/registration.py:52-60 | accepts or refuses and leaves the pruned table as the specification says, idle actors evicted |
| `LoginLimiter.PruningIsInvisible` | backend/app/setup_integration/registration.py:55-60 | with clock values in lock order, the pruned table answers every attempt as a scan of the full history of accepted attempts would |
| `LoginLimiter.AtMostFiveInAnyWindow` | backend/app/setup_integration/registration.py:57-60 | with clock values in lock order, no window of sixty seconds holds more than five accepted attempts of one actor |
| `LoginLimiter.RefusedExactlyWhen` | backend/app/setup_integration/registration.py:55-60 | with clock values in lock order, an attempt is refused if and only if the fifth last accepted one of its actor was less than sixty seconds ago |
| `LoginLimiter.SixSpanAMinute` | backend/app/setup_integration/registration.py:57-60 | with clock values in lock order, any six consecutive accepted attempts of an actor span at least sixty seconds |
| `LoginLimiter.LimitKeptExactlyInOrder` | backend/app/setup_integration/registration.py:53-60 | all runs whose clock values arrive at most a bound late keep five accepted attempts per window if and only if the bound allows no lateness |
| `LoginLimiter.PruningInvisibleExactlyInOrder` | backend/app/setup_integration/registration.py:53-60 | in all such runs the pruned table answers as the full history would if and only if the bound allows no lateness |
| `LoginLimiter.LateCallerBreaksTheLimit` | backend/app/setup_integration/registration.py:53-56 | for every actor, every clock value and every lateness below the window, a run with one late caller has six accepted attempts in one window |
| `LoginLimiter.LateCallerSeesThePruning` | backend/app/setup_integration/registration.py:55-60 | in each of those runs the last attempt is accepted although five accepted ones are still recent |
| `VmAdmission.AcceptedScopes` | backend/app/operations/vm_admission.py:19-24 | a lock scope is accepted exactly when a vm_clone or vm_restore names its one distinct source and any other operation names none |
| `VmAdmission.Targets` | backend/app/operations/vm_admission.py:37-40 | the targets are the machine and its related ones, each once, in ascending order |
| `VmAdmission.Session.Acquire` | backend/app/operations/locks/infrastructure/repository.py:55-121 | inserts an open lock, or refuses for a taken key, a refused admission or host work and changes nothing |
| `VmAdmission.Session.ReleaseAll` | backend/app/operations/locks/infrastructure/repository.py:137-156 | releases exactly the locks named |
| `VmAdmission.Session.Claim` | backend/app/operations/recovery/infrastructure/repository.py:79-155 | claims the recovery of a known operation unless its lease is live or completed |
| `VmAdmission.Session.Prepare` | backend/app/operations/vm_admission.py:19-62 | the transaction's outcome and rows are those of the specification; every failure rolls all rows back |
| `VmAdmission.AcquiredExactlyWhenFree` | backend/app/operations/vm_admission.py:37-40 | all targets are locked exactly when every one is free, admitted and gets a new distinct row; then those rows and no others are added |
| `VmAdmission.GrantedExactlyWhen` | backend/app/operations/vm_admission.py:19-62 | a lease is granted if and only if the scope is accepted, the operation and its idempotency scope are new and every target is free; what it then writes is stated in full |
| `VmAdmission.NotGranted` | backend/app/operations/vm_admission.py:19-62 | otherwise the outcome is a refused scope, a busy target, a conflict of intents or a replay, each exactly when it applies, and open locks, operations and recoveries stay |
| `VmAdmission.ClaimedExactlyWhen` | backend/app/operations/recovery/infrastructure/repository.py:79-155 | a recovery is claimed exactly when its operation is known and it was never claimed or is idle and of the same kind; the claim is busy and the next generation |
| `VmAdmission.ClaimExcludes` | backend/app/operations/recovery/infrastructure/repository.py:79-155 | two claims in a row never both succeed |
| `VmAdmissionRuns.LeasedAtMostOnce` | backend/app/operations/vm_admission.py:42-61 | over all interleavings an operation gets a lease from its admission at most once |
| `VmAdmissionRuns.OneOpenLockPerMachine` | backend/app/db/models.py:242-253 | no machine ever has two open locks |
| `VmAdmissionRuns.GrantHoldsExactlyTheTargets` | backend/app/operations/vm_admission.py:37-62 | the moment it is granted, the operation holds open locks on exactly its targets, its references name them in order, and every other lock is as before |
| `VmAdmissionRuns.GrantLocksMachineAndSource` | backend/app/operations/vm_admission.py:19-62 | over all interleavings, at its grant a vm_clone or vm_restore holds open locks on exactly the machine it was begun for and the distinct source it named, any other operation on its machine alone |
| `VmAdmissionRuns.OperationKeepsToItsTargets` | backend/app/operations/vm_admission.py:51-57 | at any time an open lock of an operation is one of those it was created with; an operation that was never created holds none |
| `VmAdmissionRuns.OnlyGrantsChange` | backend/app/db/session.py:69-80 | every step of an admission that grants no lease, replay, refusal and abort included, leaves open locks, operations, recoveries and grants as they are |
| `VmAdmissionRuns.ScopesStayUnique` | backend/app/operations/core/infrastructure/models.py:13-30 | no two operations ever share an idempotency scope |
| `VmAdmissionRuns.LooksBeforeInserting` | backend/app/operations/locks/infrastructure/repository.py:55-121 | a transaction has looked for an open lock at least as often as it has inserted one |
| `VmAdmissionRuns.ElsewhereExactly` | backend/app/operations/locks/infrastructure/repository.py:137-156 | what happens outside the admissions releases or takes single locks, adds operations with new scopes and moves recoveries on |
| `VmAdmissionRuns.FinishCases` | backend/app/operations/vm_admission.py:42-62 | the end of a transaction is a grant, a replay that releases what it took, or a rollback, and when each happens |
| `VmAdmissionRuns.NoCircularWait` | backend/app/operations/vm_admission.py:37-40 | transactions never wait for each other in a circle: whoever waits, waits for the one that holds the connection |
| `VmAdmissionRuns.WaitsExactly` | backend/app/db/session.py:69-80 | exactly the holder of the connection is waited for, and who waits can insert nothing |
| `VmAdmissionRuns.AscendingOrderPreventsCircles` | backend/app/operations/vm_admission.py:40-40 | ascending acquisition alone would suffice: along any chain of transactions wanting each other's locks the wanted target strictly grows |
| `VmAdmissionRuns.PrepareIsOneRun` | backend/app/operations/vm_admission.py:19-62 | a call that nothing interrupts, taken statement by statement, ends in the rows and grants the specification of the method promises |
| `InventoryCache.AnswersAreRecent` | backend/app/proxmox/inventory.py:1570-1578 | a served snapshot is at most the TTL old when its caller enters; any other was collected after its caller entered |
| `InventoryCache.OwnDetails` | backend/app/proxmox/inventory.py:1182-1195 | in every run without an exposed state, for every TTL, no returned snapshot holds a detail of an earlier collection |
| `InventoryCache.OwnDetailsFitRows` | backend/app/proxmox/inventory.py:1203-1255 | with one row per machine each detail of such a snapshot was loaded from the very row it stands for |
| `InventoryCache.FinishedCollectionsNeverExpose` | backend/app/proxmox/inventory.py:1433-1449 | when every collection that stored a detail finishes, no state is ever exposed |
| `InventoryCache.ExposedStateLeaks` | backend/app/proxmox/inventory.py:1186-1195 | from every exposed state there is a continuation, without a failing collection, that returns a snapshot with a detail of an earlier collection |
| `InventoryCache.LeaksExactlyWhenTainted` | backend/app/proxmox/inventory.py:1182-1195 | an idle cache that has returned own details only can still return an old one, though every later collection that stores a detail finishes, if and only if it holds a live detail newer than its snapshot |
| `InventoryCache.FailureExposes` | backend/app/proxmox/inventory.py:1575-1577 | for every non-negative TTL a collection that fails after it stored a detail exposes the cache |
| `InventoryLoads.HeldWasStored` | backend/app/proxmox/inventory.py:1200-1255 | every observation, in a cache, a load or a snapshot, was stored by one load of its row and has the flags that load found, the agent being asked of running machines only |
| `InventoryLoads.DetailsAreLoads` | backend/app/proxmox/inventory.py:1182-1263 | without exposed states and with one row per machine, a returned snapshot shows for each row exactly what a load of that row found in the snapshot's own collection |
| `InventoryLoads.MissingExactlyWhenFailed` | backend/app/proxmox/inventory.py:1406-1449 | a returned snapshot lacks a detail exactly when the load of that row failed in its collection |
| `InventoryLoads.CallsAreConserved` | backend/app/proxmox/inventory.py:1563-1590 | the calls that arrived are waiting, collecting, answered or failed, and each once |
| `InventoryLoads.ServedIsLastCollected` | backend/app/proxmox/inventory.py:1570-1578 | a caller served from the cache gets the snapshot collected last |
| `InventoryAvailability.ListNodes` | backend/app/proxmox/inventory.py:1324-1391 | the loops over nodes and machines give the ledgers of storage and networks and the rows to load, live machines first |
| `InventoryAvailability.Recorder.Record` | backend/app/proxmox/inventory.py:1406-1431 | one observation goes to observed or failed of each source, the guest agent only where it applies |
| `InventoryAvailability.Recorder.RecordAll` | backend/app/proxmox/inventory.py:1390-1449 | after all observations the three ledgers are those that rows and observations determine |
| `InventoryAvailability.FourSourcesConserved` | backend/app/proxmox/inventory.py:1517-1550 | for storage, network, machine configuration and machine detail, observed and failed targets together are exactly the expected ones, as multisets |
| `InventoryAvailability.GuestConservedExactlyWhenCoherent` | backend/app/proxmox/inventory.py:1398-1430 | with one row per machine the guest agent is conserved if and only if every observation agrees with its row on whether the agent applies |
| `InventoryAvailability.SnapshotIsConserved` | backend/app/proxmox/inventory.py:1324-1553 | in every snapshot returned by a cache that is never exposed all five sources account for each expected target exactly once; the snapshot is complete if and only if both lists of each node came and a load of its own collection found each machine's configuration and, when it runs, its agent |
| `InventoryAvailability.SourcesByName` | backend/app/proxmox/inventory.py:1517-1553 | each of the five named sources is complete exactly when nothing of its own is missing |
| `InventoryAvailability.ConservedSource` | backend/app/proxmox/models.py:189-205 | a conserved source is complete exactly when nothing failed and available exactly when not everything failed or nothing was expected; its counts add up and its failed targets are listed in order |
| `InventoryAvailability.SnapshotCompleteExactlyWhen` | backend/app/proxmox/models.py:215-232 | with conserved sources a snapshot is complete exactly when nothing failed in any of them |
| `InventoryAvailability.TargetInjective` | backend/app/proxmox/inventory.py:1411-1412 | different machines have different targets |
| `Thresholds.Scan` | backend/app/monitoring/thresholds.py:33-70 | the single pass reports exactly the intervals of the declarative description, and the state of the last point |
| `Thresholds.ReportDetermined` | backend/app/monitoring/thresholds.py:36-67 | the samples leave no choice: any two reports that fit the description are equal |
| `Thresholds.RuleLevels` | backend/app/monitoring/thresholds.py:7-21 | the level of each of the three metrics by its raw readings: unknown without usable readings, critical and warning from 85 and 70 percent, for storage from 90 and 80, and normal below |
| `Thresholds.OnlyLastUncleared` | backend/app/monitoring/thresholds.py:45-49 | intervals follow one another and only the last can be uncleared |
| `Thresholds.HistoryMetrics` | backend/app/monitoring/domain.py:85-108 | history is accepted exactly when its stamps are whole, strictly increasing and not too far ahead; the resolution is the step exactly when all steps are equal |
| `Thresholds.NoGapInUniformHistory` | backend/app/monitoring/thresholds.py:39-39 | on accepted history with a resolution the gap test never fires |
| `Thresholds.GapsAreUnknownSamples` | backend/app/monitoring/thresholds.py:39-58 | so an interval has observation gaps exactly when an unknown sample lies between its opening and its end, and its onset is confirmed exactly when the sample before was normal |
| `Thresholds.ReportRule` | backend/app/monitoring/thresholds.py:30-74 | current and history state of one rule and its intervals; history without a single step yields none |
| `Thresholds.ThresholdReport` | backend/app/monitoring/thresholds.py:24-79 | the storage rule, or those of processor and memory, are reported, all intervals are counted, and the first ones of their sorted list are shown |
| `Thresholds.ReportShowsNewest` | backend/app/monitoring/thresholds.py:75-77 | the shown intervals are in order and nothing that is left out is newer |
| `ThresholdHistory.IntervalsOfRawHistory` | backend/app/monitoring/thresholds.py:24-74 | from raw rows to the intervals of a rule: the level of every sample by its raw readings; none when the rows are refused or unevenly spaced; otherwise one for each opening in order, with observation gaps exactly for an unknown sample before its end, a confirmed onset exactly after a normal sample, and its state |
| `ThresholdHistory.ShownIntervalsOfRawHistory` | backend/app/monitoring/thresholds.py:24-79 | every interval a report shows is the one of an opening in the raw rows of one of its rules, with the same flags |
| `ThresholdHistory.ResolutionFromRows` | backend/app/monitoring/domain.py:85-108 | intervals can be computed exactly when the rows are accepted and follow one another at one distance |
| `AdminGuard.AdminStays` | backend/app/auth/users.py:127-143 | once an enabled administrator exists one exists in every later state, in every run in which no guard comes into force without a locked row or beside another guard in force, unless the two have locked each other's target; administrators may appear at any time |
| `AdminGuard.FaultyExactlyWhenLosing` | backend/app/auth/users.py:127-143 | with two administrators, the step that brings a second guard into force is such a fault if and only if the two guards can lose both administrators from then on |
| `AdminGuard.OverlapLosesExactly` | backend/app/auth/users.py:127-143 | two guards in force on the only two administrators can lose both by going on, if and only if not each has locked the target of the other |
| `AdminGuard.MissedAdminLoses` | backend/app/auth/users.py:127-136 | a run from no users at all to two such guards, each of which has locked an administrator and missed the other, and so to the loss of the last one |
| `AdminGuard.GuardsExclude` | backend/app/auth/users.py:127-136 | a guard that holds every administrator excludes every other guard in force |
| `AdminGuard.EmptyGuardLoses` | backend/app/auth/users.py:131-136 | from every state without administrators in which a guard locked nobody, an administrator can appear and be lost again |
| `AdminGuard.EmptyGuardHappens` | backend/app/auth/users.py:131-136 | such a state is reached with a single user who is no administrator |
| `AdminGuard.CommitWrites` | backend/app/auth/users.py:279-304 | a commit gives its target the role or the disabling asked for unless the row had it when it was read; its other field and every other row stay |
| `AdminGuard.LocksWhatItPicked` | backend/app/auth/users.py:131-136 | in every run a guard only locks rows that were enabled administrators when its statement began |
| `Accounts.RevokeAllExact` | backend/app/auth/users.py:146-173 | a bulk revocation turns exactly the user's active sessions, the spared one aside, from active to revoked |
| `Accounts.Store.CreateUser` | backend/app/auth/users.py:176-198 | refused for a name that is taken, otherwise adds the one row |
| `Accounts.Store.CreateSession` | backend/app/auth/sessions.py:141-156 | adds one session that ends after its time to live and keeps tokens unique |
| `Accounts.Store.RevokeActiveSessions` | backend/app/auth/users.py:146-154 | the returned number is the number of sessions that went from active to revoked |
| `Accounts.Store.DisableUser` | backend/app/auth/users.py:294-304 | refused for an unknown user or the last administrator; otherwise every session of the user is dead and the number revoked is returned |
| `Accounts.Store.ResetPassword` | backend/app/auth/users.py:307-316 | every session of the user is dead and the number revoked is returned |
| `Accounts.Store.ChangeOwnPassword` | backend/app/auth/users.py:319-347 | needs an enabled user and the current password; every other session is dead, the current one untouched |
| `Accounts.Store.ActorForSessionToken` | backend/app/auth/sessions.py:159-176 | a token is accepted exactly when its session is not dead; the session of a disabled user is revoked |
| `Accounts.Store.RevokeSessionToken` | backend/app/auth/sessions.py:179-191 | revokes exactly when the session was not revoked yet |
| `Accounts.Store.RevokeSessionById` | backend/app/auth/sessions.py:240-267 | reports the status before, and revokes exactly an active session |
| `AccountRuns.DeadStaysDead` | backend/app/auth/sessions.py:159-176 | a session that is revoked, expired or owned by a disabled user stays so, and whatever other calls are in flight, no continuation of any interleaving accepts it once more under the number of a call that had not seen it alive |
| `AccountRuns.LaterCallsAreRefused` | backend/app/auth/sessions.py:159-176 | a call that starts at any time after the session has died is never accepted for it, whatever was in flight when it died |
| `AccountRuns.AcceptedAgainExactlyWhenSeen` | backend/app/auth/sessions.py:159-176 | a dead session can still be accepted under a call number if and only if the call in flight under it read it, or the clock, while it was alive |
| `AccountRuns.AcceptedWasAlive` | backend/app/auth/sessions.py:159-176 | in every run, whoever was accepted for a session had read it unrevoked and unexpired by the clock of the start, and afterwards its owner enabled |
| `AccountRuns.EndedSessionsStayOut` | backend/app/auth/users.py:294-347 | once a disabling or a password change has ended the sessions of a user, the spared one aside, no later call is accepted for any of them |
| `AccountRuns.UsersChangeExactly` | backend/app/auth/users.py:176-347 | a user row is created as asked for, changed by its own operations only, as written out, and never removed |
| `AccountRuns.DisabledOwnerRevokes` | backend/app/auth/sessions.py:159-176 | a call that finds the owner disabled revokes the session |
| `AccountRuns.CallsBeginExactly` | backend/app/auth/sessions.py:159-191 | a call begins exactly when asked to, a revocation only of a session that may be revoked |
| `AccountRuns.CallsEndExactly` | backend/app/auth/sessions.py:159-191 | and is in flight exactly until it is accepted, has written, is refused or is given up |
| `AccountRuns.AcceptedOncePerCall` | backend/app/auth/sessions.py:159-176 | no call number is accepted more often than calls were begun under it |
| `AccountRuns.RunEvolves` | backend/app/auth/users.py:176-347 | over any continuation of a run sessions keep owner, token and end, revocations are never taken back, and nobody is enabled again |
| `AccountRuns.TimesExactlyKept` | backend/app/auth/sessions.py:179-191 | revocation times once set stay as they are throughout a run if and only if no call writes a revocation of a session that another step revoked at another time since the call read it |
| `AccountRuns.HeldWhenRevoked` | backend/app/auth/sessions.py:240-259 | a call that holds a revoked session has held it since a step before the one that revoked it |
| `AccountRuns.OverlappingRevocations` | backend/app/auth/sessions.py:240-259 | a run with two overlapping revocations of one session, in which the later write loses the time of the earlier one |
| `ImageContracts.AllowedExactly` | backend/app/cloud_images/contracts.py:57-81 | the accepted bodies are exactly the payloads of builds in scope whose source is the image uploaded for that very build |
| `ImageContracts.PayloadInjective` | backend/app/cloud_images/contracts.py:42-47 | different builds have different payloads |
| `ImageContracts.BuiltIsAllowed` | backend/app/cloud_images/contracts.py:42-47 | the payload of every build in scope is accepted |
| `ImageContracts.AllowedIsBuilt` | backend/app/cloud_images/contracts.py:57-81 | from every accepted body a build in scope is recovered whose payload it is, types included |
| `ImageContracts.AcceptedFields` | backend/app/cloud_images/contracts.py:42-81 | an accepted request field by field: machine, storage and bridge in scope, the disk imported from the image uploaded for that machine by the operation named, no start on boot, and every fixed field |
| `ImageContracts.FlagEqualsZero` | backend/app/cloud_images/contracts.py:79-81 | a payload with a boolean for its zero is equal to the payload and is refused for its type |
| `ImageContracts.MatchDiskExactly` | backend/app/cloud_images/contracts.py:73-73 | a text is matched as a disk definition exactly when it is one, character by character |
| `ImageContracts.MatchVolume` | backend/app/cloud_images/contracts.py:50-54 | what is read out of an uploaded volume name writes the same name again, and its number is between 100 and 999999999 |
| `ImageContracts.MatchVolumeJoin` | backend/app/cloud_images/contracts.py:50-54 | every uploaded volume name gives back its storage and machine |
| `ImageContracts.SameFile` | backend/app/cloud_images/contracts.py:36-39 | an upload file name tells the machine and the digest |
| `BackupContracts.BackupAllowedExactly` | backend/app/backups/contracts.py:9-21 | the accepted backup bodies are exactly the backup bodies in scope |
| `BackupContracts.BackupInjective` | backend/app/backups/contracts.py:9-12 | different backups have different bodies |
| `BackupContracts.BackupAcceptedFields` | backend/app/backups/contracts.py:9-22 | an accepted backup field by field: a snapshot of one machine in scope that removes and stops nothing |
| `BackupContracts.RestoreAllowedExactly` | backend/app/backups/contracts.py:24-43 | the accepted restore bodies are exactly the restore bodies in scope |
| `BackupContracts.RestoreInjective` | backend/app/backups/contracts.py:24-27 | different restores have different bodies |
| `BackupContracts.RestoreAcceptedFields` | backend/app/backups/contracts.py:24-44 | an accepted restore field by field: a new machine from an archive of another one, its network down, nothing overwritten or started |
| `BackupContracts.MatchArchiveJoin` | backend/app/backups/contracts.py:4-6 | every archive name gives back its storage and machine |
| `BackupContracts.MatchArchive` | backend/app/backups/contracts.py:46-48 | what is read out of an archive name writes the same name again |
| `BackupContracts.MatchNicJoin` | backend/app/backups/contracts.py:35-35 | every network definition gives back address, bridge and firewall flag |
| `BackupContracts.MatchNic` | backend/app/backups/contracts.py:35-35 | what is read out of a network definition writes the same definition again |
| `BackupContracts.StampExactly` | backend/app/backups/contracts.py:3-6 | an archive stamp is a date and a time of day, part by part |
| `BackupContracts.EndingExactly` | backend/app/backups/contracts.py:6-6 | an archive ends in .vma, compressed in one of three ways or not |
| `BackupContracts.MacExactly` | backend/app/backups/contracts.py:35-35 | an address is 02 and five pairs of capital hexadecimal digits |
| `BackupContracts.ParseIntExactly` | backend/app/backups/contracts.py:15-22 | the texts that stand for numbers are digits with or without a minus, and the number they stand for |
| `RequestBodies.VmidTextOf` | backend/app/cloud_images/contracts.py:53-53 | the decimal forms with three to nine digits and no leading zero are those of 100 to 999999999 |
| `RequestBodies.VmidTextParses` | backend/app/backups/contracts.py:6-6 | such a text is the decimal form of the number it denotes |
| `RequestBodies.SameTypesEqual` | backend/app/cloud_images/contracts.py:79-81 | bodies that are equal up to numeric type and agree on all types are equal |
| `RequestBodies.ShapesExactly` | backend/app/cloud_images/contracts.py:7-15 | names, identifiers and digests by length and character code |
| `RequestBodies.OperationExactly` | backend/app/cloud_images/contracts.py:37-39 | an operation identity is its prefix and a digest |
| `RequestBodies.EqualExactly` | backend/app/cloud_images/contracts.py:79-81 | which values of different types are equal |
| `RequestBodies.SameTypeExactly` | backend/app/cloud_images/contracts.py:79-81 | values have the same type exactly when they are of the same kind |
| `Passwords.VerifiesExactly` | backend/app/auth/passwords.py:44-67 | a stored hash is matched by exactly the passwords that are short enough and derive to the same key |
| `Passwords.MatchesExactly` | backend/app/auth/passwords.py:52-67 | any stored text, well-formed or not, is matched by exactly the passwords of at most 1024 bytes that derive to its digest, if it is a hash of the supported kind with at least 1000 iterations |
| `Passwords.HashExactly` | backend/app/auth/passwords.py:44-50 | what is stored for a password of at most 1024 bytes, and only for one |
| `Passwords.RightPasswordVerifies` | backend/app/auth/passwords.py:44-67 | the right password is accepted whatever its salt and its configured iterations |
| `Passwords.TooLongIsRefused` | backend/app/auth/passwords.py:29-33 | what is too long is neither hashed nor accepted |
| `Passwords.PartsJoined` | backend/app/auth/passwords.py:49-55 | splitting at four separators undoes joining five fields |
| `Passwords.Iterations` | backend/app/auth/passwords.py:19-26 | the configured count, 600000 without a readable one, and never fewer than 1000 |
| `Base64.DecodeEncode` | backend/app/auth/passwords.py:36-41 | decoding undoes encoding, for every byte string |
| `Base64.SameBits` | backend/app/auth/passwords.py:36-41 | three bytes and the four values that stand for them are the same number of 24 bits |
| `Base64.SymbolCode` | backend/app/auth/passwords.py:36-41 | the alphabet by character code |
| `Base64.EncodedShape` | backend/app/auth/passwords.py:36-41 | four characters for every three bytes, and no separator among them |
| `Base64.TestVectors` | backend/app/auth/passwords.py:36-41 | the encoding of f, fo and foo |
| `Decimal.ParsePrint` | backend/app/auth/passwords.py:58-58 | reading a printed number gives it back |
| `Decimal.PrintParse` | backend/app/cloud_images/contracts.py:53-53 | a digit string without leading zero is what its number prints as |
| `Placement.MoveNarrowsGap` | backend/app/insights/placement.py:559-672 | every move over a difference of 25 or more strictly narrows the gap and leaves both nodes below what the source had; clamps are never reached and a target at 85 or more is flagged |
| `Placement.ShownIsBest` | backend/app/insights/placement.py:676-735 | the advice shown is the first ten of all candidates, wider differences first; each moves a running machine, no template and not at risk, from an online node at 70 or more to the coolest other online node that is cooler by 25 or more, and narrows the gap |
| `Placement.LeastTarget` | backend/app/insights/placement.py:691-704 | the chosen target is eligible and no eligible node is less loaded |
| `Placement.ThreeLargest` | backend/app/insights/placement.py:705-720 | a source with a target contributes its three first movable machines by memory, disk and name, one without contributes none |
| `Placement.SourcesAreSources` | backend/app/insights/placement.py:682-689 | exactly the online nodes at 70 or more are sources, hotter ones first |
| `Placement.AllOfAll` | backend/app/insights/placement.py:690-728 | the candidates are those of all sources |
| `Placement.CandidatesAdvised` | backend/app/insights/placement.py:690-728 | every candidate moves a movable machine off a hot node to its least loaded eligible target |
| `Placement.EffectIsLargerShare` | backend/app/insights/placement.py:504-518 | the estimated effect is the larger of the pressure per running machine and the machine's share of memory, as far as that lies between 4 and 18 |
| `Placement.BuildRecommendations` | backend/app/insights/placement.py:676-735 | the loops give the first ten of the sorted candidates of all hot nodes |
| `Sorting.SortOrders` | backend/app/insights/placement.py:682-689 | the sort used for rankings rearranges its input and orders it |
| `Sorting.SortIsStable` | backend/app/insights/placement.py:729-735 | elements that rank the same keep their order |
| `Sorting.LexExactly` | backend/app/insights/placement.py:682-689 | text order by the first character that differs |

## Left out

- HTTP, TLS, DNS pinning, WebSocket relay, downloads and uploads, the database mapping, migrations, the command line and the frontend: transport and plumbing.
- Encryption, SHA-256 and PBKDF2 internals: functions without a definition here, or choices of a step.
- `ManagedRequests.request`, capability and cluster scope policies, access control plans and role tables: long tables whose entries are settled one by one.
- The order of access control requests relative to a concurrent revocation, and a race between `mfa` and `invalidate_session`: the code promises nothing there.
- Host configuration operations: their admission makes the same connection checks as `AdmitMutation`; their own lock is the `hostFree` flag of `VmAdmission`.
- Recovery and runner workflows after an admission: only that locks are released and recoveries move on.
- `VmAdmissionRuns`: an operation created elsewhere is assumed not to share the owner name of a machine admission; timestamps and event chains of operations are not modelled.
- `AdminGuard`: the SQLite branch, which excludes every other writer from the start of the guard and which the repository calls test-only. The row order of the locking statement is arbitrary.
- `InventoryCache`: contents of a detail beyond its row, its collection and the availability of configuration and guest agent; a fresh snapshot is the first collection of a new adapter.
- `Thresholds`: not-a-number and infinite readings, which `number` has already dropped; labels, identities and the staleness of metrics, which is an input.
- `Accounts`: password verification is equality of stored values; user agents, addresses and audit events. Whether a user is the last administrator is an input there and the subject of `AdminGuard`.
- The template branch of the image request check and the fields of review and confirmation input.
- `BackupContracts`: which characters count as digits of an archive stamp is a parameter, because the pattern's digit class covers more than the ten ASCII digits.
- `Passwords`: how text becomes bytes, and the lenient forms of integers that Python reads, which are a parameter.
- `Placement`: the number of running machines of a node is an input; rounding is a parameter that only enters the final order; texts, identities and advisory evidence of a recommendation, none of which changes the choice.
