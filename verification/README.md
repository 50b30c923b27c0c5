# Verification of the autonomy stack

A Dafny model of the four stateful parts of the autonomy stack, with proofs about whole runs and whole
histories rather than single branches. Verify with `dafny verify dfyconfig.toml`.

* **Mission execution** (`Models`, `Sensing`, `ObstacleAvoidance`, `SafetyKernel`, `VehicleAdapter`,
  `PlanVerifier`, `EdgeSupervisor`, `Benchmark`; proofs in `MissionProofs` and `MissionOutcomes`). The plan loop senses, refines,
  checks and executes. Perception frames, clock readings and the fate of every send are inputs of a plan
  entry; an exception that escapes the loop is an outcome of its own. `EdgeSupervisor.Run` describes a run
  with its events and with every change of the vehicle state; the methods compute the same with a state and
  an event list that they update.
* **Command transport** (`Ledger`, `CertPins`, `RollbackGuard`, `Tokens`, `Transport`; proofs in
  `PinChangeProofs`, `CertPinProofs`, `TransportProofs`, `TransportRuns` and `RollbackProofs`). Classes hold the ledger, the
  pinset, the token counter and the outcome window; `Transport.Send` describes one call with all its retries.
  `TransportRuns.RunJobs` folds the life of a transport: sends and pinset operations in any order, over any
  ledger and pinset it is given. The clock is an input that may not run backwards where a theorem needs it.
* **Rollout governance** (`ApprovalAudit`, `BundleUpdater`; proofs in `TrustProofs`, `RolloutProofs`,
  `BundleHistory` and `CanaryProofs`). `RolloutProofs.Run` folds any interleaving of bundle submissions and approvals, each with
  the trust store that it finds. Hashes are never assumed injective: the theorems say "equal, or here are two
  different texts with one hash", and name them.
* **Obstacle tracker** (`Tracker`; proofs in `TrackerProofs` and `TrackerHistory`).

Each class method is proved equal to a specification function of the state before it; the theorems are
about these functions. Floating-point numbers are reals. The Euclidean distance enters through its
defining law only, and the tracker compares squared distances.

## Findings

* *Rolling back pins changes what is admitted by way of the next rotation or schedule only.* The previous active
  pins of a pinset that is loaded from a settled file (active pins have started, previous ones are dead; an
  empty pinset is settled) are dead for good (`CertPinProofs.PreviousPinsAreDead`). Checks and rollbacks
  therefore change no verdict until something is rotated or scheduled
  (`CertPinProofs.QuietCallsChangeNoVerdict`). The next rotation or schedule can tell that they took place,
  exactly if they changed whether the active or next list names its fingerprint
  (`CertPinProofs.QuietCallsShowInRotationIff`, `CertPinProofs.QuietCallsShowInScheduleIff`): a rollback puts
  dead pins into the active list, and a rotation to one of them is lost
  (`CertPinProofs.RollbackCanLoseRotation`). A file can be written otherwise, with previous pins that are live,
  and then a rollback does admit them. `PinChangeProofs` states for any vendor record what is admitted after a
  rollback, and after a rotation or schedule that follows one.
* *A pin rotation can be ignored.* `rotate_vendor_pin` skips a fingerprint that the active list still names,
  even through an expired pin that no check has pruned, or one that expires later.
  `PinChangeProofs.RotationAdmitsIff` states for any pinset exactly when a rotated fingerprint is admitted at
  a later moment; `CertPinProofs.RotationCanBeLost` gives histories in which it is not.
* *A scheduled pin can be ignored.* Next pins are not pruned, so while an expired one names a fingerprint, every
  other schedule for it is skipped. `PinChangeProofs.ScheduleAdmitsIff` states for any pinset exactly when a
  scheduled fingerprint is admitted; `CertPinProofs.ScheduleCanBeLost` gives histories in which it is refused
  within its window.
* *An approval that names a bundle hash needs no canary stage.* An approval is for a bundle that went through
  the canary stage of its environment if and only if its call named no hash, or the hash of such a bundle
  (`CanaryProofs.ApprovalIsForCanaryIff`); the same condition decides about the global apply that consumes it
  (`CanaryProofs.PromotionIsOfCanaryIff`). Otherwise the required number of named approvers, whatever that is,
  gets any hash approved (`CanaryProofs.NamedApprovalNeedsNoCanary`), and the gate opens for it
  (`CanaryProofs.NamedApprovalOpensGate`).
* *An approval that the audit log refuses is in force nevertheless.* The state file is written first. The call
  raises if and only if it gets as far as a vote, the log was tampered with, and its verification is due
  (`RolloutProofs.AuditFailsIff`); the state it leaves is the one that a successful call leaves, while the log
  may lack the record (`RolloutProofs.RefusedVoteStaysInForce`).
* *A send with no permitted attempt returns normally and logs nothing.* The log shows exactly one outcome of
  a send if and only if the command is a duplicate or `max_attempts` is at least 1
  (`TransportProofs.OneOutcomeIff`).

## Model

| member | source | states |
|---|---|---|
| MissionProofs.FailoverIsTransparent | src/autonomy/edge_supervisor.py:42-181 | a transport primary backed by a simulator always returns, with the state, the moves and, apart from failover entries, the events of the simulator-only run |
| MissionProofs.ChargeIsConserved | src/autonomy/edge_supervisor.py:46-155 | the final charge of any run equals the initial one less 0.2 per executed move, return and fallback and 0.05 per hold, counted in the event list and clamped once |
| MissionProofs.ChargedStep | src/autonomy/vehicle_adapter.py:39-69 | one iteration of the loop drains exactly what its events account for, on every path through failover and fallback |
| MissionProofs.EventsFollowTheLanguage | src/autonomy/edge_supervisor.py:46-155 | the events of a returned run form a complete word of the run automaton; those of an escaped run end at an unanswered block |
| MissionProofs.NothingRunsAfterBlock | src/autonomy/edge_supervisor.py:79-145 | in a complete word no execution and no second block follows a policy block |
| MissionProofs.BlockedRunsEndAtHome | src/autonomy/edge_supervisor.py:119-153 | without a system fault, a blocked run and a run that ends armed on a low battery end exactly at home |
| MissionProofs.RunIsBlockedIff | src/autonomy/edge_supervisor.py:46-145 | a run is blocked exactly if some entry is inadmissible or undelivered in its turn, and an exception escapes exactly if that entry is inadmissible and its unguarded fallback undelivered |
| MissionProofs.RunsStayInTheEnvelope | src/autonomy/edge_supervisor.py:71-133 | every run, escaped ones included, moves only by linked allowed legs (speed, battery, standoff, clearance, geofence) and never leaves the geofence |
| MissionProofs.AllowedExecution | src/autonomy/safety_kernel.py:8-38 | an action that passes all checks yields an allowed leg |
| MissionProofs.UnblockedRunsExecuteThePlan | src/autonomy/edge_supervisor.py:46-145 | a run without a policy block returns and executes one refined action per plan entry, in order |
| MissionProofs.VerifiedCleanRunsFinishSafe | src/autonomy/edge_supervisor.py:46-155 | under pass-through localization an accepted plan whose run is not blocked ends disarmed at the origin, having executed its entries and nothing else |
| MissionOutcomes.RunOutcome | src/autonomy/edge_supervisor.py:46-155 | the state, the events and the escape of any run, told entry by entry: what runs and through which adapter, the answer to the entry that does not, and the answer to a low battery |
| MissionOutcomes.DeliveredFallbackIsUsed | src/autonomy/edge_supervisor.py:119-144 | a blocked run whose fallback some adapter delivers returns, falls back, and is at home |
| MissionOutcomes.FaultIff | src/autonomy/edge_supervisor.py:136-155 | a system fault is logged if and only if a guarded fallback was due, after a failed send or for a low battery, and no adapter delivered it |
| MissionOutcomes.BlockedForFirstViolation | src/autonomy/edge_supervisor.py:47-125 | an entry is blocked for a reason exactly if that rule is violated and no rule checked before it is |
| MissionOutcomes.AdmissibleIffNothingSpeaksAgainst | src/autonomy/safety_kernel.py:8-38 | an entry is admissible exactly if no rule speaks against it |
| MissionOutcomes.ArmingIsLogged | src/autonomy/vehicle_adapter.py:39-69 | after any run the vehicle is armed or not as the last arming or disarming in the event list left it |
| MissionProofs.ProjectionIsEffect | src/autonomy/vehicle_adapter.py:39-69 | what each action does to each field of the vehicle state, and that it does nothing else |
| EdgeSupervisor.RunPlan | src/autonomy/edge_supervisor.py:42-155 | the plan loop and the low-battery tail compute the specified run and say whether an exception escapes |
| EdgeSupervisor.RunLoop | src/autonomy/edge_supervisor.py:46-145 | the loop over the plan entries ends in the state, events and status of its recursive description |
| EdgeSupervisor.HandleEntry | src/autonomy/edge_supervisor.py:47-145 | one iteration, with its guarded and unguarded fallbacks |
| EdgeSupervisor.ExecuteLogged | src/autonomy/edge_supervisor.py:172-181 | primary first, then failover with its event, otherwise the error |
| SafetyKernel.PassesIffPermitted | src/autonomy/safety_kernel.py:8-38 | the cascade of checks passes an action if and only if the policy permits it |
| ObstacleAvoidance.ClearancePlannerRefines | src/autonomy/obstacle_avoidance.py:40-81 | clear targets are kept, blocked ones moved to a clear sidestep, and HOLD is chosen exactly when the target and all eight sidesteps are unusable |
| ObstacleAvoidance.FirstUsableIsFirst | src/autonomy/obstacle_avoidance.py:58-67 | the candidate search returns the first usable offset, and none exactly if none is usable |
| ObstacleAvoidance.SidestepIsMostPreferred | src/autonomy/obstacle_avoidance.py:58-81 | every sidestep preferred to the chosen one is outside the geofence or blocked |
| ObstacleAvoidance.OnlyMovesAreRefined | src/autonomy/obstacle_avoidance.py:24-56 | nothing but a move with a target is refined, and nothing without the clearance planner |
| Sensing.NearestDistanceIsMinimum | src/autonomy/mapping.py:26-37 | comparing the nearest distance with a gap compares every obstacle with it |
| Sensing.FusedPoseIsBetween | src/autonomy/localization.py:53-88 | a fused position lies between the known and the measured one, whatever weight is configured |
| Sensing.FusedPoseIsWeightedMean | src/autonomy/localization.py:53-88 | the fused position is the weighted mean of fix and known position, every other part is the reading if there is one, and freshness is the age of the frame |
| Sensing.PassedThroughPoseIsKnown | src/autonomy/localization.py:29-45 | without an engine the known pose is taken over and counts as fresh |
| PlanVerifier.Verify | src/autonomy/plan_verifier.py:5-24 | the error list holds exactly the faults of the plan, and is empty exactly for accepted plans |
| Benchmark.RunBenchmark | src/autonomy/app.py:130-245 | the benchmark stops at a raising run, or describes every trial and counts strict <= executed <= verified <= runs |
| Benchmark.Judge | src/autonomy/app.py:192-208 | success and strict success by the counts of events |
| Benchmark.RunTrial | src/autonomy/app.py:138-227 | the record of one repetition; its strict success is described without the exec-count clause, which the other clauses imply |
| Benchmark.StrictSuccessIsSafe | src/autonomy/app.py:200-208 | a strict success ends disarmed at the origin, without any fallback |
| CertPinProofs.StagedPinsRefineTheRecord | src/autonomy/cert_pins.py:24-166 | after any history from an empty pinset or a settled file, the staged pinset admits a fingerprint exactly if the plain record of accepted pins with their written-out windows, legacy entries and revocations vouches for it |
| CertPinProofs.ReplayAgrees | src/autonomy/cert_pins.py:75-166 | the invariant of every history: active pins have started, previous pins are dead, and no live accepted pin is lost |
| CertPinProofs.QuietCallsChangeNoVerdict | src/autonomy/cert_pins.py:75-158 | checks and rollbacks at any point of a history from a settled file change no verdict on any vendor, then or later, until the next rotation or schedule |
| CertPinProofs.QuietCallsShowInRotationIff | src/autonomy/cert_pins.py:75-158 | in a history from a settled file, whether checks and rollbacks took place shows in the next rotation if and only if they changed whether the active list names its fingerprint, and nothing else decides about it |
| CertPinProofs.QuietCallsShowInScheduleIff | src/autonomy/cert_pins.py:75-158 | the same for the next schedule and the next list |
| CertPinProofs.PreviousPinsAreDead | src/autonomy/cert_pins.py:94-103 | after any history from a settled file no previous pin of any vendor is live, then or later |
| CertPinProofs.RollbackShowsInNextRotationIff | src/autonomy/cert_pins.py:137-158 | in a history from a settled file, the verdict on a rotation right after a rollback is the one without it, except if just one of the previous and the active list names its fingerprint, another pin is live, and nothing else decides |
| CertPinProofs.RollbackCanLoseRotation | src/autonomy/cert_pins.py:137-158 | histories in which a rotation is honoured, and is lost if a rollback comes before it |
| PinChangeProofs.RollbackAdmitsIff | src/autonomy/cert_pins.py:137-158 | on any pinset, a fingerprint is admitted after a rollback exactly if it is not revoked and a live previous, active or next pin names it, or none is live and the legacy list names it |
| PinChangeProofs.RollbackMattersIff | src/autonomy/cert_pins.py:137-158 | on any pinset, a rollback leaves all verdicts on its vendor at a later moment as they were, with no operation in between, if and only if no previous pin is live then, or the live ones add nothing |
| PinChangeProofs.RotationAfterRollbackIff | src/autonomy/cert_pins.py:105-158 | on any vendor record, exactly when a rotation that follows a rollback is admitted at a later moment |
| PinChangeProofs.ScheduleAfterRollbackIff | src/autonomy/cert_pins.py:117-158 | on any vendor record, exactly when a schedule that follows a rollback is admitted at a later moment |
| PinChangeProofs.RollbackShowsInRotationIff | src/autonomy/cert_pins.py:105-158 | on a vendor record with dead previous pins, exactly when a rollback loses the rotation that follows it, and exactly when it saves it |
| PinChangeProofs.RollbackShowsInScheduleIff | src/autonomy/cert_pins.py:117-158 | on a vendor record with dead previous pins, a rollback never saves the schedule that follows it, and exactly when it loses it |
| CertPinProofs.RevokedStaysRefused | src/autonomy/cert_pins.py:30-32 | a fingerprint that any file or any call revoked is refused for ever, whatever comes later and on whatever clock |
| PinChangeProofs.RotationAdmitsIff | src/autonomy/cert_pins.py:105-115 | on any pinset, exactly when a rotated fingerprint is admitted at a later moment, with no operation in between |
| PinChangeProofs.ScheduleAdmitsIff | src/autonomy/cert_pins.py:117-135 | on any pinset, exactly when a scheduled fingerprint is admitted at a later moment, with no operation in between |
| PinChangeProofs.FirstScheduleAdmitsIff | src/autonomy/cert_pins.py:59-73 | a fingerprint scheduled for a new vendor is admitted exactly inside its window, ends included |
| PinChangeProofs.FirstRotationAdmits | src/autonomy/cert_pins.py:105-115 | a fingerprint rotated in for a new vendor is admitted at any time |
| PinChangeProofs.LiveNamesAreOpen | src/autonomy/cert_pins.py:40-73 | a list of pins vouches for the fingerprints of those whose windows are open |
| PinChangeProofs.CutoverMoves | src/autonomy/cert_pins.py:75-103 | which pins a cutover drops, promotes and keeps as previous ones, by their windows |
| PinChangeProofs.OperationsKeepTheRest | src/autonomy/cert_pins.py:24-166 | which lists of which vendor each operation leaves alone; a check of a revoked fingerprint changes nothing |
| CertPinProofs.RotationCanBeLost | src/autonomy/cert_pins.py:105-115 | histories in which a rotation is ignored and its fingerprint refused, at once or when the older pin expires |
| CertPinProofs.ScheduleCanBeLost | src/autonomy/cert_pins.py:117-135 | histories in which a schedule is ignored and its fingerprint refused within its window |
| CertPins.VendorCertPinset.AssertVendorFingerprintAllowed | src/autonomy/cert_pins.py:24-38 | the verdict, and the cutover a check performs |
| CertPins.VendorCertPinset.AutoCutover | src/autonomy/cert_pins.py:75-103 | dead active pins are dropped, and live next pins take over when none is left |
| CertPins.VendorCertPinset.CollectAllowedFingerprints | src/autonomy/cert_pins.py:40-57 | the live staged fingerprints, or the legacy list if there are none |
| CertPins.VendorCertPinset.RotateVendorPin | src/autonomy/cert_pins.py:105-115 | the effect of a rotation on the vendor record |
| CertPins.VendorCertPinset.ScheduleNextPin | src/autonomy/cert_pins.py:117-135 | the effect of scheduling a pin |
| CertPins.VendorCertPinset.RollbackToPreviousActive | src/autonomy/cert_pins.py:137-158 | the effect of a rollback and its two errors |
| CertPins.VendorCertPinset.RevokeVendorPin | src/autonomy/cert_pins.py:160-166 | the effect of a revocation |
| Ledger.PurgingIsInvisible | src/autonomy/ledger.py:50-66 | the purged table answers "duplicate" exactly as the full history of marks does |
| Ledger.CommandLedger.IsDuplicateIdempotencyKey | src/autonomy/ledger.py:50-58 | expired keys are deleted, then the key is looked up |
| Ledger.CommandLedger.MarkIdempotencyKey | src/autonomy/ledger.py:60-66 | a mark replaces the expiry of its key |
| Ledger.CommandLedger.UpdateLastAckNonce | src/autonomy/ledger.py:76-86 | upsert of the last nonce of a vehicle |
| RollbackGuard.WindowIsRecentHistory | src/autonomy/transport.py:191-213 | the outcome window holds the outcomes of the last reports, by their positions: all since the last rollback, or as many of them as it can hold |
| RollbackGuard.NoRollbackSince | src/autonomy/transport.py:205-213 | no report in the window led to a rollback |
| RollbackGuard.RollbacksCoolDown | src/autonomy/transport.py:205-212 | successful rollbacks of one vendor are at least the cooldown apart |
| RollbackGuard.RollbackHappensIff | src/autonomy/transport.py:193-213 | a report leads to a successful rollback if and only if it is a failure, rollback is enabled and possible, the recent outcomes hold enough samples and failures, and the vendor has cooled down |
| RollbackGuard.RollbacksAreRare | src/autonomy/transport.py:185-213 | rollbacks times minimum samples never exceed the recorded outcomes, and none happens if the window cannot hold the minimum |
| Tokens.RotationIsFair | src/autonomy/transport.py:45-52 | after any number of calls each token position has had exactly its share |
| Tokens.PositionsDifferByAtMostThePeriod | src/autonomy/transport.py:45-52 | any two positions differ by at most the rotation period |
| Tokens.TokensAreSharedOut | src/autonomy/transport.py:38-52 | how often each token is returned over any number of calls, by the shares of its positions; a static token is always returned |
| Tokens.OnlyEmptyTokensGo | src/autonomy/transport.py:38-44 | only empty tokens are left out, and the others keep their order |
| Tokens.RotatingTokenProvider.NextToken | src/autonomy/transport.py:45-52 | the token chosen, and when the counter moves |
| Transport.CommandTransport.SendCommand | src/autonomy/transport.py:312-370 | one call with its retries leaves the specified state, result and total delay |
| Transport.CommandTransport.RetryLoop | src/autonomy/transport.py:389-430 | the retry loop computes the recursive description of the attempts |
| Transport.CommandTransport.AttemptOnce | src/autonomy/transport.py:390-418 | one attempt, with the token it takes |
| Transport.CommandTransport.ReceiveAck | src/autonomy/transport.py:406-418 | a validated acknowledgement marks and logs, a refused one is recorded as a failure |
| Transport.CommandTransport.ValidateAcknowledgement | src/autonomy/transport.py:128-162 | the order of the acknowledgement checks and what each leaves behind |
| Transport.CommandTransport.ValidateNonce | src/autonomy/transport.py:137-152 | an accepted nonce is stored, a refused one leaves no trace |
| Transport.CommandTransport.ValidateCertBinding | src/autonomy/transport.py:164-177 | vendor and fingerprint must be present and admitted |
| Transport.CommandTransport.RecordAckVerificationResult | src/autonomy/transport.py:185-228 | the outcome window, the rollback it may ask for, and its log entry |
| TransportProofs.AttemptSucceedsIff | src/autonomy/transport.py:128-177 | an attempt succeeds if and only if its acknowledgement passes every required check |
| TransportProofs.RefusedForFirstReason | src/autonomy/transport.py:128-177 | a required acknowledgement is refused for the first thing that speaks against it, in the order of the checks, and only for such |
| TransportProofs.RetryContract | src/autonomy/transport.py:312-370 | bounded tries, return exactly for a duplicate or an acknowledgement, key marked exactly then, backoff in closed form |
| TransportProofs.OneOutcomeIff | src/autonomy/transport.py:378-430 | exactly when a send logs exactly one outcome under its command id |
| TransportProofs.EachTryTakesAToken | src/autonomy/transport.py:389-401 | every try takes one rotating token, unless the broker is down |
| TransportProofs.AttemptStoresNonceIff | src/autonomy/transport.py:137-152 | a new nonce within the window is stored whatever the later checks say, and nothing else is |
| TransportProofs.AttemptChangesPins | src/autonomy/transport.py:157-228 | what an attempt does to the pinset: a check if the acknowledgement gets that far, then a rollback if it asks for one |
| RollbackProofs.AttemptRollsBackIff | src/autonomy/transport.py:205-228 | an attempt logs a rollback exactly if it asks for one and its vendor has previous pins after the check |
| TransportRuns.CompletionsAreApart | src/autonomy/transport.py:104-111 | over any ledger and pinset, sequential sends complete one key only more than its time to live apart, and apart from earlier completions if the ledger was kept that way |
| TransportRuns.NoncesAreSafe | src/autonomy/transport.py:128-162 | accepted nonces of a vehicle increase strictly over all calls and are bounded by the stored one, which between any two attempts never decreases and gains at most the window per attempt |
| RollbackProofs.RollbacksAreAccounted | src/autonomy/transport.py:185-228 | over any ledger and pinset, and any sends and pinset operations, the window is recent history, the log gains exactly the entries of the justified rollbacks, and each uses up the minimum of reported outcomes |
| RollbackProofs.RollbacksOfOneVendorAreApart | src/autonomy/transport.py:205-212 | of the rollbacks logged over any sequential sends and pinset operations, two of one vendor are at least the cooldown apart |
| RollbackProofs.UnconfirmedAnswerRollsBack | src/autonomy/transport.py:179-221 | where one failed sample is enough, an answer that does not confirm its command rolls its vendor back and is logged as that |
| ApprovalAudit.AppendKeepsAccepted | src/autonomy/approval_audit.py:32-58 | an append keeps an accepted log accepted |
| ApprovalAudit.AppendSucceeds | src/autonomy/approval_audit.py:32-58 | an append to an accepted log never raises |
| ApprovalAudit.AcceptedIsPrefixClosed | src/autonomy/approval_audit.py:60-94 | every beginning of an accepted log is accepted |
| ApprovalAudit.AcceptedMeansChained | src/autonomy/approval_audit.py:66-92 | acceptance read forwards: every entry is genuine and names the hash of the one before |
| ApprovalAudit.RejectedStaysRejected | src/autonomy/approval_audit.py:60-94 | a rejected log stays rejected under further appends |
| ApprovalAudit.RejectionIsNoticed | src/autonomy/approval_audit.py:32-58 | one of the next `verify_every_writes` appends to a rejected log raises |
| ApprovalAudit.SameEndMeansSameLog | src/autonomy/approval_audit.py:60-103 | accepted logs with the same last hash are equal, whatever their lengths, or exhibit a collision |
| ApprovalAudit.CanaryApprovalAuditLedger.VerifyChain | src/autonomy/approval_audit.py:60-94 | verification succeeds exactly for accepted logs and counts their records |
| ApprovalAudit.CanaryApprovalAuditLedger.AppendRecord | src/autonomy/approval_audit.py:32-58 | the appended entry, the counter and both verifications |
| ApprovalAudit.CanaryApprovalAuditLedger.Open | src/autonomy/approval_audit.py:15-30 | opening fails closed on a rejected file |
| BundleUpdater.SignedBundleUpdater.ApplyBundle | src/autonomy/bundle_updater.py:50-116 | a submission leaves the specified state and files, or nothing |
| BundleUpdater.SignedBundleUpdater.ApproveCanary | src/autonomy/bundle_updater.py:121-192 | an approval leaves the specified state and log record |
| BundleUpdater.SignedBundleUpdater.VerifySignatures | src/autonomy/bundle_updater.py:225-267 | the loop collects exactly the key ids with some valid signature |
| RolloutProofs.StateIsFoldOfLog | src/autonomy/bundle_updater.py:121-192 | whatever trust stores the calls find, pending approvals and approved hash of every environment are read off the approval log and the global applies |
| RolloutProofs.StillPendingMore | src/autonomy/bundle_updater.py:161-174 | how one more record changes the records that no approval follows |
| RolloutProofs.ApprovalIsCredited | src/autonomy/bundle_updater.py:162-166 | the state file says when and by whom the standing approval was given |
| RolloutProofs.VoteCompletesIff | src/autonomy/bundle_updater.py:138-192 | a vote lists the distinct, named approvers so far, completes exactly if they are as many as the trust store configures, and is recorded as it was called for |
| TrustProofs.PolicyIsConfigured | src/autonomy/bundle_updater.py:205-223 | the policy in force is what the trust store configures for the environment, with its defaults |
| TrustProofs.SettingsAreUnique | src/autonomy/bundle_updater.py:205-223 | a trust store configures one number of approvers and one number of signatures |
| TrustProofs.ValidKidsSigned | src/autonomy/bundle_updater.py:240-264 | a key id counts exactly if the store has an ed25519 key for it under which some ed25519 signature of the bundle verifies |
| TrustProofs.QuorumIff | src/autonomy/bundle_updater.py:240-267 | the count suffices exactly if there are that many different key ids that signed |
| TrustProofs.LoweredText | src/autonomy/bundle_updater.py:129 | a lowered text has no capital letters and is otherwise the same |
| RolloutProofs.GlobalConsumesApproval | src/autonomy/bundle_updater.py:269-303 | each global apply that needs approval, by policy or by its own gate, consumes its own approval, completed since the previous apply by as many distinct, named approvers as were required, each with a log record, and exactly as many where the requirement stays the same |
| RolloutProofs.GlobalsNeverOutnumberApprovals | src/autonomy/bundle_updater.py:399-402 | global applies that need approval never outnumber completed approvals, nor do all global applies where every trust store requires approval |
| RolloutProofs.VoteIsExact | src/autonomy/bundle_updater.py:138-176 | the vote that completes an approval lists exactly the required number of distinct, named approvers |
| RolloutProofs.ApprovalsAreNoted | src/autonomy/bundle_updater.py:134-184 | over an intact log an approval is noted exactly if it gets as far as a vote; one that does not changes nothing, whatever the log |
| RolloutProofs.AuditFailsIff | src/autonomy/bundle_updater.py:170-184 | the audit log refuses an approval if and only if it gets as far as a vote, the log was tampered with, and verification is due before or after the append |
| RolloutProofs.RefusedVoteStaysInForce | src/autonomy/bundle_updater.py:170-184 | whatever the log, an approval leaves the state that it leaves over an intact one; a refused one leaves the log as it was, or one record longer |
| RolloutProofs.SubmitTakesForce | src/autonomy/bundle_updater.py:50-116 | a submission changes nothing at all or brings its bundle into force, with the version, environment and stage that its metadata say |
| CanaryProofs.DefaultApprovalIsForLastCanary | src/autonomy/bundle_updater.py:134-136 | an approval without a hash, or with an empty one, is for the last canary bundle, and fails exactly without one |
| CanaryProofs.RunTracksCanary | src/autonomy/bundle_updater.py:394-398 | the state file names the last canary bundle of each environment and its time |
| CanaryProofs.ApprovalIsForCanaryIff | src/autonomy/bundle_updater.py:134-172 | in any history, an approval is for a bundle that was a canary of its environment if and only if its call named no hash, an empty one, or that of such a bundle |
| CanaryProofs.PromotionIsOfCanaryIff | src/autonomy/bundle_updater.py:269-303 | the source of a global apply that needs approval was a canary, at the approval or by any later time up to the apply, if and only if the vote that completed that approval named no hash, or one that was a canary by then |
| CanaryProofs.NamedApprovalNeedsNoCanary | src/autonomy/bundle_updater.py:134-172 | after any history, enough named approvers get any hash they name approved, with no canary stage, if and only if one of them is not pending for it, or it was approved before; always, where the requirement stays the same |
| CanaryProofs.NamedApprovalOpensGate | src/autonomy/bundle_updater.py:269-303 | exactly when a healthy global bundle with that hash as its source is then accepted; the canary stage does not enter |
| BundleHistory.AcceptedIff | src/autonomy/bundle_updater.py:50-116 | a bundle is accepted if and only if it is newer, verifiably signed under as many different keys as the store configures, and a canary or through an open gate |
| BundleHistory.UnverifiedIsRefused | src/autonomy/bundle_updater.py:258-267 | a bundle none of whose signatures verifies is never accepted |
| BundleHistory.RefusedForFirstFault | src/autonomy/bundle_updater.py:50-303 | a refused bundle is refused for the first fault that it has |
| BundleHistory.OnlyKeyIdsMatter | src/autonomy/bundle_updater.py:225-267 | acceptance depends on the set of key ids with some valid signature only |
| BundleHistory.HistoryIsFoldOfAccepted | src/autonomy/bundle_updater.py:318-405 | whatever trust stores the calls find, versions increase, the last hash and the chain follow the accepted hashes, and each file is the last one brought at its own stage |
| BundleHistory.EqualChainsMeanEqualHistories | src/autonomy/bundle_updater.py:384-393 | installations with equal chain hashes accepted the same bundles in the same order, or exhibit a clash of the hash, or two different bundles with one canonical text |
| Tracker.DeterministicObstacleTracker.Update | src/autonomy/perception.py:55-90 | one update associates, reports and stores as specified |
| Tracker.DeterministicObstacleTracker.NearestAssociatedTrack | src/autonomy/perception.py:113-127 | the search finds the nearest candidate whatever order it visits the table in |
| Tracker.DeterministicObstacleTracker.AssignTrackId | src/autonomy/perception.py:101-111 | supplied id, nearest track, or a fresh id and the next counter |
| Tracker.DeterministicObstacleTracker.PruneExpired | src/autonomy/perception.py:92-99 | exactly the tracks beyond the age limit go |
| Tracker.NearestIsUnique | src/autonomy/perception.py:124-127 | there is at most one least (distance, id), so table order does not matter |
| Tracker.TrackIdsSeparate | src/autonomy/perception.py:109 | generated ids are equal only for equal sources and counters |
| TrackerProofs.IdsAreNeverReused | src/autonomy/perception.py:101-111 | over any frames no generated id is generated again |
| TrackerProofs.TracksHaveOneSource | src/autonomy/perception.py:115-122 | all observations under one track id come from one source |
| TrackerProofs.EveryFrameIsSound | src/autonomy/perception.py:55-127 | in every frame ids are distinct, matches are nearest among the tracks left from earlier frames, and live tracks are recent |
| TrackerProofs.MatchIsNearest | src/autonomy/perception.py:113-127 | an obstacle is unmatched exactly if there is no candidate in range |
| TrackerProofs.VelocityConnectsObservations | src/autonomy/perception.py:129-140 | a reported velocity carries the previous position to the observed one |
| TrackerHistory.TableIsLastSights | src/autonomy/perception.py:55-99 | over any frames the table holds exactly the tracks seen within the age limit, each with position, time, source and age of its last sight, and every report continues the last sight of its track |
| TrackerHistory.IdentityIsKept | src/autonomy/perception.py:101-127 | an obstacle that reappears within both limits of a track, with no other track in reach, keeps its id |
| TrackerHistory.SuppliedIdIsKept | src/autonomy/perception.py:101-103 | an id that comes with an obstacle is reported as it is |
| TrackerHistory.AgeIsNumberOfSights | src/autonomy/perception.py:66-87 | the age of a live track is the number of all its sights |
| TrackerHistory.NewIdsAreCounted | src/autonomy/perception.py:107-111 | the ids in the order of their first report are made of the source and a counter from one |
| TrackerHistory.NearestIsLeast | src/autonomy/perception.py:113-127 | the nearest candidate is the least free track of the source by distance and then by id |
| Tracker.TrackIdFormat | src/autonomy/perception.py:109 | a generated id is the source, a dash, and the counter with at least four digits |

## Left out

- The cryptography, base64 and JSON text: verification, sealing, hashing and canonical forms are function parameters.
- HTTP, TLS, MQTT, SQLite and files: a send meets a failed exchange or an acknowledgement, and files are fields of the model. Torn writes, undecodable bodies and several processes on one ledger are not modelled.
- Shapes that only a hand-edited file can have (a pin list that is not a list, a log line that is not an object, extra keys of a record) and calls of the localization and mapping services without a frame.
- The vendor key ring, the mission audit log and the text of reason codes, which repeat simpler forms of the pinset and the approval log: the signature check of an acknowledgement is one input.
- The planners, the command line, scenarios, replay, traces and configuration loading. The clamp of the outcome window to at least one entry, done when a policy is loaded, is part of its type here.
- Telemetry parsing and schema checks: supervisor and tracker take parsed frames.
- Latency statistics, and the order of an approval's approvers, which is a set here.
- Floating-point rounding, and several clock readings within one step: each step reads one instant.
- TrackerProofs.EveryFrameIsSound: frames with supplied object ids are modelled, but excluded from the identity theorems, because supplied ids are taken over unchecked.
