# Coordination core of the priority gateway, in Dafny

A model of the parts of the vLLM priority gateway that decide: who is admitted, what a lease or a probe
permit is worth, what is charged, when a circuit opens, what survives a failure of the coordinator, and
what a streamed response reports as its token usage. `dafny verify dfyconfig.toml` checks all of it.

Each stateful object of the program is a class whose methods are proved against a specification on plain
values (maps, sets and sequences without counters, heaps or lazy deletion). The properties over whole
runs are then proved about the specifications, in both directions: what must not happen, and what every
operation answers and does, told by the events before it and by conditions a caller can check. Protocols
between goroutines are state machines with one event per stretch of code that runs under one lock or
between two channel operations, interleaved freely. Each PostgreSQL transaction is one step on tables, as
its scope locks make it.

- `JsonGrammar`, `JsonAutomaton`, `JsonCompleteness`, `JsonSoundness`, `JsonValidator`, `JsonViability`:
  the incremental JSON validator and the grammar of RFC 8259, as concrete syntax trees.
- `UsageInspector`, `UsageReading`, `UsageReader`, `SseEvents`: the usage inspector on top of it.
- `ExpiryQueue`, `Counting`: the heap of deadlines, and facts about counters.
- `Admission`, `AdmissionCoordinator`, `AdmissionRuns`, `AdmissionLimits`, `AdmissionOrphans`,
  `AdmissionLeases`, `AdmissionAnswers`, `AdmissionTokens`: admission in one replica.
- `CircuitBreaker`, `Breaker`, `BreakerRuns`: the breaker of one backend. `CircuitBook`,
  `CircuitCoordinator`, `CircuitRuns`, `CircuitProperties`, `CircuitOnce`, `CircuitOutcomes`, `CircuitAnswers`:
  attempts and permits on many.
- `Tokenization`, `TokenizationCoordinator`, `TokenizationRates`, `TokenizationAnswers`: admission of
  tokenization calls.
- `RecoveryBarrier`, `RecoveryManager`, `RecoveryFates`: recovery and the replay of circuit failures.
- `LeaseDelivery`, `LeaseRetries`, `LeaseSettlement`, `LeaseTracking`, `LeaseManager`: delivery of completions
  with retries, what it does to the coordinator, and which leases are tracked meanwhile.
- `Recorder`, `RecorderHistory`, `PeerReservation`: the analytics recorder and reservations with several peers.
- `PoolHysteresis`: the pressure state of a pool.
- `PgAdmission`, `PgAdmissionRuns`, `PgRates`, `PgBatches`, `PgAdmissionAnswers`: the shared admission tables.
  `PgCircuits`, `PgCircuitSteps`, `PgCircuitRuns`, `PgCircuitOutcomes`, `PgCircuitAnswers`: the shared circuit
  tables.

Conventions: time is an integer number of nanoseconds and a zero time is `None`; identifiers are integers;
balances are `real`; two requests have the same fingerprint when they are equal; the address of a breaker
or reservation is a serial number. Clocks, answers of remote parties, panics of callbacks and lost commit
acknowledgements are parameters. Theorems over runs that need a clock which never goes back say so.

Three facts about the code that the proofs brought out. A renewal that names a live lease under another
client or pool drops the lease and leaves its receipt open until a completion names it
(`AdmissionOrphans` says exactly when and for how long). The bulk circuit refresh equals the simple one on
tables where active failures carry the revision of their circuit and no failure is on record under another
backend's probe. Every transaction keeps both conditions as long as an attempt identifier is used with one
backend, and two examples of tables show that neither can be dropped. Constant pressure brings a pool to
one state and keeps it there because the configuration orders the thresholds; without that order it can
make the pool oscillate.

## Model

| member | source | states |
|---|---|---|
| `JsonValidator.AcceptsExactlyJson` | internal/proxy/json_validator.go:63-403 | a byte string is accepted at its end exactly when the grammar of sections 2 to 7 of RFC 8259 writes it with at most 256 nested containers |
| `JsonCompleteness.Complete` | internal/proxy/json_validator.go:87-403 | every text the grammar writes within the depth limit is accepted |
| `JsonSoundness.Sound` | internal/proxy/json_validator.go:77-403 | every accepted byte string is written by some concrete syntax tree within the depth limit |
| `JsonValidator.RejectsForGood` | internal/proxy/json_validator.go:399-403 | once a prefix is refused no continuation of it is a JSON text |
| `JsonViability.FailsAtFirstHopelessByte` | internal/proxy/json_validator.go:87-403 | the validator has failed after a prefix exactly when no continuation whatever makes a JSON text of it |
| `JsonValidator.Validate` | internal/proxy/json_validator.go:63-132 | feeding a body byte by byte to a reset validator and asking at the end decides whether the body is a JSON text |
| `JsonValidator.Validator.constructor` | internal/proxy/json_validator.go:63-68 | a new validator is in the initial configuration |
| `JsonValidator.Validator.Reset` | internal/proxy/json_validator.go:63-68 | whatever was read before, the validator is in the initial configuration |
| `JsonValidator.Validator.Eof` | internal/proxy/json_validator.go:77-85 | answers as the automaton does at the end of the input, a pending number being closed |
| `JsonValidator.Validator.StepByte` | internal/proxy/json_validator.go:87-132 | one byte moves the fields exactly as the automaton the grammar theorems are about |
| `JsonValidator.Validator.StepString` | internal/proxy/json_validator.go:134-170 | the same for a byte inside a string, escapes and control bytes included |
| `JsonValidator.Validator.StepNumber` | internal/proxy/json_validator.go:172-222 | the same for a byte inside a number |
| `JsonValidator.Validator.StepLiteral` | internal/proxy/json_validator.go:224-249 | the same for a byte of true, false or null |
| `JsonValidator.Validator.StepStructure` | internal/proxy/json_validator.go:87-132 | the same for a byte between tokens |
| `JsonValidator.Validator.BeginValueAt` | internal/proxy/json_validator.go:251-286 | the same where a value must begin |
| `JsonValidator.Validator.BeginStringAt` | internal/proxy/json_validator.go:288-297 | the same where a key must begin |
| `JsonValidator.Validator.EndValueAt` | internal/proxy/json_validator.go:299-341 | the same after a value, where the innermost container decides what may follow |
| `JsonValidator.Validator.AfterInteger` | internal/proxy/json_validator.go:343-353 | the same after the integer part of a number |
| `JsonValidator.Validator.Push` | internal/proxy/json_validator.go:379-387 | opens a container, or fails at the 257th |
| `JsonValidator.Validator.Pop` | internal/proxy/json_validator.go:389-397 | closes the innermost container and knows whether it was the last |
| `JsonValidator.Validator.Fail` | internal/proxy/json_validator.go:399-403 | refuses for good |
| `UsageReading.CapturesExactlyUsage` | internal/proxy/usage.go:100-184 | for every accepted body, whatever tree writes it, the captured spans are exactly the values of the top-level members spelled `usage`, in order; the inspector gives up exactly when one of those objects exceeds the capture limit |
| `UsageReading.ObjectValueRead` | internal/proxy/usage.go:100-184 | the bytes captured for an object are the object, from its brace to its own closing brace |
| `UsageReading.ObjectStaysOpen` | internal/proxy/usage.go:169-173 | nesting is back where the object began only at its last byte |
| `UsageInspector.ChunksDoNotMatter` | internal/proxy/usage.go:62-72 | the reading of a JSON body does not depend on how it is cut into chunks |
| `UsageInspector.DisabledForever` | internal/proxy/usage.go:102-105 | an inspector that gave up never looks at a byte again |
| `UsageReader.ReportsExactlyUsage` | internal/proxy/usage.go:74-98 | for a body the grammar writes: failed exactly if some `usage` member is no object, undecodable or suspicious; no usage if a member is no object or judged invalid, or if none offers one; else exactly the usage of the last member that does; nothing and failed if a member exceeds the limit |
| `UsageReader.ReportedOnlyIfAccepted` | internal/proxy/usage.go:74-98 | a usage, or the absence of a failure, is reported only if the whole body is a JSON text |
| `UsageReader.ConsiderAllReports` | internal/proxy/usage.go:247-267 | what the members tell one after another amounts to: failed exactly if one of them alarms, no usage if one forfeits it or none offers one, else the usage of the last that offers one |
| `UsageReader.ReportedMeansAllValid` | internal/proxy/usage.go:247-267 | one `usage` member that is not an object, or not a valid one, forfeits the report |
| `UsageReader.Reader.Write` | internal/proxy/usage.go:100-175 | the loop over the bytes of a chunk reads as the specification does |
| `UsageReader.Reader.WriteByte` | internal/proxy/usage.go:102-174 | one iteration of that loop |
| `UsageReader.Reader.Announce` | internal/proxy/usage.go:106-130 | what a byte means for a `usage` member announced before, captured or not |
| `UsageReader.Reader.Scan` | internal/proxy/usage.go:132-136 | the validator is fed and the key and capture flags follow its answer |
| `UsageReader.Reader.ReadInString` | internal/proxy/usage.go:137-161 | matching a key against `usage` byte by byte, an escape spoiling the match |
| `UsageReader.Reader.ReadOutside` | internal/proxy/usage.go:162-173 | entering strings, and ending a capture at the depth it began at |
| `UsageReader.Reader.Consume` | internal/proxy/usage.go:169-173 | a capture that ends is judged at once and told to the report, which stays the fold over all spans so far |
| `UsageReader.Report.Consume` | internal/proxy/usage.go:247-267 | the findings are told as the specification tells them, whose meaning is `ConsiderAllReports` |
| `UsageReader.Report.Dismiss` | internal/proxy/usage.go:125-129 | a `usage` member that is not an object forfeits everything |
| `UsageReader.Reader.Finish` | internal/proxy/usage.go:74-98 | the first call closes the reading: its report counts only while inspection is enabled and the validator accepts the end; every later call answers the same |
| `UsageReader.Examine` | internal/proxy/usage.go:62-98 | writing the chunks of a body one after another and asking for the result: a body that is no JSON text gives no usage and a failure, and for every tree that writes the body the report is that of its `usage` members, the last one offered standing |
| `SseEvents.ChunksDoNotMatter` | internal/proxy/usage.go:186-206 | the reading of an event stream does not depend on how it is cut into chunks |
| `SseEvents.EventsAreParagraphs` | internal/proxy/usage.go:186-206 | events, their blank lines and the unfinished rest make up the stream, and no event contains a blank line |
| `SseEvents.ReadsWhatWasWritten` | internal/proxy/usage.go:186-206 | round trip: of proper events followed by an unfinished rest exactly these are read, whatever the chunks, and the reading gives up if and only if one of them exceeds the limit |
| `SseEvents.Splitter.Write` | internal/proxy/usage.go:186-206 | the loop over a chunk of the stream reads as the specification does |
| `SseEvents.Splitter.WriteByte` | internal/proxy/usage.go:186-206 | one iteration of that loop |
| `ExpiryQueue.FrontIsOldest` | internal/coordination/local/expiry_queue.go:25-56 | in a heap-ordered array no entry is older than the front |
| `ExpiryQueue.Queue.Add` | internal/coordination/local/expiry_queue.go:40-42 | adds exactly one entry and keeps the order |
| `ExpiryQueue.Queue.Due` | internal/coordination/local/expiry_queue.go:44-49 | takes out one oldest entry if it is due, else every entry lies in the future |
| `ExpiryQueue.Queue.PopOldest` | internal/coordination/local/expiry_queue.go:51-56 | takes out one oldest entry unless there is none |
| `ExpiryQueue.Queue.Pop` | internal/coordination/local/expiry_queue.go:31-38 | takes the front out and leaves every other entry, in order again |
| `ExpiryQueue.Queue.Up` | internal/coordination/local/expiry_queue.go:40-42 | restores the order above an entry, losing none |
| `ExpiryQueue.Queue.Down` | internal/coordination/local/expiry_queue.go:44-56 | restores the order below the front, losing none |
| `AdmissionCoordinator.Coordinator.constructor` | internal/coordination/local/admission.go:58-70 | an empty coordinator, the default capacity replacing one that is not positive |
| `AdmissionCoordinator.Coordinator.Acquire` | internal/coordination/local/admission.go:95-187 | decides and files exactly as a specification that has only the set of live leases, the receipts and the rates, and counts anew; the counters, the pairing of leases with receipts and the queued deadlines agree with it afterwards |
| `AdmissionCoordinator.Coordinator.CheckLimits` | internal/coordination/local/admission.go:145-157 | the concurrency checks answered from the counters are those on the live leases, whose answers `AdmissionAnswers.AnsweredExactly` and `ClientLimitHolds` pin down |
| `AdmissionCoordinator.Coordinator.CheckRates` | internal/coordination/local/admission.go:158-176 | the rate checks and the debit of one request |
| `AdmissionCoordinator.Coordinator.JudgeRequest` | internal/coordination/local/admission.go:138-176 | all checks in the order of the source |
| `AdmissionCoordinator.Coordinator.FileRefusal` | internal/coordination/local/admission.go:123-137 | a refusal is a receipt that is terminal at once, queued for deletion |
| `AdmissionCoordinator.Coordinator.FileAdmission` | internal/coordination/local/admission.go:177-186 | an admission files receipt, lease, counters and deadline together |
| `AdmissionCoordinator.Coordinator.CountLease` | internal/coordination/local/admission.go:178-183 | the three counters stay the sizes of the sets they stand for |
| `AdmissionCoordinator.Coordinator.Renew` | internal/coordination/local/admission.go:189-219 | every renewal of the batch as specified, in order |
| `AdmissionCoordinator.Coordinator.RenewLease` | internal/coordination/local/admission.go:198-217 | a renewal prolongs a lease still held, and drops one under another client or pool |
| `AdmissionCoordinator.Coordinator.Complete` | internal/coordination/local/admission.go:221-268 | every completion of the batch as specified, in order |
| `AdmissionCoordinator.Coordinator.CompleteLease` | internal/coordination/local/admission.go:230-266 | ends an operation once, charging its usage to the policy of the moment |
| `AdmissionCoordinator.Coordinator.CloseReceipt` | internal/coordination/local/admission.go:246-265 | drops the lease, charges the usage and starts the retention in one step |
| `AdmissionCoordinator.Coordinator.ChargeUsage` | internal/coordination/local/admission.go:247-256 | charges input and output tokens against a bucket brought up to date |
| `AdmissionCoordinator.Coordinator.NormalizeRate` | internal/coordination/local/admission.go:270-289 | refills a bucket up to its capacity, or resets it on a new policy |
| `AdmissionCoordinator.Coordinator.ObserveClientRatePolicy` | internal/coordination/local/admission.go:298-305 | the newest policy revision seen stands |
| `AdmissionCoordinator.Coordinator.Expire` | internal/coordination/local/admission.go:306-336 | afterwards exactly the leases that ran out and the receipts kept long enough are gone, although only queue fronts are looked at |
| `AdmissionCoordinator.Coordinator.ExpireLeases` | internal/coordination/local/admission.go:307-325 | the first loop removes every lease whose time has come and no other |
| `AdmissionCoordinator.Coordinator.ForgetReceipts` | internal/coordination/local/admission.go:326-335 | the second loop removes every receipt whose retention is over and no other |
| `AdmissionCoordinator.Coordinator.MakeReceiptRoom` | internal/coordination/local/admission.go:338-350 | makes room if and only if there is some or a terminal receipt can go; the one that goes is nearest the end of its retention |
| `AdmissionCoordinator.Coordinator.HasTerminalReceipt` | internal/coordination/local/admission.go:352-362 | finds a terminal receipt if and only if there is one |
| `AdmissionCoordinator.Coordinator.RemoveLease` | internal/coordination/local/admission.go:364-388 | drops a lease with its share of every counter |
| `AdmissionCoordinator.Coordinator.PoolInflight` | internal/coordination/local/admission.go:87-93 | the number of live leases of the pool |
| `AdmissionRuns.AdmittedAtMostOnce` | internal/coordination/local/admission.go:104-139 | over a run with a clock that never goes back the same request is admitted twice only if its receipt was evicted for capacity in between: staleness and retention interlock |
| `AdmissionRuns.CompletedAtMostOnce` | internal/coordination/local/admission.go:221-268 | between two completions that take effect under one lease identifier there is a new admission under it |
| `AdmissionRuns.BatchChargesOnce` | internal/coordination/local/admission.go:230-266 | of the items of one batch with the same lease only the first can take effect |
| `AdmissionLimits.ReserveHolds` | internal/coordination/local/admission.go:148-187 | in every reachable state the lower classes hold at most limit minus reserve leases of a pool and everybody at most limit |
| `AdmissionLimits.HighRefusedOnlyWhenReserveUsed` | internal/coordination/local/admission.go:148-154 | after any run a High or Critical request is refused at pool scope only when at least the reserve is held by such leases, never on account of the reserve |
| `AdmissionLimits.RenewRevivesNothing` | internal/coordination/local/admission.go:189-217 | no renewal brings expired capacity back to its holder |
| `AdmissionLimits.RateBound` | internal/coordination/local/admission.go:167-176 | from any moment on, under one policy, admissions of a client and what its bucket holds are together at most what was in it and what flowed back; so admissions are at most capacity plus refill |
| `AdmissionLimits.StepDebits` | internal/coordination/local/admission.go:95-305 | an operation takes exactly one request out of the bucket if it admits the client afresh, else nothing |
| `AdmissionOrphans.OrphansExactly` | internal/coordination/local/admission.go:95-268 | an operation leaves some receipt open without a lease if and only if it is a renewal with an item that names a live lease under another client or pool |
| `AdmissionOrphans.HonestRunsLeaveNoOrphans` | internal/coordination/local/admission.go:189-217 | a run whose renewals name leases under their own client and pool never leaves an open receipt without its lease |
| `AdmissionOrphans.OrphanIsReached` | internal/coordination/local/admission.go:198-204 | from the empty coordinator one admission and one renewal under another client end with such a receipt |
| `AdmissionOrphans.OrphanStays` | internal/coordination/local/admission.go:95-268 | over any run such a receipt stays on record, unchanged and without a lease, until a completion names it |
| `AdmissionOrphans.CompletionClosesOrphan` | internal/coordination/local/admission.go:257-263 | the first completion that names it answers that the lease was lost and closes it |
| `AdmissionLeases.LeasesAreTheirHistory` | internal/coordination/local/admission.go:95-325 | over every run with a clock that never goes back the live leases are exactly those an event of the run admitted and none since completed, let run out, or named under another client or pool, each with the expiry its last renewal gave it |
| `AdmissionAnswers.ClientLimitHolds` | internal/coordination/local/admission.go:155-187 | over every run whose requests of a client carry an effective limit of at most L the client never has more than L live leases |
| `AdmissionAnswers.AnsweredExactly` | internal/coordination/local/admission.go:95-187 | what an acquisition answers after any run: a known request what is on record, a full book without terminal receipts unavailable, any other one its verdict, each refusal exactly under its own flat condition and admission exactly if none holds; refused at client scope exactly if the limit is out of range or already held |
| `AdmissionAnswers.JudgeJustified` | internal/coordination/local/admission.go:138-176 | each answer of the checks is given exactly under its own condition on live leases and buckets |
| `AdmissionAnswers.RenewalsAnswered` | internal/coordination/local/admission.go:189-219 | a renewal in a batch is answered with the lease prolonged by its own time from now if the lease is held and every item before named it rightly, else with lost |
| `AdmissionAnswers.CompletionsAnswered` | internal/coordination/local/admission.go:221-268 | a completion in a batch answers unknown, never admitted, released, lost or what was answered before, each exactly when it is so |
| `AdmissionAnswers.CompletionsAreRemembered` | internal/coordination/local/admission.go:236-264 | what is on record of a completion is what was answered when it took effect |
| `AdmissionAnswers.DecisionsAreRemembered` | internal/coordination/local/admission.go:104-137 | what is on record of a request is what was answered when it first came |
| `AdmissionAnswers.RecordsAreKept` | internal/coordination/local/admission.go:306-395 | a receipt stays until its time is over unless evicted for room, and its time is a day from its end, or from its beginning if that is later |
| `AdmissionTokens.TokensAreAccounted` | internal/coordination/local/admission.go:221-305 | over every run under one policy a token bucket holds exactly what the account of refills and reported tokens says |
| `AdmissionTokens.StepTakes` | internal/coordination/local/admission.go:230-266 | an operation takes out of the token bucket exactly the tokens of the completions of this client that take effect, else nothing |
| `AdmissionTokens.ChargeTakes` | internal/coordination/local/admission.go:247-256 | charging a completion takes input and output tokens of a valid usage and no more, from its own client only |
| `AdmissionTokens.BucketFills` | internal/coordination/local/admission.go:270-289 | a bucket on record holds what it held and what flowed back since, up to its capacity |
| `AdmissionTokens.NewBucketIsFull` | internal/coordination/local/admission.go:270-289 | a bucket without a record under this policy is full |
| `AdmissionTokens.FullInAMinute` | internal/coordination/local/admission.go:270-289 | a bucket not overdrawn is full after one minute |
| `AdmissionTokens.RetryIsInTime` | internal/coordination/rate.go:11-17 | before the time told for a retry the bucket is short of one, after it it is not, unless the time is capped |
| `AdmissionTokens.RetryIsTold` | internal/coordination/local/admission.go:158-176 | a refusal for a rate names that time for the bucket it was refused for |
| `BreakerRuns.RunKeepsInv` | internal/circuitbreaker/breaker.go:54-197 | in every run the count of probes is the number of attempts of the present generation still out, and the other fields are as true |
| `BreakerRuns.HalfOpenIsNeverStuck` | internal/circuitbreaker/breaker.go:54-98 | a half-open circuit has a probe out or gives the next caller one |
| `BreakerRuns.ClosesOnlyWhenResolved` | internal/circuitbreaker/breaker.go:129-146 | a half-open circuit closes only when every probe of the generation ended, one of them in success and none in failure |
| `BreakerRuns.OpensOnlyOnBurst` | internal/circuitbreaker/breaker.go:109-127 | a closed circuit opens only on at least threshold failures of different attempts of one generation inside one window |
| `BreakerRuns.FailuresAreReal` | internal/circuitbreaker/breaker.go:176-197 | every failure held against a closed circuit is that of another attempt acquired in the present generation |
| `CircuitBreaker.PruneMeaning` | internal/circuitbreaker/breaker.go:188-197 | pruning keeps exactly the failures at or after the cutoff, each as often as it occurred |
| `CircuitBreaker.LatestMeaning` | internal/circuitbreaker/breaker.go:176-186 | the latest failure is one of the failures and none is later |
| `CircuitBreaker.AcquireThenObserve` | internal/circuitbreaker/breaker.go:54-98 | the state seen with an acquisition is the state it was made in |
| `CircuitBreaker.AcquireSane` | internal/circuitbreaker/breaker.go:54-98 | after an acquisition or a snapshot a closed circuit holds fewer failures than the threshold, and a success is on record only while a probe is out |
| `CircuitBreaker.CompleteSane` | internal/circuitbreaker/breaker.go:109-146 | after a completion a closed circuit holds fewer failures than the threshold, and a success is on record only while a probe is out |
| `Breaker.New` | internal/circuitbreaker/breaker.go:38-52 | a breaker is made if and only if all options are positive, and is closed |
| `Breaker.Breaker.Acquire` | internal/circuitbreaker/breaker.go:54-72 | grants and moves exactly as the machine the run theorems are about |
| `Breaker.Breaker.Complete` | internal/circuitbreaker/breaker.go:109-127 | a completion of another generation is ignored, one of this generation moves the machine |
| `Breaker.Breaker.CompleteProbe` | internal/circuitbreaker/breaker.go:129-146 | a probe that fails reopens, the last one after a success closes |
| `Breaker.Breaker.TransitionOpenToHalfOpen` | internal/circuitbreaker/breaker.go:148-157 | half-open exactly when the cooldown is over |
| `Breaker.Breaker.EnterOpen` | internal/circuitbreaker/breaker.go:159-165 | a new generation, no probes |
| `Breaker.Breaker.EnterClosed` | internal/circuitbreaker/breaker.go:167-174 | a new generation, no failures, no probes |
| `Breaker.Breaker.RecordFailure` | internal/circuitbreaker/breaker.go:176-186 | adds the failure and forgets those out of the window of the latest |
| `Breaker.Breaker.PruneFailures` | internal/circuitbreaker/breaker.go:188-197 | the filter in place keeps what the specification keeps, in order |
| `CircuitProperties.RunKeepsInv` | internal/coordination/local/circuit.go:69-312 | over every run permits, attempts, breakers and completions stay consistent |
| `CircuitProperties.ProbesAreBounded` | internal/coordination/local/circuit.go:113-256 | no backend ever has more open probes of the present generation than it may, and the count its breaker keeps of them is exact |
| `CircuitProperties.HalfOpenMovesOn` | internal/coordination/local/circuit.go:113-256 | a half-open circuit lets the next caller probe, or a permit on this very circuit is held whose end reopens it |
| `CircuitProperties.LapsedProbeReopens` | internal/coordination/local/circuit.go:226-245 | a probe permit that runs out reopens its circuit at the next call of any kind |
| `CircuitProperties.OutcomesReachOwnBreaker` | internal/coordination/local/circuit.go:160-193 | a completion moves a breaker only if its attempt is open, was acquired from that breaker in the generation reported, and that breaker serves the backend now |
| `CircuitProperties.LateOutcomesAreIgnored` | internal/coordination/local/circuit.go:160-193 | a completion of an attempt that is over moves no breaker |
| `CircuitProperties.OldAttemptsNeverReachNewBreakers` | internal/coordination/local/circuit.go:69-266 | over every run a breaker installed after some moment is never moved by an attempt made before it, although generations restart: expiry moves it only for a permit on it that is due, every such permit was taken since, and so was any attempt whose outcome moves it |
| `CircuitProperties.ReplacementStartsAfresh` | internal/coordination/local/circuit.go:83-98 | when a backend changes identity its breaker is a new one and every attempt made through the old one is closed |
| `CircuitProperties.ReconcileIsExact` | internal/coordination/local/circuit.go:69-106 | afterwards exactly the enabled, not draining backends of the list are in service; an unchanged one keeps its breaker, any other has a new one |
| `CircuitProperties.ReconciledOutcome` | internal/coordination/local/circuit.go:77-98 | each listed backend has its own outcome and the others are as before |
| `CircuitProperties.ReconcileFailsOnDuplicates` | internal/coordination/local/circuit.go:77-82 | reconciliation fails if and only if a backend is listed twice |
| `CircuitProperties.LeadingDistinct` | internal/coordination/local/circuit.go:77-82 | the check for repetitions finds one exactly when there is one |
| `CircuitOnce.EndsAtMostOnce` | internal/coordination/local/circuit.go:113-266 | an attempt ends at most once over a run, however often it is acquired again, completed again or reconciled away, unless its record was on file and given up for room in between |
| `CircuitOnce.BeginsAtMostOnce` | internal/coordination/local/circuit.go:113-159 | the same request is given a permit to call at most once over a run, unless its record was on file and given up for room in between |
| `CircuitOutcomes.BurstOpens` | internal/coordination/local/circuit.go:113-193 | over every lawful run, as many timely failures as the threshold, reported for attempts of the generation of a closed circuit in one window that nothing in the run is later than, open it: at some step it is open in the next generation, or already half-open in the one after because its cooldown is over |
| `CircuitOutcomes.FailuresAreCounted` | internal/circuitbreaker/breaker.go:109-127 | while a circuit stays closed it has on record exactly the failures told in its generation within the window |
| `CircuitOutcomes.LeavesByOpening` | internal/circuitbreaker/breaker.go:109-165 | a closed circuit that reaches a later generation opened at some step in between |
| `CircuitOutcomes.FromClosed` | internal/coordination/local/circuit.go:113-256 | one step from a closed circuit: it stays, or a timely failure of its own generation opens it, dated by a failure told, or it opened and its cooldown is already over |
| `CircuitOutcomes.FailedProbeReopens` | internal/coordination/local/circuit.go:160-193 | after any run a probe of the present generation reported failed reopens the circuit in a new generation, not before the time reported |
| `CircuitOutcomes.ClosesExactlyWhen` | internal/coordination/local/circuit.go:160-193 | after any run a half-open circuit closes exactly on the report, other than a failure, of the only probe outstanding, when it or an earlier one of the generation succeeded; its failures are then forgotten |
| `CircuitOutcomes.SuccessesAreMarked` | internal/circuitbreaker/breaker.go:129-146 | a half-open circuit has a success on record exactly if one was told in its generation |
| `CircuitOutcomes.OpenForItsCooldown` | internal/circuitbreaker/breaker.go:54-98 | over every run an open circuit is unchanged by whatever happens before its cooldown is over |
| `CircuitOutcomes.OpenStays` | internal/circuitbreaker/breaker.go:148-157 | no event before the end of the cooldown moves an open circuit |
| `CircuitAnswers.AcquisitionsAnswered` | internal/coordination/local/circuit.go:113-159 | what an acquisition answers after any run: a known attempt what is on record, else each refusal exactly under its own condition, else the permit of the present generation, with its expiry if it is a probe |
| `CircuitAnswers.ReportsAnswered` | internal/coordination/local/circuit.go:160-193 | what a report answers: stale, conflicting or accepted, each exactly when it is so |
| `CircuitAnswers.AcceptedIsFiled` | internal/coordination/local/circuit.go:184-191 | an accepted report is on file afterwards |
| `CircuitAnswers.RepetitionIsAccepted` | internal/coordination/local/circuit.go:168-193 | over every lawful run, while the attempt stays on record, an accepted report made again is accepted again and a different one is a conflict |
| `CircuitAnswers.RenewalsAnswered` | internal/coordination/local/circuit.go:194-224 | after any run a renewal is answered with the new expiry if the permit is still held, else with lost |
| `CircuitAnswers.SnapshotsAreTrue` | internal/coordination/local/circuit.go:303-312 | after any run a snapshot shows state, generation, the failures within the window, the open probes, when an open circuit may be tried again, and whether it is available |
| `CircuitAnswers.AvailableMeansLetThrough` | internal/coordination/local/circuit.go:113-159 | a circuit shown available is one that lets the next attempt through, and conversely |
| `CircuitAnswers.AttemptsAreKept` | internal/coordination/local/circuit.go:225-302 | the record of an attempt stays until its time is over unless evicted for room, and its time is a day from the latest of now, its beginning and its report or expiry |
| `CircuitRuns.LapseFirst` | internal/coordination/local/circuit.go:226-245 | settling overdue permits one at a time, the oldest first, is settling them all at once |
| `CircuitCoordinator.New` | internal/coordination/local/circuit.go:48-59 | an empty coordinator is made if and only if a breaker would accept the options |
| `CircuitCoordinator.Coordinator.Status` | internal/coordination/local/circuit.go:60-67 | available if and only if a new attempt could be recorded |
| `CircuitCoordinator.Coordinator.Reconcile` | internal/coordination/local/circuit.go:69-106 | as specified for the whole list, up to the first repetition if there is one |
| `CircuitCoordinator.Coordinator.ReconcileBackend` | internal/coordination/local/circuit.go:83-98 | one listed backend as specified |
| `CircuitCoordinator.Coordinator.RetireMissing` | internal/coordination/local/circuit.go:99-104 | exactly the backends not listed go out of service |
| `CircuitCoordinator.Coordinator.RetireOne` | internal/coordination/local/circuit.go:84-103 | a backend leaves service and its open attempts are abandoned |
| `CircuitCoordinator.Coordinator.InstallCircuit` | internal/coordination/local/circuit.go:92-97 | a new breaker for the backend |
| `CircuitCoordinator.Coordinator.TakeSnapshot` | internal/coordination/local/circuit.go:303-309 | what the snapshot shows is the breaker after its clock moved on |
| `CircuitCoordinator.Coordinator.Acquire` | internal/coordination/local/circuit.go:113-159 | answers and records exactly as the specification with plain maps |
| `CircuitCoordinator.Coordinator.AskBreaker` | internal/coordination/local/circuit.go:141-158 | the breaker decides and the attempt is filed with its permit |
| `CircuitCoordinator.Coordinator.FileAttempt` | internal/coordination/local/circuit.go:150-157 | an attempt and, for a probe, its permit and deadline |
| `CircuitCoordinator.Coordinator.Complete` | internal/coordination/local/circuit.go:160-193 | settles or ignores the completion exactly as the specification whose effect on circuits and answers `CircuitOutcomes` and `CircuitAnswers` state |
| `CircuitCoordinator.Coordinator.RecordCompletion` | internal/coordination/local/circuit.go:184-191 | the first completion of an attempt is recorded |
| `CircuitCoordinator.Coordinator.RenewProbes` | internal/coordination/local/circuit.go:194-224 | every renewal of the batch as specified, in order |
| `CircuitCoordinator.Coordinator.RenewProbe` | internal/coordination/local/circuit.go:203-222 | a permit still held is prolonged, any other is lost |
| `CircuitCoordinator.Coordinator.Expire` | internal/coordination/local/circuit.go:225-256 | afterwards exactly the overdue permits are settled and the outlived attempts forgotten, although only queue fronts are looked at |
| `CircuitCoordinator.Coordinator.ExpirePermits` | internal/coordination/local/circuit.go:226-245 | the first loop settles every overdue permit, the oldest first |
| `CircuitCoordinator.Coordinator.ForgetAttempts` | internal/coordination/local/circuit.go:246-255 | the second loop forgets every attempt kept long enough |
| `CircuitCoordinator.Coordinator.Invalidate` | internal/coordination/local/circuit.go:258-266 | every open attempt on the backend is abandoned and no other |
| `CircuitCoordinator.Coordinator.MakeAttemptRoom` | internal/coordination/local/circuit.go:268-280 | makes room if and only if there is some or a terminal attempt can go; the one that goes is nearest the end of its retention |
| `CircuitCoordinator.Coordinator.HasTerminalAttempt` | internal/coordination/local/circuit.go:282-292 | finds a terminal attempt if and only if there is one |
| `Tokenization.SelectMeaning` | internal/coordination/local/tokenization.go:92-97 | the backend chosen is eligible and none is preferred to it; none is chosen only if none is eligible |
| `Tokenization.InFlightIsBounded` | internal/coordination/local/tokenization.go:48-180 | at every moment the leases in flight respect both limits of the policy |
| `Tokenization.DebitedAtMostOnce` | internal/coordination/local/tokenization.go:63-81 | over a run with a clock that never goes back no request is granted, nor its client charged, twice |
| `Tokenization.IdleBucketsAreInvisible` | internal/coordination/local/tokenization.go:158-162 | dropping buckets after an idle day changes no decision of any run |
| `Tokenization.DropIdle` | internal/coordination/local/tokenization.go:158-162 | a bucket idle for a day is full at every later moment |
| `TokenizationRates.RateBound` | internal/coordination/local/tokenization.go:101-113 | from any moment on a client is granted at most its burst plus what flowed back, although idle buckets are dropped |
| `TokenizationRates.StepDebits` | internal/coordination/local/tokenization.go:101-113 | an acquisition takes exactly one request out of the bucket if it grants afresh, else nothing |
| `TokenizationCoordinator.DueIsLapsed` | internal/coordination/local/tokenization.go:138-145 | a deadline left in the queue never releases a later lease of the same operation |
| `TokenizationCoordinator.DropUntied` | internal/coordination/local/tokenization.go:146-157 | a receipt kept long enough has neither a lease in flight nor a deadline queued |
| `TokenizationCoordinator.Coordinator.constructor` | internal/coordination/local/tokenization.go:39-44 | an empty coordinator |
| `TokenizationCoordinator.Coordinator.Acquire` | internal/coordination/local/tokenization.go:48-120 | decides and files exactly as a specification without counters or queues |
| `TokenizationCoordinator.Coordinator.Decide` | internal/coordination/local/tokenization.go:89-113 | client limit, choice of backend and bucket, in this order |
| `TokenizationCoordinator.Coordinator.SelectBackend` | internal/coordination/local/tokenization.go:92-97 | the loop chooses what the specification chooses |
| `TokenizationCoordinator.Coordinator.Start` | internal/coordination/local/tokenization.go:112-118 | files lease, counters and deadline together |
| `TokenizationCoordinator.Coordinator.FileReceipt` | internal/coordination/local/tokenization.go:81-84 | files the receipt with its count and deadline |
| `TokenizationCoordinator.Coordinator.Complete` | internal/coordination/local/tokenization.go:121-137 | ends the operation of exactly this lease, as the specification that `TokenizationAnswers.CompletionsAnswered` is about |
| `TokenizationCoordinator.Coordinator.Cleanup` | internal/coordination/local/tokenization.go:138-163 | exactly the leases that ran out, the receipts kept long enough and the idle buckets are gone |
| `TokenizationCoordinator.Coordinator.ReleaseLapsed` | internal/coordination/local/tokenization.go:139-145 | the first loop of the cleanup |
| `TokenizationCoordinator.Coordinator.DropOutlived` | internal/coordination/local/tokenization.go:146-157 | the second loop of the cleanup |
| `TokenizationCoordinator.Coordinator.DropIdle` | internal/coordination/local/tokenization.go:158-162 | the third loop of the cleanup |
| `TokenizationCoordinator.Coordinator.Release` | internal/coordination/local/tokenization.go:165-180 | a lease leaves with its share of both counters |
| `TokenizationAnswers.CompletionsAnswered` | internal/coordination/local/tokenization.go:121-137 | a completion is answered without error exactly if this very lease was granted and is on record; then nothing is in flight under the operation and no other lease and no bucket is touched; with an error nothing changes |
| `TokenizationAnswers.CompletionGivesRoom` | internal/coordination/local/tokenization.go:121-180 | the counts of the client and of the backend fall by one if the lease was in flight and belongs to them, else they stay |
| `TokenizationAnswers.FlightsAreTheirHistory` | internal/coordination/local/tokenization.go:48-180 | over every run the leases in flight are exactly those granted by an event of the run and since neither completed nor run out |
| `TokenizationAnswers.AnsweredExactly` | internal/coordination/local/tokenization.go:48-120 | what an acquisition answers after any run: a known operation what is on record, else each refusal exactly under its own condition, else a lease on a backend with least load |
| `TokenizationAnswers.ClientRefusalIsEarned` | internal/coordination/local/tokenization.go:89-91 | a request refused for the client limit finds that many uncompleted, unexpired grants of the run to the client |
| `TokenizationAnswers.BackendRefusalIsEarned` | internal/coordination/local/tokenization.go:92-100 | a request refused for the backend limit finds on each of its candidates that many uncompleted, unexpired grants of the run |
| `TokenizationAnswers.BucketFills` | internal/coordination/local/tokenization.go:101-113 | a bucket on record holds what it held and what flowed back since, up to the burst |
| `TokenizationAnswers.NewBucketIsFull` | internal/coordination/local/tokenization.go:101-113 | a client without a bucket has a full one |
| `TokenizationAnswers.RetryIsInTime` | internal/coordination/local/tokenization.go:101-113 | before the time told for a retry the bucket is short of one, after it it is not |
| `TokenizationAnswers.RetryIsTold` | internal/coordination/local/tokenization.go:101-113 | a refusal for the rate names that time |
| `RecoveryBarrier.ReadyMeansDelivered` | internal/monitor/manager.go:526-613 | in every interleaving, whenever coordination is ready every failure ever buffered was settled by the coordinator, taken or refused for a reason, or was too old, or was given up for lack of room; none waits in the backlog, in a replay or on its way |
| `RecoveryBarrier.RunKeepsBarrier` | internal/coordination/recovery.go:67-147 | the invariant that makes the barrier hold: a recovery undisturbed since it began finds backlog and replays empty past its replay step |
| `RecoveryBarrier.RunConserves` | internal/monitor/manager.go:526-613 | every failure buffered is in exactly one place, in order, and the backlog respects its limit |
| `RecoveryBarrier.PermanentIsForever` | internal/coordination/recovery.go:81-147 | a permanent fault is never left |
| `RecoveryBarrier.RecoverySucceeds` | internal/coordination/recovery.go:100-147 | from every idle moment an undisturbed recovery with an answering coordinator ends ready with an empty backlog |
| `RecoveryFates.SettledIsEarned` | internal/monitor/manager.go:541-553 | over every run a failure counted as settled was delivered, less than a day old, in a call the coordinator answered |
| `RecoveryFates.ExpiredIsEarned` | internal/monitor/manager.go:541-553 | a failure given up as old was a day old or more when its turn came |
| `RecoveryFates.OverflowIsEarned` | internal/monitor/manager.go:554-613 | a failure given up for lack of room was one of the oldest when there were more than the backlog holds |
| `RecoveryFates.WaitingWasReported` | internal/monitor/manager.go:526-613 | a failure that waits, in the backlog or in a replay, is one that was handed over, with the time it was reported |
| `RecoveryFates.BufferingWasReported` | internal/monitor/manager.go:596-613 | so is the one being buffered |
| `RecoveryFates.PermanentIsEarned` | internal/coordination/recovery.go:81-147 | over every run coordination is broken for good exactly if a permanent fault was reported or met by a recovery in one of its steps |
| `RecoveryManager.Manager.Degrade` | internal/coordination/recovery.go:67-79 | the fields move as the step of the machine |
| `RecoveryManager.Manager.BreakForGood` | internal/coordination/recovery.go:81-89 | the fields move as the step of the machine |
| `RecoveryManager.Manager.Begin` | internal/coordination/recovery.go:104-110 | reads the failure count a recovery will be judged by, or refuses |
| `RecoveryManager.Manager.Conclude` | internal/coordination/recovery.go:133-147 | ready if and only if no failure was reported since the recovery began |
| `RecoveryManager.Backlog.Add` | internal/monitor/manager.go:605-610 | the newest failures up to the limit are kept, in order, and the others counted |
| `RecoveryManager.Backlog.PutBack` | internal/monitor/manager.go:554-562 | what a replay could not deliver goes before what came meanwhile, the oldest giving way |
| `RecoveryManager.DeliverPending` | internal/monitor/manager.go:541-553 | the loop in place keeps exactly the failures young enough that were not accepted, in order |
| `RecoveryManager.LoopIsDeliveries` | internal/monitor/manager.go:544-553 | the loop leaves what the interleaved deliveries of the machine leave |
| `LeaseDelivery.RunConserves` | internal/coordination/lease_manager.go:83-324 | in every run each completion handed over is in exactly one of channel, batch, backlog, acknowledged and dropped, as often as it was handed over, and the backlog respects its cap |
| `LeaseDelivery.NothingIsForgotten` | internal/coordination/lease_manager.go:135-182 | once the drain is over every completion was acknowledged or counted as dropped |
| `LeaseDelivery.RetryBalance` | internal/coordination/lease_manager.go:257-283 | a retry drops nothing: what came out of the backlog fits back in |
| `LeaseDelivery.AcknowledgedMeansCarriedOut` | internal/coordination/lease_manager.go:285-306 | with a coordinator that confirms only committed prefixes no completion is acknowledged that was not carried out |
| `LeaseSettlement.ChargedAtMostOnce` | internal/coordination/lease_manager.go:238-324 | whatever prefixes of whatever batches were committed and retried, and whatever other admission operations interleave, two calls that release and charge one lease have a new admission under its identifier between them |
| `LeaseSettlement.AcknowledgedMeansReleased` | internal/coordination/lease_manager.go:285-306 | an acknowledged completion was carried out in a call on record, and unless the identifier is admitted anew its operation is closed and its lease gone |
| `LeaseTracking.TrackedUntilSettled` | internal/coordination/lease_manager.go:77-341 | in every run a lease is tracked from its registration until, and only until, a completion of it is acknowledged or dropped, or a renewal reports it lost |
| `LeaseTracking.LeavesWhenClosed` | internal/coordination/lease_manager.go:285-341 | a step takes a lease off the tracked ones if and only if it acknowledges or drops a completion of it |
| `LeaseTracking.HandleCompletesOnce` | internal/coordination/lease_manager.go:83-96 | the second and every later completion of one handle changes nothing |
| `LeaseTracking.WatchedDelivers` | internal/coordination/lease_manager.go:77-341 | tracking, handles and renewals leave the delivery exactly the run the theorems on delivery are about |
| `LeaseManager.Handle.Complete` | internal/coordination/lease_manager.go:83-96 | the first call hands the completion over as the machine does, a full channel dropping it and its lease; a later one does nothing |
| `LeaseManager.Manager.Enqueue` | internal/coordination/lease_manager.go:86-95 | hands over without waiting: a full channel drops the item and exactly its lease is no longer tracked |
| `LeaseManager.Manager.Drain` | internal/coordination/lease_manager.go:135-182 | the shutdown empties channel and backlog, calls until all is settled or the answers run out, stops tracking all of it, and succeeds if and only if nothing was given up |
| `LeaseManager.Manager.Collect` | internal/coordination/lease_manager.go:239-247 | takes what the channel holds in order, up to 64 items |
| `LeaseManager.Manager.SendBatch` | internal/coordination/lease_manager.go:238-255 | one call with a batch moves the fields as the step of the machine, and exactly the leases it settles or drops are no longer tracked |
| `LeaseManager.Manager.Remaining` | internal/coordination/lease_manager.go:285-306 | what an answer leaves open is the rest after the confirmed prefix, whose leases are no longer tracked |
| `LeaseManager.Manager.Retry` | internal/coordination/lease_manager.go:308-324 | queues a retry whole, or drops it whole, counts it and stops tracking its leases |
| `LeaseManager.Manager.TakeDue` | internal/coordination/lease_manager.go:258-269 | takes out the retries whose time has come and leaves the others, each in order; `LeaseRetries` says which these are |
| `LeaseManager.Manager.RetryOne` | internal/coordination/lease_manager.go:270-282 | one retry moves the fields as the step of the machine, and exactly the leases it settles are no longer tracked |
| `LeaseManager.Manager.RetryPending` | internal/coordination/lease_manager.go:257-283 | all that is due is retried, nothing dropped on the way, and exactly the settled leases are no longer tracked |
| `LeaseManager.Manager.ApplyRenewals` | internal/coordination/lease_manager.go:204-237 | lost leases are no longer tracked, the others as last renewed, and one completed meanwhile does not come back |
| `LeaseRetries.TakenExactly` | internal/coordination/lease_manager.go:258-269 | the retries a round takes are those of the backlog whose time has come, each once and in order |
| `LeaseRetries.KeptExactly` | internal/coordination/lease_manager.go:258-269 | the others stay, each once and in order |
| `LeaseRetries.NoRetryIsEarly` | internal/coordination/lease_manager.go:257-283 | over every run a retry being called was taken by a round at or after its time |
| `LeaseRetries.RetriesWait` | internal/coordination/lease_manager.go:238-324 | over every run what waits for a retry was left open by a call, and its time is the backoff after that call, doubled up to its bound with each retry |
| `LeaseRetries.ConfirmedExactly` | internal/coordination/lease_manager.go:285-306 | an answer without error confirms all, one with an error the results it carries if they are about the first items in order, else nothing |
| `LeaseRetries.AcceptedBatch` | internal/coordination/lease_manager.go:238-255 | a batch that is accepted is acknowledged whole and nothing of it waits |
| `LeaseRetries.TickSettles` | internal/coordination/lease_manager.go:257-283 | a round whose calls are accepted acknowledges all that was due and leaves exactly the rest |
| `LeaseRetries.BacklogEmpties` | internal/coordination/lease_manager.go:257-283 | from any backlog, rounds at or after the time of each retry, with calls accepted, acknowledge all of it and leave nothing |
| `LeaseRetries.FirstCallsInOrder` | internal/coordination/lease_manager.go:183-255 | over every run completions are first called in the order in which they were handed over, none left out |
| `LeaseRetries.DrainGoesOn` | internal/coordination/lease_manager.go:135-151 | the shutdown takes what is left of them in that order, then the backlog |
| `Recorder.QueueingNeverWaits` | internal/analytics/recorder.go:205-242 | in every interleaving a completion that is about to queue its record finds room and an open queue, so the panic is unreachable |
| `Recorder.ReleasingNeverWaits` | internal/analytics/recorder.go:132-318 | whoever gives a permit back finds one in the channel |
| `Recorder.NothingIsLost` | internal/analytics/recorder.go:246-318 | flushed batches, the open batch and the queue make up the records in the order of queueing; once the writer is done all were flushed and no reservation holds a permit |
| `Recorder.EndsAtMostOnce` | internal/analytics/recorder.go:166-242 | of all releases and completions of a reservation at most one takes effect |
| `Recorder.RunKeepsInv` | internal/analytics/recorder.go:132-318 | each permit in the channel stands for exactly one holder and each lifecycle counted is in exactly one stage |
| `RecorderHistory.ReservationsAreTheirHistory` | internal/analytics/recorder.go:132-242 | over every run a reservation is held exactly if it was registered and neither released nor completed since |
| `RecorderHistory.PendingIsStaged` | internal/analytics/recorder.go:187-203 | over every run the record pending for a reservation that is held is the one staged last |
| `RecorderHistory.CompletionsAreQueued` | internal/analytics/recorder.go:205-242 | the completion of a reservation with a staged record queues that record or is about to |
| `RecorderHistory.CompletionsAreWritten` | internal/analytics/recorder.go:205-318 | once the writer is done the record of every completed reservation was written |
| `RecorderHistory.PermitExactlyIfRoom` | internal/analytics/recorder.go:132-165 | after any run a caller is given a permit exactly if fewer are out than there are |
| `RecorderHistory.WriterCatchesUp` | internal/analytics/recorder.go:279-318 | from any moment before it is done the writer alone can write out all that was queued |
| `PeerReservation.RollbacksAreOrderly` | internal/observability/log.go:209-341 | however stage, complete and rollback interleave and whatever panics, peers are rolled back in reverse order, each at most once, none whose completion returned |
| `PeerReservation.EveryPeerIsResolved` | internal/observability/log.go:233-341 | once completion or rollback won and ran its course every peer completed or was rolled back, never both |
| `PeerReservation.FirstWins` | internal/observability/log.go:262-302 | in every run, once a completion or a rollback took effect no later start of either changes anything |
| `PeerReservation.CompletionFollowsStaging` | internal/observability/log.go:209-286 | while neither began, a completion takes effect exactly if nothing was ever staged, or the staging is over and no observer panicked in it |
| `PeerReservation.StagingIsItsHistory` | internal/observability/log.go:209-231 | the flags of staging say what the events say: when it first began, whether it ended, and how |
| `PeerReservation.RunKeepsInv` | internal/observability/log.go:209-341 | the per-peer states agree with what was completed and what is still to be rolled back |
| `PeerReservation.ReserveAll` | internal/observability/log.go:169-207 | all peers are reserved, or those reserved before the first refusal are rolled back, the last one first |
| `PeerReservation.Reservation.TakeRollbackActions` | internal/observability/log.go:310-320 | takes the rollbacks of exactly the peers still open from `start` on, in reverse |
| `PeerReservation.Reservation.CompleteAll` | internal/observability/log.go:233-260 | peers before the first panic complete, it and those after it are rolled back in reverse |
| `PoolHysteresis.ChangesAreEarned` | internal/pressure/state.go:33-66 | every change not involving unavailability ends an unbroken run of votes for the new state at least as long as the window, and recovery goes down one rank |
| `PoolHysteresis.LastingVotesWin` | internal/pressure/state.go:33-66 | conversely, votes for one state that last the window bring the pool there |
| `PoolHysteresis.CandidateMeaning` | internal/pressure/state.go:33-66 | a candidate stands for an unbroken run of votes since it was set |
| `PoolHysteresis.ConstantPressureSettles` | internal/pressure/state.go:33-104 | under constant pressure the pool moves only towards the state it settles in, from whatever state and candidate |
| `PoolHysteresis.LastingPressureMoves` | internal/pressure/state.go:33-104 | one stretch of constant pressure that outlasts both windows moves the pool, unless it is where it settles |
| `PoolHysteresis.StretchesApproach` | internal/pressure/state.go:33-104 | each such stretch brings the pool at least one rank nearer to where it settles |
| `PoolHysteresis.ConstantPressureArrives` | internal/pressure/state.go:33-104 | after any history, three such stretches bring the pool to the state it settles in, a fixed point, and constant pressure keeps it there |
| `PoolHysteresis.NoOscillation` | internal/pressure/state.go:72-104 | with ordered thresholds one pressure never votes both upwards and downwards in turn |
| `PoolHysteresis.SettledIsFixed` | internal/pressure/state.go:72-104 | the state reached is a fixed point |
| `PoolHysteresis.UnorderedThresholdsOscillate` | internal/config/config.go:357 | without the order the configuration demands one pressure can drive the pool back and forth |
| `PoolHysteresis.PoolMachine.Observe` | internal/pressure/state.go:33-66 | one observation moves the fields as the specification |
| `PoolHysteresis.PoolMachine.Target` | internal/pressure/state.go:85-104 | the state voted for and the window it needs |
| `PoolHysteresis.VoteExactly` | internal/pressure/state.go:72-104 | with ordered thresholds an observation votes for the highest state it can enter above the present one, else for the present one while it can keep it, else for the one below |
| `PoolHysteresis.AvailabilityIsImmediate` | internal/pressure/state.go:33-66 | the last observation that counts tells whether the pool is available, and a pool available again is at once in the highest state the pressure can enter |
| `PgAdmissionRuns.CleanupIsInvisible` | internal/coordination/postgres/cleanup.go:94-149 | cleanups of expired leases, any number anywhere in a run, change no answer to any acquisition, renewal or completion and no set of live leases, while receipts are kept |
| `PgAdmissionRuns.ExpireUnseen` | internal/coordination/postgres/cleanup.go:94-149 | one cleanup leaves everything a later transaction can see as it was |
| `PgAdmissionRuns.AdmittedAtMostOnce` | internal/coordination/postgres/cleanup.go:53-92 | in any run of any replicas, receipt cleanups included, a request is admitted and debited at most once |
| `PgAdmissionRuns.CompletedAtMostOnce` | internal/coordination/postgres/admission.go:516-609 | in any run of any replicas, receipt cleanups included, an operation is completed and its usage charged at most once |
| `PgAdmissionRuns.ReserveHolds` | internal/coordination/postgres/admission.go:188-248 | at every moment the live leases of a pool stay within its limit and the lower classes leave its reserve free |
| `PgAdmissionRuns.HighRefusedOnlyWhenReserveUsed` | internal/coordination/postgres/admission.go:188-248 | after any run a High or Critical client is refused at pool scope only when the reserve is used, never on account of the reserve |
| `PgAdmissionRuns.RenewRevivesNothing` | internal/coordination/postgres/admission.go:387-498 | a renewal leaves exactly the live leases live |
| `PgRates.RateBound` | internal/coordination/postgres/admission.go:331-357 | from any moment on, while a client's policy stands, what is taken out of its request or token bucket and what the bucket holds are together at most what was in it and what flowed back |
| `PgRates.StepSpends` | internal/coordination/postgres/admission.go:181-248 | a transaction takes exactly one request for a fresh admission, exactly the reported tokens for a completion, and nothing else |
| `PgRates.SeedIsFull` | internal/coordination/postgres/admission.go:181-186 | seeding a missing row adds nothing to the bucket |
| `PgBatches.CompleteBatch` | internal/coordination/postgres/admission.go:500-515 | whatever fails, only items carried out are confirmed, in order, and the tables show exactly the items carried out |
| `PgBatches.RenewBatches` | internal/coordination/postgres/admission.go:368-385 | the results are those of the transactions known to be committed, the tables show those and at most the one whose answer was lost |
| `PgBatches.RenewPartsTouch` | internal/coordination/postgres/admission.go:368-385 | the results are about the first leases, in order, and no lease not asked for is touched |
| `PgBatches.AnswersAreTrue` | internal/coordination/postgres/admission.go:387-498 | a lease reported renewed is held for at least the time reported, one reported lost was not held |
| `PgCircuits.RefreshRefinesReconcile` | internal/coordination/postgres/circuit_refresh.go:14-102 | on tables that meet the two conditions below the bulk refresh leaves circuits, probes and failures exactly as reconciling each backend in turn at the same instant, in whatever order |
| `PgCircuits.EachIsLocal` | internal/coordination/postgres/circuit.go:249-287 | reconciling backends in turn is reconciling each alone, and touches no other |
| `PgCircuits.ReconcileKeepsSound` | internal/coordination/postgres/circuit.go:517-573 | reconciling keeps the two conditions the refinement needs |
| `PgCircuits.EachKeepsSound` | internal/coordination/postgres/circuit.go:249-287 | so does reconciling any list of backends |
| `PgCircuitRuns.RunKeepsInv` | internal/coordination/postgres/circuit.go:98-931 | over every run of the transactions of all replicas, of the configuration and of cleanups, every failure carries the revision of its circuit, no probe is of a later generation than its circuit, both are filed under their own backend, and no half-open circuit has more open probes than it may; when circuits open and close is stated in `PgCircuitOutcomes` |
| `PgCircuitRuns.RefreshIsReconciling` | internal/coordination/postgres/circuit_refresh.go:14-102 | so in every reachable state the bulk refresh is reconciling each backend in turn |
| `PgCircuitRuns.ProbesAreBounded` | internal/coordination/postgres/circuit.go:323-429 | in every reachable state a half-open circuit has at most the allowed number of open probes, whichever replicas took them |
| `PgCircuitRuns.ExpiryNeverFails` | internal/coordination/postgres/circuit.go:536-573 | in every reachable state the failure of an overdue probe can be recorded, so settling it never fails a transaction |
| `PgCircuits.StaleRevisionsDiffer` | internal/coordination/postgres/circuit_refresh.go:14-102 | with failures of an earlier revision on record the two forms differ |
| `PgCircuits.SharedIdentifiersDiffer` | internal/coordination/postgres/circuit_refresh.go:14-102 | with a failure on record under the identifier of another backend's probe the two forms differ |
| `PgAdmissionAnswers.ClientLimitHolds` | internal/coordination/postgres/admission.go:188-248 | over every run whose requests of a client carry an effective limit of at most L the client never has more than L live leases |
| `PgAdmissionAnswers.AnsweredExactly` | internal/coordination/postgres/admission.go:130-310 | what an acquisition answers after any run: a known request what is on record, a lease that ran out being lost, else each refusal exactly under its own flat condition and admission exactly if none holds |
| `PgAdmissionAnswers.FileJustified` | internal/coordination/postgres/admission.go:188-248 | each answer to a new request is given exactly under its own condition on configuration, live leases and buckets |
| `PgAdmissionAnswers.LeasesAreTheirHistory` | internal/coordination/postgres/admission.go:130-609 | over every run with a clock that never goes back the live leases are exactly those a transaction admitted and none since completed or let run out, each with the expiry its last renewal gave it |
| `PgAdmissionAnswers.LongestMeaning` | internal/coordination/postgres/admission.go:387-498 | of the renewals of one lease in a batch the longest one that names it rightly counts |
| `PgAdmissionAnswers.CompletionsAnswered` | internal/coordination/postgres/admission.go:516-609 | a completion answers unknown, never admitted, released, lost or what was answered before, each exactly when it is so; released exactly if the lease still runs |
| `PgAdmissionAnswers.CompletionsAreRemembered` | internal/coordination/postgres/admission.go:516-609 | what is on record of a completion is what was answered when it took effect |
| `PgAdmissionAnswers.DecisionsAreRemembered` | internal/coordination/postgres/admission.go:130-324 | what is on record of a request is what was answered when it first came |
| `PgAdmissionAnswers.BucketFills` | internal/coordination/postgres/admission.go:331-357 | a bucket on record holds what it held and what flowed back since, up to its capacity |
| `PgAdmissionAnswers.NewBucketIsFull` | internal/coordination/postgres/admission.go:331-357 | a bucket without a row, or with one of another policy, is full |
| `PgAdmissionAnswers.RetryIsTold` | internal/coordination/postgres/admission.go:331-357 | before the time told with a refusal for a rate the bucket is short of one, after it it is not |
| `PgAdmissionAnswers.RecordsAreKept` | internal/coordination/postgres/cleanup.go:53-92 | a record stays until a cleanup takes it out after its time, which is set when its operation ends |
| `PgAdmissionAnswers.NothingHangs` | internal/coordination/postgres/cleanup.go:53-149 | over every run a record has its lease or the time it is kept until, so that cleanups can take out all that is over |
| `PgAdmissionAnswers.FirstMarkStays` | internal/coordination/postgres/cleanup.go:94-149 | an operation stays marked with the first time it was found expired |
| `PgCircuitOutcomes.FailureOpensExactly` | internal/coordination/postgres/circuit.go:749-793 | in every reachable state a fresh failure in the revision, generation and window of a closed circuit opens it in the next generation, dated by the latest failure, if and only if the failures on record for the revision within the window, this one included, reach the threshold; it is recorded either way |
| `PgCircuitOutcomes.OtherFailuresDoNothing` | internal/coordination/postgres/circuit.go:736-793 | a failure of another revision or generation, or out of the window, changes neither circuits nor failures nor probes |
| `PgCircuitOutcomes.OnlyFailuresOpen` | internal/coordination/postgres/circuit.go:98-931 | over every run a closed circuit leaves that state only by a completion reporting such a failure |
| `PgCircuitOutcomes.StepTurns` | internal/coordination/postgres/circuit.go:98-931 | what any transaction can do to a circuit: each change of state has its own cause |
| `PgCircuitOutcomes.FailedProbeReopens` | internal/coordination/postgres/circuit.go:666-726 | in every reachable state a probe of the present generation reported failed reopens the circuit, and no probe of the generation stays open |
| `PgCircuitOutcomes.ClosesExactlyWhen` | internal/coordination/postgres/circuit.go:666-726 | in every reachable state a report other than a failure closes the circuit exactly if no other probe is open and it or an earlier report of the generation was a success |
| `PgCircuitOutcomes.SuccessesAreMarked` | internal/coordination/postgres/circuit.go:666-726 | over every run a half-open circuit has a success on record exactly if one was reported in its generation |
| `PgCircuitOutcomes.GoodReport` | internal/coordination/postgres/circuit.go:666-726 | what a report other than a failure does to circuits, failures and probes |
| `PgCircuitOutcomes.BadReport` | internal/coordination/postgres/circuit.go:666-726 | what a failed probe does to circuits, failures and probes: the others of its generation are superseded |
| `PgCircuitOutcomes.LateReportIsNoted` | internal/coordination/postgres/circuit.go:666-726 | a report about an earlier generation is noted with its probe and changes nothing else |
| `PgCircuitOutcomes.ExpiredProbeReopens` | internal/coordination/postgres/circuit.go:536-573 | in every reachable state a half-open circuit with an overdue probe is reopened as by the failure, at its expiry, of the one that ran out first, and the other probes are settled |
| `PgCircuitOutcomes.CooledDownIsHalfOpened` | internal/coordination/postgres/circuit.go:536-573 | an open circuit whose cooldown is over is half-opened in the next generation |
| `PgCircuitOutcomes.OpenForItsCooldown` | internal/coordination/postgres/circuit.go:323-573 | over every run, as long as its identity stays, an open circuit is unchanged by whatever happens before its cooldown is over |
| `PgCircuitOutcomes.OpenStays` | internal/coordination/postgres/circuit.go:323-573 | no transaction before the end of the cooldown moves an open circuit |
| `PgCircuitAnswers.AcquisitionsAnswered` | internal/coordination/postgres/circuit.go:323-429 | what an acquisition answers in every reachable state: a known probe what is on record, else each refusal exactly under its own condition, else a permit, a probe with its expiry if the circuit is half-open |
| `PgCircuitAnswers.RenewedProbe` | internal/coordination/postgres/circuit.go:836-931 | a renewal of a batch prolongs exactly the probes still held, from now, by the time the last permit that names them asks for |
| `PgCircuitAnswers.AcceptedFailureIsFiled` | internal/coordination/postgres/circuit.go:736-793 | an accepted failure leaves its receipt, kept a day |
| `PgCircuitAnswers.FiledFailureRepeats` | internal/coordination/postgres/circuit.go:737-745 | a failure with a receipt is accepted again if it is the same and changes nothing, and fails if it is not |
| `PgCircuitAnswers.ReceiptsAreKept` | internal/coordination/postgres/cleanup.go:157-197 | a receipt stays unchanged until a cleanup takes it out after its time |
| `PgCircuitAnswers.ReportedProbeRepeats` | internal/coordination/postgres/circuit.go:656-665 | a report made again about a probe that ended is accepted if it agrees with the record and changes nothing, and fails if it does not |
| `PgCircuitAnswers.SettledProbesStay` | internal/coordination/postgres/cleanup.go:157-197 | a probe that ended stays on record unchanged until a cleanup takes it out after its time |
| `PgCircuitAnswers.NewIdentityStartsAfresh` | internal/store/postgres/configuration.go:257-355 | a backend with a new revision has a closed circuit without failures and no open probe; one of the same revision keeps its circuit |

## Left out

- HTTP handling, proxying, the admin interface, metrics, logging and configuration parsing: they would add only input and output.
- SQL text, drivers, migrations and notifications: only the effect of the named transactions on the tables is modelled, and that the scope locks make each of them atomic is taken for granted, as are lock order and freedom from deadlock.
- Fingerprints are equality of requests: collisions of SHA-256 are not modelled.
- Rounding of floating-point balances, and the 64-bit width of integers and generations.
- Recovery steps that are not configured: every step, the replay included, is taken to be present.
- Cancelled contexts that end a call before it takes effect; the call then changes nothing.
- Completions handed over after the shutdown drain of the lease manager began, which the source does not promise to deliver.
- Decoding of a captured usage object and of the data lines of a server-sent event: `UsageReader` takes the judgement of an object as a parameter, and `SseEvents` stops at the event.
- Copies of decisions: a decision is a value, so that a caller cannot change a stored one is not a theorem here.
- Recorder: the maps and channels are updated by the events of a state machine, not by the methods of a class; the check made before waiting for a permit is covered by the one made after it; cleanup of old records and the health flags are absent.
- Admission and circuits over PostgreSQL are functions on tables, so locking row by row inside a transaction is not modelled.
- The PostgreSQL form of tokenization.
- PgCircuitRuns.RunKeepsInv: speaks of runs in which an attempt identifier is used with one backend, as the identifiers the gateway draws are; the read-only short cuts for closed circuits, the history table of failures, which is written and never read, and the answers to renewals are not modelled.
- PgCircuits.RefreshRefinesReconcile: has the two conditions on the tables as preconditions; `PgCircuitRuns.RefreshIsReconciling` is the same for every reachable state.
- CircuitCoordinator.Coordinator.Acquire: the coordinator keeps the breakers as values of the specification, by serial number, and not as objects of class `Breaker.Breaker`, whose methods are proved against the same values on their own.
- PgRates.RateBound: speaks of stretches during which the client's policy row does not change; a new policy revision refills the bucket.
- TokenizationRates.RateBound: the policy is fixed for the life of a coordinator, as in the source.
- AdmissionRuns.AdmittedAtMostOnce: a receipt evicted for lack of room may let a repetition in, as in the source; the conclusion names the eviction.
- RecoveryBarrier.RecoverySucceeds: gives one undisturbed run that ends ready; under endless new failures none need.
- RecoveryManager.Manager.Begin: covers the fields of the recovery manager; the calls of the recovery steps themselves are events of the machine.
- LeaseManager.Manager.RetryPending: the answers of the coordinator to the calls of one round are given beforehand.
