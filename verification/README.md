# CloudOps monitor: a verified model

The project models three parts of the CloudOps monitoring platform and proves what they guarantee.

1. **CPU alert convergence.** Every metrics request evaluates one sample against a CPU threshold. An
   evaluation is a sequence of atomic store calls (increment, try the cooldown, read, reset), a
   notification and a save. Requests run in their own goroutines and the memory store locks one call
   at a time, so evaluations interleave. `Interleaving` is the state machine of all of them,
   `Evaluation` the same logic for one evaluation without interference, store errors included, and
   `Service.Server` the program's own form.
2. **The ingest pipeline.** `Pipeline` is one state machine of clients, publish and process handlers,
   the topic, the worker and the evaluations, in Direct and in Kafka mode, with the counters of both
   services. A forwarded request may be lost, may reach the server with its answer lost, or may be
   answered; a publish may fail before or after the topic took the message. `Service` holds server,
   publisher and worker as objects, `Deployment` says what each call does, and `Realisation` shows
   every such call to be a stretch of `Pipeline` steps.
3. **The operator.** `Operator` is the reconcile loop call by call: each call may be answered, fail,
   or take effect with its answer lost; the spec may be edited and the operator restarted between any
   two calls. `OperatorPass.Cluster` is the program's own form of one pass.

## What holds when

Under **every interleaving** (`Safety`, `Charges`, `Reduction.MachinesCommute`): breaches are conserved,
cooldown grants are the greedy and hence a maximum choice among the attempts, grants are a cooldown
apart and rate bounded, every P0 is paid for by its own evaluation's increment, and one breach run is
reported as recovered at most as often as evaluations were at once between read and reset.

Also under every interleaving, and exactly: once a machine's evaluations are over, any stretch of the
run has as many RECOVERY rows as evaluations that read a non-empty run in it (`EveryReaderReports`). A
run that is open between two positions has exactly one RECOVERY carrying its length **if and only if**
one evaluation alone read it and no increment followed that read (`ReportedOnceIff`). All increments are
counted or reported **if and only if** the values read add up to the values deleted
(`ReadingsAreReported`).

When the **evaluations of one machine do not overlap** (`Disjoint`): the machine's rows and store
entries are those of running its own samples alone and in order (`SequentialReduction`), they are
exactly the rows the history of its samples requires (`InterleavedHistory`), every ended run has
exactly one RECOVERY, and every deleted breach is reported. `Disjoint` is sufficient for the last two,
not necessary; the conditions above are exact. With overlap both fail, in both directions:
`Overlap.OverlapMultipliesRecoveries` gives, for every n, a run in which one breach is reported as
recovered n times, and `Overlap.OverlapLosesRuns` gives, for every configuration, a run in which an
evaluation with a stale empty read deletes a whole run that has raised its P0, and no RECOVERY follows.

When **store calls fail**, with or without effect (one evaluation after the other): two P0s of a machine
stay a cooldown apart (`FaultyP0sAreApart`), and each P0 still needs the trigger count of increments that
took effect since the last reset that did (`FaultyRowsCountTheirRun`).

**Kafka mode**: the topic has one partition and there is one worker; both are built into `Pipeline`.
They are hypotheses and not consequences of the message key, because the writer sets a key but no
balancer. `KafkaRefinesDirect`, `EvaluatedAtMostOnce` and `PublishedArrivesUnchanged` need nothing else.
`KafkaIsSequentialOnSubsequence` also assumes that a request for a machine is delivered only when no
handler is busy with that machine (`HandlersDisjoint`). That follows when the worker never gives up on a
handler that is still busy with the machine (`Delivery.PatienceIsDisjoint`); without it a timeout can
make two evaluations of one machine begin in the wrong order (`Delivery.TimeoutReorders`).

**The objects and the concurrent machine.** What server, publisher and worker hold after any calls with
a working store and clocks that do not run back is a state of a `Pipeline` run, rows and all counters
included (`MetricsIsRun`, `RoundsAreRun`). The ensures of `Service.Worker.Run` and
`Service.Server.HandleMetrics` say so, and the books of the deployment close (`Ledger.BooksClose`).

**Redis and memory** answer alike, whichever EXPIREs fail, exactly as long as no open run is read or
extended an hour or more after its last working EXPIRE (`RedisSimulatesMemory`, both directions); a late
reset is harmless. Both stores are given the same expiry boundary: a deadline that is reached is over.

**Names, fields and units** are part of the statements. JSON keys (`AdmittedIff`, `PublishedMessage`,
`ForwardedIff`), the posted text (`PostedTells`), the fields of a row and the length of the cooldown
(`HistorySpecification`, `ServedInPlainTerms`, `NoSecondP0`), the series and labels of the counters
(`SeriesCountSteps`) and the managed objects (`ParsedIff`, `ReadyMeansReconciled`) are spelled out there,
without the definitions the program's methods share.

**Where the code does less than one might expect.** Recovery notifications are not counted, and a
RECOVERY row is marked sent whatever the notifier answered. Labels are not escaped in the exposition
text, so it is read back exactly when machine id and IP hold no quote, backslash or line feed
(`DecodesIffClean`), and different machines can render alike otherwise (`QuotesCollide`). Seconds are
turned into milliseconds in 64-bit arithmetic, which is exact if and only if the product fits; samples
with clean labels render alike exactly when labels and printed values agree and the timestamps are a
multiple of 2^61 seconds apart (`SamplesCollideIff`), which two admitted samples can be
(`OverflowCollides`).

Times are integers in nanoseconds, CPU values and thresholds are reals, counters are unbounded. Every
reading from outside (clocks, answers of store, notifier, databases, transport, API server) is a
parameter or a field of an event.

## Model

| member | source | states |
|---|---|---|
| AlertStore.MemoryAlertStateStore.IncrementCPUBreach | alert_store.go:93-98 | one locked step adds one to the machine's counter and returns the new value |
| AlertStore.MemoryAlertStateStore.GetCPUBreachCount | alert_store.go:100-104 | reads the counter, zero when absent |
| AlertStore.MemoryAlertStateStore.ResetCPUBreach | alert_store.go:106-111 | clears the counter and leaves cooldowns alone |
| AlertStore.MemoryAlertStateStore.TryAcquireCooldown | alert_store.go:113-123 | grants exactly when no deadline lies in the future, and then sets the deadline to now plus the time-to-live |
| RedisStore.RedisAlertStateStore.IncrementCPUBreach | alert_store.go:40-48 | INCR then EXPIRE; an INCR error ends the call and may leave a key without expiry, an EXPIRE error is ignored |
| RedisStore.RedisAlertStateStore.GetCPUBreachCount | alert_store.go:50-64 | an absent or expired key reads as zero, an error is reported |
| RedisStore.RedisAlertStateStore.ResetCPUBreach | alert_store.go:66-69 | deletes the counter key |
| RedisStore.RedisAlertStateStore.TryAcquireCooldown | alert_store.go:71-78 | sets the cooldown key only when it is not alive, and answers whether it did; what the client library makes of a time-to-live of zero or below is a parameter |
| RedisStore.KeysNeverCollide | alert_store.go:41-72 | count and cooldown keys never collide, for any machine ids, and determine the machine |
| RedisStore.SimulationHolds | alert_store.go:40-78 | the key space holds exactly the memory store's counters and deadlines while operations are timely, failed EXPIREs included |
| RedisStore.RedisSimulatesMemory | alert_store.go:40-123 | over any timed operation sequence, whichever EXPIREs fail, both stores answer alike if and only if no open run is read or extended an hour after its last working EXPIRE |
| RedisStore.RedisNeverOvercounts | alert_store.go:40-48 | with arbitrary gaps and failing EXPIREs Redis never answers a larger count than memory, and cooldown answers agree |
| Evaluation.StoreHoldsHistory | main.go:385-470 | after a sequential run the counter is the trailing breach run and the deadline is the latest P0 plus the cooldown |
| Evaluation.HistorySpecification | main.go:385-508 | a sequential run issues P0 at exactly the samples above the threshold whose run has reached the trigger and that come cooldown seconds after the previous P0, RECOVERY at exactly the clear samples that end a run; every field of the row is spelled out |
| Evaluation.FaultsAreSilentAndLocal | main.go:387-470 | a reported store error issues no row, and no evaluation touches another machine's counter or cooldown |
| Evaluation.CountIsAppliedRun | main.go:387-467 | in runs with store errors a counter is the number of increments that took effect since the latest reset that did |
| Evaluation.FaultyP0sAreApart | main.go:399-407 | whatever store calls of whatever machines fail, with or without effect, and whatever the clocks read, two P0s of one machine are at least a cooldown of zero or more apart |
| Evaluation.NoSecondP0 | main.go:399-407 | while the clock reads less than cooldownSec * 1_000_000_000 after a P0 of a machine, no second P0 of it is issued, whatever store calls fail |
| Evaluation.FaultyRowsCountTheirRun | main.go:386-508 | with store errors each P0 has at least trigger-count increments that took effect since the latest reset that did, its own among them, and a RECOVERY carries their number |
| Sustained.P0sAreGreedy | main.go:399-407 | the P0s of any history are the greedy choice among its cooldown attempts |
| Sustained.UnbrokenTries | main.go:385-401 | while a breach lasts every sample from the trigger on tries the cooldown, whatever came before the breach |
| Sustained.SustainedCadence | main.go:399-407 | after any history, while a machine stays in breach it is alerted at least a cooldown and less than a cooldown plus the sample gap after its previous P0 of that breach |
| Interleaving.CounterIsOpenRun | alert_store.go:93-111 | in every reachable state a counter is the number of increments since the last reset |
| Safety.BreachesAreConserved | alert_store.go:93-111 | under every interleaving increments equal the counter plus the values deleted by resets |
| Safety.AttemptsAscend | alert_store.go:113-116 | attempts of one machine carry non-decreasing times, because the clock is read inside the lock |
| Safety.GrantsAreGreedy | alert_store.go:113-123 | under every interleaving the grants are the greedy choice among the attempts and the store holds the latest one's deadline |
| Safety.GrantsAreMaximum | alert_store.go:113-123 | no set of attempts pairwise a cooldown apart is larger than the set of grants |
| Safety.RefusalsAreCovered | alert_store.go:117-120 | a refused attempt lies less than one cooldown after an earlier grant |
| Safety.CooldownSafety | main.go:399-407 | two P0 grants of one machine are at least cooldownSec * 1_000_000_000 apart, under every interleaving |
| Safety.GrantRate | main.go:399-407 | a window of length w holds at most w/cooldown + 1 grants |
| Safety.ReplicaRate | main.go:360-373 | replicas that each fell back to memory give at most their number times that bound |
| Safety.Cadence | main.go:399-407 | with attempts at most a gap apart, successive grants are at least a cooldown and less than cooldown plus gap apart, under every interleaving |
| Cooldown.GreedyIsMaximum | alert_store.go:113-123 | the exchange argument: no admissible choice is larger than the greedy one, and an equally large one reaches at least as far |
| Cooldown.GrantedIsSpaced | alert_store.go:113-123 | greedy grants are themselves a cooldown apart |
| Cooldown.WindowBound | alert_store.go:113-123 | a spaced sequence has at most w/c + 1 members in a window of length w |
| Charges.StagesAscend | main.go:375-509 | each evaluation performs each of its steps at most once and in order |
| Charges.EveryP0IsJustified | main.go:386-407 | under every interleaving each P0 row has an increment of its own evaluation that closed at least trigger-count increments with no reset between, and a grant |
| Charges.ChargesAreOneToOne | main.go:386-407 | two P0 rows are never charged to the same increment or grant |
| Charges.DuplicateRecoveryBound | main.go:459-472 | the RECOVERY rows of one breach run are at most the evaluations between read and reset when the run ends, hence at most the peak number |
| Charges.EveryReaderReports | main.go:459-508 | under every interleaving, once the evaluations are over a stretch of the run has exactly as many RECOVERY rows as evaluations that read a non-empty run in it |
| Charges.ReportedOnceIff | main.go:459-508 | under every interleaving a run has exactly one RECOVERY, carrying its length, if and only if one evaluation alone read it and no increment followed the read |
| Charges.OneReader | main.go:459-470 | without overlap the evaluation that ends a run is the only one that read it, and it read all of it |
| Charges.ExactlyOneRecovery | main.go:459-508 | without overlap a non-empty run ended by a finished evaluation has exactly one RECOVERY row, carrying its length |
| Overlap.OverlapMultipliesRecoveries | main.go:459-472 | with overlap any number of RECOVERY rows for a single breach is possible |
| Overlap.OverlapLosesRuns | main.go:459-472 | with overlap a whole run that has raised its P0 can be deleted without any RECOVERY |
| Reduction.MachinesCommute | main.go:375-509 | under every interleaving a machine's events alone are a run with the same observations and the same end for the machine |
| Reduction.SequentialReduction | main.go:375-509 | without overlap a machine's rows, counter and cooldown are those of running its samples alone and in order |
| Reduction.InterleavedHistory | main.go:385-508 | without overlap the rows of an interleaved run are exactly those the history of the machine's samples requires |
| Reduction.BreachesAreReported | main.go:459-502 | without overlap every increment is still counted or reported by a RECOVERY row |
| Reduction.ReadingsAreReported | main.go:459-502 | under every interleaving RECOVERY rows report what evaluations have read, so every increment is counted or reported if and only if the values read add up to the values deleted |
| Wire.RoundTrip | internal/ingest/publisher/kafka.go:35-47 | a sample encoded with a hop's field names decodes to itself |
| Wire.AdmittedIff | main.go:40-45 | a request is admitted as a sample if and only if its body says that sample under the six literal JSON keys, up to a missing time which is stamped, and its machine id is more than white space |
| Wire.PublishedMessage | internal/ingest/publisher/publisher.go:5-12 | the published message holds each field of the sample under its own literal key |
| Wire.ForwardedIff | cmd/worker/main.go:28-33 | the worker forwards a body if and only if the message says a sample under the six literal keys, and the body says the same sample under the keys of the process entrance |
| Text.SpacesAreWhiteSpace | main.go:211 | what trimming removes is exactly the Unicode white space, code point by code point |
| Wire.ForwardKeepsSample | cmd/worker/main.go:94-112 | what the worker forwards carries the sample of the message unchanged |
| Wire.SampleUnchangedEndToEnd | main.go:242-265 | an admitted and published sample is admitted unchanged by the process handler |
| Pipeline.AlwaysConsistent | cmd/worker/main.go:73-157 | in every reachable state the worker is not ahead of the topic and every active evaluation belongs to a handler waiting for it |
| Ledger.LedgerAlwaysHolds | server_metrics.go:78-86 | in every reachable state reads, publishes, forwards, writes, grants, notifications and saves balance exactly with what is in flight |
| Ledger.CountersReconcile | main.go:220-227 | accepted <= published, forwarded <= processed, processed <= written, saves <= notifications <= grants, and at rest the books close and the table holds as many rows as were counted saved |
| Metrics.SeriesCountSteps | server_metrics.go:10-58 | in every run each Prometheus series, by its literal name and labels, counts exactly the steps that carry them |
| Refinement.DirectRunMirrors | main.go:203-291 | the translated Direct-mode run is possible and keeps the same handlers and alert state |
| Refinement.KafkaRefinesDirect | main.go:203-291 | every Kafka-mode run has the alert steps and state of a Direct-mode run that receives an ordered subsequence of the topic |
| Refinement.KafkaIsSequentialOnSubsequence | cmd/worker/main.go:73-157 | when a machine's handlers do not overlap, its rows and entries are those of processing an ordered subsequence of the topic one after the other, with samples unchanged |
| Delivery.PatienceIsDisjoint | cmd/worker/main.go:129-145 | when the worker never gives up on a handler still busy with a machine, requests for that machine never overlap |
| Delivery.PatientKafkaIsSequential | cmd/worker/main.go:73-157 | with such a worker a machine's rows and entries are those of processing an ordered subsequence of the topic one after the other |
| Delivery.TimeoutReorders | cmd/worker/main.go:129-143 | without it two evaluations of one machine can begin against the order of the topic |
| Delivery.PublishedArrivesUnchanged | internal/ingest/publisher/kafka.go:35-47 | in every Kafka-mode run an evaluation of a message the server published evaluates the published sample, equal in every field |
| Delivery.EvaluatedAtMostOnce | cmd/worker/main.go:73-157 | in every Kafka-mode run no message is evaluated twice, whatever times out |
| Service.Server.EvaluateCPUAlert | main.go:375-509 | store, rows and counters become exactly what the sequential specification says, errors included; without errors counter, deadline (now plus cooldownSec * 1_000_000_000) and row are spelled out |
| Service.Server.SaveAlertEventObserved | server_metrics.go:78-86 | the row is stored or not, and counted accordingly under its level |
| Service.Server.ProcessMetricsPayload | main.go:297-358 | posts the text of the sample unless the request cannot be built, counts each way to fail under its own label, and evaluates only a written sample |
| Service.PostedTells | main.go:312-317 | the one text posted has the three literal lines of the sample and, with clean labels, tells a reader its labels, its CPU, memory and disk values and its time |
| Service.Server.HandleProcess | main.go:204-227 | refuses, fails or processes a request; status, texts posted, alert state and all counters |
| Service.Server.HandleMetrics | main.go:229-291 | Direct mode processes, Kafka mode only publishes; status, texts posted, alert state, topic and all counters; a state of a pipeline run stays one |
| Service.KafkaPublisher.PublishMetrics | internal/ingest/publisher/kafka.go:35-47 | appends a message with the machine id as key, the sample under its literal keys, the time and the tracing headers, also when an error comes after the append |
| Service.Worker.HandleMessage | cmd/worker/main.go:94-153 | a message that was read has exactly one outcome, counted once |
| Service.Worker.Step | cmd/worker/main.go:74-156 | one round does to topic, server and worker exactly what the round specification says; nothing is retried |
| Service.Worker.Forward | cmd/worker/main.go:129-153 | an unanswered request counts as an error though the server may have handled it |
| Service.Worker.Run | cmd/worker/main.go:73-157 | after any number of rounds the server's alert state is that of a Direct-mode server given the delivered requests, the worker's books balance, and a state of a pipeline run stays one, with closing books |
| Deployment.RequestsAreSubsequence | cmd/worker/main.go:73-157 | the delivered requests come from an ordered subsequence of the topic |
| Deployment.ServedInPlainTerms | main.go:204-509 | one processed request from the literal keys of its body to the literal fields of the row: counter, deadline and table afterwards |
| Deployment.RoundsServeRequests | cmd/worker/main.go:73-157 | rounds leave the topic alone, move on by one message each and make of the alert state what a Direct-mode server makes of the delivered requests |
| Deployment.RoundsReconcile | cmd/worker/main.go:73-157 | store errors included, every message read has one outcome, forwarded successes never exceed processed ones, and these equal the writes |
| Realisation.MetricsIsRun | main.go:229-291 | one client request on the objects is a stretch of pipeline steps from the corresponding state, with equal topic, counters, store and rows |
| Realisation.RoundIsRun | cmd/worker/main.go:74-156 | one worker round on the objects is a stretch of pipeline steps (read, deliver, write, evaluate, finish, reply or time out) |
| Realisation.RoundsAreRun | cmd/worker/main.go:73-157 | any number of rounds is a pipeline run |
| Realisation.ReachableBooksClose | server_metrics.go:78-86 | whatever the objects hold, their counters close and the table holds as many rows as were counted saved |
| Operator.ReconciledMatches | cmd/operator/main.go:155-199 | what is written back for an object matches the spec |
| Operator.MatchingIsFixed | cmd/operator/main.go:155-199 | an object that matches is written back unchanged |
| Operator.ParsedIff | cmd/operator/main.go:129-153 | a spec parses if and only if both replica counts fit 32 bits; the server then has at least one replica, the worker at least none, and every other field is as given |
| Operator.MatchedIffAsSpecified | cmd/operator/main.go:155-207 | all stages match if and only if the four objects, by their literal names, containers and keys, are as the custom resource says |
| OperatorRuns.InvariantsHold | cmd/operator/main.go:97-127 | in every reachable state the pass works for its generation's spec, earlier stages match, and no status is newer than the pass |
| OperatorRuns.ReadyMeansReconciled | cmd/operator/main.go:97-127 | through any faults, lost answers, failed patches, restarts and edits, Ready for the current generation implies that cloudops-config, cloudops-server, cloudops-worker and cloudops-agent are as the custom resource's own fields say |
| OperatorRuns.MatchedStaysMatched | cmd/operator/main.go:109-126 | for a fixed spec a matching object keeps matching through any calls, faults and restarts |
| OperatorRuns.OthersNeverChange | cmd/operator/main.go:155-207 | through any run objects other than the four, containers other than server, worker and agent, and other ConfigMap keys never change |
| OperatorPass.SetImages | cmd/operator/main.go:201-207 | the in-place loop over the containers computes the specified images |
| OperatorPass.Cluster.ReconcileConfigMap | cmd/operator/main.go:155-170 | reads, sets the managed keys of cloudops-config and writes back; fails when a call fails, keeps an update whose answer was lost |
| OperatorPass.Cluster.ReconcileDeployment | cmd/operator/main.go:172-183 | on success sets the server's replicas and image on cloudops-server, the worker's on cloudops-worker, and nothing else |
| OperatorPass.Cluster.ReconcileDaemonSet | cmd/operator/main.go:185-199 | the same for the agent image of cloudops-agent |
| OperatorPass.Cluster.PatchStatus | cmd/operator/main.go:209-223 | phase, observed generation and message are replaced unless the patch fails |
| OperatorPass.Cluster.Reconcile | cmd/operator/main.go:97-127 | a pass is one run of the call-by-call machine; success means that Ready for its generation is stored and every object is as the custom resource says; the message tells how it ended |
| OperatorPass.PassIsRun | cmd/operator/main.go:97-127 | every pass is a run without edits, so properties of runs hold of sequences of passes |
| OperatorPass.PassBringsPrefix | cmd/operator/main.go:109-126 | a pass brings all stages before its first failing one to match, and reports Ready exactly when none failed |
| OperatorPass.ReadyPassReconciles | cmd/operator/main.go:97-127 | a pass that stores Ready has brought every object to be as the custom resource says |
| OperatorPass.PassKeepsMatches | cmd/operator/main.go:109-126 | however a pass goes, it unmatches nothing |
| OperatorPass.MatchingClusterIsFixed | cmd/operator/main.go:109-126 | a pass over a matching cluster changes no object, whatever its calls answer |
| OperatorPass.OnePassConverges | cmd/operator/main.go:97-127 | one fault-free pass from any cluster containing the objects makes them as the custom resource says and stores Ready, and a second changes nothing |
| Exposition.DecodesIffClean | main.go:312-317 | a reader of the format recovers labels, rounded values and timestamp if and only if the labels need no escaping |
| Exposition.RenderIsInjective | main.go:312-317 | distinct entries with clean labels never render alike |
| Exposition.SampleTextIsDecodable | main.go:312-317 | a reader gets the labels and, each under its own metric name, CPU, memory and disk within half a hundredth, ties to even, with the sign; the time if and only if the milliseconds fit 64 bits |
| Exposition.SampleTextFormat | main.go:312-317 | the text has the three lines of the format, for any labels |
| Exposition.SamplesCollideIff | main.go:312-317 | samples with clean labels render alike if and only if labels and printed values agree and the timestamps are a multiple of 2^61 seconds apart |
| Exposition.QuotesCollide | main.go:312-317 | with a quote in a label two machines can render alike |
| Exposition.OverflowCollides | main.go:315-317 | two different samples that the handler admits unchanged render alike |

## Left out

- HTTP, Gin, GORM/MySQL, Redis and Kafka client internals: a call is answered, fails, or takes effect with its answer lost; writer retries, consumer groups and rebalancing are not modelled.
- Several partitions or workers: the topic is one sequence with one reader.
- Clients that post to the process endpoint themselves: only the worker does.
- Store errors inside interleavings: the interleaved machine runs over the memory store, which never reports one; the error branches are in `Evaluation` and `Service.Server.EvaluateCPUAlert`, and `Realisation` covers calls on a working store.
- Redis inside interleavings: INCR and EXPIRE of one call happen at one time; a non-integer counter value is not modelled because no key of the store holds one.
- RedisStore.RedisSimulatesMemory: compares the stores for positive cooldowns only; what the Redis client makes of others is a parameter of `TryAcquireCooldown`.
- Edits during `OperatorPass.Cluster.Reconcile`: the method reads the spec once at its start; edits between its calls are events of the call-by-call machine.
- Deleting or recreating the custom resource, other writers of the managed objects, and API calls that take effect after returning an error.
- The texts of errors in the status message: a parameter.
- Case-insensitive matching of JSON keys, duplicate keys and replacement of invalid UTF-8.
- Floating-point rounding: values are reals, printed values are hundredths rounded to the nearest, ties to even.
- Overflow of the cooldown duration and of counters beyond 64 bits.
- The topic label of Kafka counters, which is constant, and the spelling of the configured mode in the label of a refused client request: it is "kafka" or "direct" here.
- Tracing, logging and duration histograms; the tracing headers of a message are a parameter.
- Webhook payloads and providers: a notification succeeds or fails.
- Choosing the store at start, configuration loading, health probes, machine registration, the recent-alerts query, the agent and the assistant.
