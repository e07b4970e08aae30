// In which order, how often and with whose sample the messages of the topic are evaluated.

module Delivery {
  import opened AlertModel
  import opened Wire
  import opened Pipeline
  import opened Refinement
  import A = Interleaving
  import Evaluation
  import Reduction
  import Steps
  import Text

  // ---- Without premature timeouts -------------------------------------------------------------

  /** The worker never gives up on a handler that is still busy with m. */
  ghost predicate Patient(cfg: Config, run: Run, m: MachineId)
    requires Valid(cfg, Kafka, run)
  {
    run != [] ==>
      var front, e := run[..|run|-1], run[|run|-1];
      var s := After(cfg, Kafka, front);
      && Patient(cfg, front, m)
      && (e.Timeout? && s.worker.Waiting? && s.worker.hid in s.handlers ==> !Busy(s.handlers[s.worker.hid], m))
  }

  /** The only handler busy with m is the one the worker waits for. */
  ghost predicate OnlyAwaited(s: Sys, m: MachineId) {
    forall hid :: hid in s.handlers && Busy(s.handlers[hid], m) ==> s.worker == Waiting(hid)
  }

  /** A handler that is busy after an event was busy before, or the event delivered its request. */
  lemma OnlyAwaitedStep(cfg: Config, s: Sys, e: Event, m: MachineId)
    requires WorkerConsistent(s) && OnlyAwaited(s, m) && Enabled(cfg, Kafka, s, e)
    requires e.Timeout? && s.worker.Waiting? ==> !Busy(s.handlers[s.worker.hid], m)
    ensures OnlyAwaited(Apply(cfg, Kafka, s, e), m)
  {
    var s' := Apply(cfg, Kafka, s, e);
    forall hid | hid in s'.handlers && Busy(s'.handlers[hid], m) ensures s'.worker == Waiting(hid) {
      HandlerKept(cfg, s, e, hid);
      if !(Delivers(e) && hid == e.hid) {
        assert Busy(s.handlers[hid], m);
      }
    }
  }

  /** As long as the worker waits for the answers about m, requests for m do not overlap. */
  lemma {:induction false} PatienceIsDisjoint(cfg: Config, run: Run, m: MachineId)
    requires Valid(cfg, Kafka, run) && Patient(cfg, run, m)
    ensures HandlersDisjoint(cfg, run, m) && OnlyAwaited(After(cfg, Kafka, run), m)
  {
    if run != [] {
      var front, e := run[..|run|-1], run[|run|-1];
      PatienceIsDisjoint(cfg, front, m);
      AlwaysConsistent(cfg, Kafka, front);
      OnlyAwaitedStep(cfg, After(cfg, Kafka, front), e, m);
    }
  }

  /** Kafka mode with a patient worker: m's rows and store entries are those of processing, one
      after the other, the samples of an ordered subsequence of the topic. */
  lemma PatientKafkaIsSequential(cfg: Config, run: Run, m: MachineId)
    requires Valid(cfg, Kafka, run) && Patient(cfg, run, m) && After(cfg, Kafka, run).alert.Idle(m)
    ensures var s := After(cfg, Kafka, run);
            var offs := EvaluatedOffsets(run, m);
            var jobs := Reduction.Jobs(AlertTrace(run), m);
            && StrictlyAscending(offs) && |jobs| == |offs|
            && (forall k :: 0 <= k < |jobs| ==> offs[k] < |s.log| && Carries(s.log[offs[k]], jobs[k].sample))
            && A.Attempts(AlertTrace(run), m) == Reduction.RequiredRows(cfg, jobs)
            && s.alert.store.SameAt(Evaluation.RunAll(cfg, jobs).store, m)
  {
    PatienceIsDisjoint(cfg, run, m);
    KafkaIsSequentialOnSubsequence(cfg, run, m);
  }

  // ---- A timeout that reorders ----------------------------------------------------------------

  const HOST: MachineId := "host"

  /** A run that can be continued. */
  ghost predicate Leads(cfg: Config, run: Run, s: Sys, offs: seq<nat>) {
    Steps.From(cfg, Kafka, INIT, run) == Some(s) && EvaluatedOffsets(run, HOST) == offs
  }

  lemma Extends(cfg: Config, run: Run, s: Sys, offs: seq<nat>, e: Event, s': Sys)
    requires Leads(cfg, run, s, offs) && Steps.From(cfg, Kafka, s, [e]) == Some(s')
    ensures Leads(cfg, run + [e], s', if e.WriteOk? && e.origin.Topic? && e.sample.machine == HOST
                                      then offs + [e.origin.offset] else offs)
  {
    Steps.Then(cfg, Kafka, INIT, run, s, e, s');
  }

  lemma Fills(cfg: Config, message: Body) returns (run: Run, s: Sys)
    ensures Leads(cfg, run, s, []) && s.log == [message, message] && s.offset == 0 && s.worker == Idle
    ensures s.handlers == map[] && s.alert.evals == map[]
  {
    run := [];
    s := INIT;
    var s' := Steps.ForeignStep(cfg, Kafka, s, message);
    Extends(cfg, run, s, [], Foreign(message), s');
    run, s := run + [Foreign(message)], s';
    s' := Steps.ForeignStep(cfg, Kafka, s, message);
    Extends(cfg, run, s, [], Foreign(message), s');
    run, s := run + [Foreign(message)], s';
  }

  /** The worker reads the next message and its request reaches a handler. */
  lemma ReadsAndDelivers(cfg: Config, run: Run, s: Sys, body: Body, sample: Sample) returns (run': Run, s': Sys)
    requires Leads(cfg, run, s, []) && s.worker == Idle && s.offset < |s.log|
    requires s.offset !in s.handlers && s.offset !in s.alert.evals
    requires Forwarded(s.log[s.offset]) == Some(body) && Admit(body, 1) == Some(sample)
    ensures Leads(cfg, run', s', [])
    ensures s'.log == s.log && s'.offset == s.offset + 1 && s'.worker == Waiting(s.offset) && s'.alert == s.alert
    ensures s'.handlers == s.handlers[s.offset := Handler(Topic(s.offset), sample, Writing)]
  {
    var got := Steps.ReadStep(cfg, Kafka, s);
    Extends(cfg, run, s, [], Read, got);
    var deliver := Deliver(s.offset, s.offset, body, 1);
    s' := Steps.DeliverStep(cfg, Kafka, got, s.offset, s.offset, body, 1, sample);
    Extends(cfg, run + [Read], got, [], deliver, s');
    run' := run + [Read] + [deliver];
  }

  /** The worker gives up on the first of two messages while its handler still writes, and goes
      on to the second one. */
  lemma BothDelivered(cfg: Config, message: Body, body: Body, sample: Sample) returns (run: Run, s: Sys)
    requires Forwarded(message) == Some(body) && Admit(body, 1) == Some(sample)
    ensures Leads(cfg, run, s, []) && s.alert.evals == map[]
    ensures 0 in s.handlers && s.handlers[0] == Handler(Topic(0), sample, Writing)
    ensures 1 in s.handlers && s.handlers[1] == Handler(Topic(1), sample, Writing)
  {
    run, s := Fills(cfg, message);
    run, s := ReadsAndDelivers(cfg, run, s, body, sample);
    var s' := Steps.TimeoutStep(cfg, Kafka, s);
    Extends(cfg, run, s, [], Timeout, s');
    run, s := ReadsAndDelivers(cfg, run + [Timeout], s', body, sample);
  }

  /** The handler of the second message is faster. */
  lemma Overtakes(cfg: Config, run: Run, s: Sys, sample: Sample) returns (run': Run, s': Sys)
    requires Leads(cfg, run, s, []) && s.alert.evals == map[] && sample.machine == HOST
    requires 0 in s.handlers && s.handlers[0] == Handler(Topic(0), sample, Writing)
    requires 1 in s.handlers && s.handlers[1] == Handler(Topic(1), sample, Writing)
    ensures Leads(cfg, run', s', [1, 0])
  {
    var first, second := WriteOk(1, Topic(1), sample), WriteOk(0, Topic(0), sample);
    var mid := Steps.WriteOkStep(cfg, Kafka, s, 1, s.handlers[1]);
    Extends(cfg, run, s, [], first, mid);
    s' := Steps.WriteOkStep(cfg, Kafka, mid, 0, s.handlers[0]);
    Extends(cfg, run + [first], mid, [1], second, s');
    run' := run + [first] + [second];
  }

  lemma SampleTravels(s: Sample)
    requires s.machine == HOST && s.timestamp == 1
    ensures Forwarded(Encode(EVENT_NAMES, s)) == Some(Encode(PAYLOAD_NAMES, s))
    ensures Admit(Encode(PAYLOAD_NAMES, s), 1) == Some(s)
  {
    RoundTrip(EVENT_NAMES, s);
    RoundTrip(PAYLOAD_NAMES, s);
    assert !Text.IsSpace(s.machine[0]);
  }

  /** Patience is needed: a timeout can make two evaluations of one machine begin against the
      order of the topic. */
  lemma TimeoutReorders(cfg: Config)
    ensures exists run :: Valid(cfg, Kafka, run) && EvaluatedOffsets(run, HOST) == [1, 0]
  {
    var sample := Sample(HOST, "", 0.0, 0.0, 0.0, 1);
    SampleTravels(sample);
    var run, s := BothDelivered(cfg, Encode(EVENT_NAMES, sample), Encode(PAYLOAD_NAMES, sample), sample);
    run, s := Overtakes(cfg, run, s, sample);
    Steps.Continued(cfg, Kafka, [], run);
    assert [] + run == run;
  }

  // ---- Whose sample arrives -------------------------------------------------------------------

  /** Who wrote each message of the topic: the server, publishing this sample, or somebody else. */
  function Provenance(cfg: Config, run: Run): seq<Option<Sample>>
    requires Valid(cfg, Kafka, run)
  {
    if run == [] then []
    else
      var front, e := run[..|run|-1], run[|run|-1];
      var before := Provenance(cfg, front);
      match e
      case Append(pid) => before + [Some(After(cfg, Kafka, front).publishers[pid].sample)]
      case Foreign(_) => before + [None]
      case _ => before
  }

  predicate HasTime(s: Sample) { s.timestamp > 0 && IsInt64(s.timestamp) }

  /** What is about to be published has a timestamp the next hop keeps. */
  ghost predicate AllHaveTime(s: Sys) {
    forall pid :: pid in s.publishers ==> HasTime(s.publishers[pid].sample)
  }

  lemma AllHaveTimeStep(cfg: Config, s: Sys, e: Event)
    requires AllHaveTime(s) && Enabled(cfg, Kafka, s, e)
    ensures AllHaveTime(Apply(cfg, Kafka, s, e))
  {
    if e.Publish? {
      DecodedTimestampFits(PAYLOAD_NAMES, e.body);
    }
  }

  /** The messages of the server are the encodings of the samples it published. */
  ghost predicate Encodes(log: seq<Body>, origins: seq<Option<Sample>>) {
    && |origins| == |log|
    && forall k :: 0 <= k < |log| && origins[k].Some? ==>
         HasTime(origins[k].value) && log[k] == Encode(EVENT_NAMES, origins[k].value)
  }

  lemma {:induction false} TopicEncodesPublished(cfg: Config, run: Run)
    requires Valid(cfg, Kafka, run)
    ensures AllHaveTime(After(cfg, Kafka, run)) && Encodes(After(cfg, Kafka, run).log, Provenance(cfg, run))
  {
    if run != [] {
      var front, e := run[..|run|-1], run[|run|-1];
      TopicEncodesPublished(cfg, front);
      AllHaveTimeStep(cfg, After(cfg, Kafka, front), e);
      LogStep(cfg, After(cfg, Kafka, front), e);
    }
  }

  lemma LogStep(cfg: Config, s: Sys, e: Event)
    requires Enabled(cfg, Kafka, s, e)
    ensures Apply(cfg, Kafka, s, e).log ==
            match e
            case Append(pid) => s.log + [Encode(EVENT_NAMES, s.publishers[pid].sample)]
            case Foreign(message) => s.log + [message]
            case _ => s.log
  {
  }

  lemma CarriesEncoded(s: Sample, arrived: Sample)
    requires HasTime(s) && Carries(Encode(EVENT_NAMES, s), arrived)
    ensures arrived == s
  {
    RoundTrip(EVENT_NAMES, s);
  }

  /** End to end, in every Kafka-mode run: when the k-th evaluation for m comes from a message
      the server published, it evaluates the published sample, equal in every field. */
  lemma PublishedArrivesUnchanged(cfg: Config, run: Run, m: MachineId, k: nat)
    requires Valid(cfg, Kafka, run) && k < |EvaluatedOffsets(run, m)|
    ensures |A.Arrivals(AlertTrace(run), m)| == |EvaluatedOffsets(run, m)|
    ensures var offset := EvaluatedOffsets(run, m)[k];
            && offset < |Provenance(cfg, run)|
            && (Provenance(cfg, run)[offset].Some? ==>
                  A.Arrivals(AlertTrace(run), m)[k] == Provenance(cfg, run)[offset].value)
  {
    ArrivalsCarryLog(cfg, run, m);
    TopicEncodesPublished(cfg, run);
    var offset := EvaluatedOffsets(run, m)[k];
    if Provenance(cfg, run)[offset].Some? {
      CarriesEncoded(Provenance(cfg, run)[offset].value, A.Arrivals(AlertTrace(run), m)[k]);
    }
  }

  // ---- At most once ---------------------------------------------------------------------------

  /** Different handlers serve different messages, and those evaluated have left their write. */
  ghost predicate ServedOnce(s: Sys, offs: seq<nat>) {
    && (forall a, b :: a in s.handlers && b in s.handlers && a != b ==> s.handlers[a].origin != s.handlers[b].origin)
    && (forall k :: 0 <= k < |offs| ==> NotWaiting(s, offs[k]))
    && (forall i, j :: 0 <= i < j < |offs| ==> offs[i] != offs[j])
  }

  /** No handler waits to write the message at this offset, and none will. */
  ghost predicate NotWaiting(s: Sys, offset: nat) {
    && offset < Frontier(s)
    && forall hid :: hid in s.handlers && s.handlers[hid].origin == Topic(offset) ==> s.handlers[hid].pc != Writing
  }

  lemma NotWaitingStep(cfg: Config, s: Sys, e: Event, offset: nat)
    requires WorkerConsistent(s) && Enabled(cfg, Kafka, s, e) && NotWaiting(s, offset)
    ensures NotWaiting(Apply(cfg, Kafka, s, e), offset)
  {
    var s' := Apply(cfg, Kafka, s, e);
    FrontierGrows(cfg, s, e);
    forall hid | hid in s'.handlers && s'.handlers[hid].origin == Topic(offset) ensures s'.handlers[hid].pc != Writing {
      HandlerKept(cfg, s, e, hid);
    }
  }

  lemma OriginsStep(cfg: Config, s: Sys, e: Event, a: nat, b: nat)
    requires WorkerConsistent(s) && FromTopic(s) && Enabled(cfg, Kafka, s, e)
    requires a != b && (a in s.handlers && b in s.handlers ==> s.handlers[a].origin != s.handlers[b].origin)
    requires a in Apply(cfg, Kafka, s, e).handlers && b in Apply(cfg, Kafka, s, e).handlers
    ensures Apply(cfg, Kafka, s, e).handlers[a].origin != Apply(cfg, Kafka, s, e).handlers[b].origin
  {
    FrontierGrows(cfg, s, e);
    HandlerKept(cfg, s, e, a);
    HandlerKept(cfg, s, e, b);
  }

  /** A message that is written has only one handler. */
  lemma NowWritten(cfg: Config, s: Sys, e: Event)
    requires FromTopic(s) && ServedOnce(s, []) && WorkerConsistent(s) && Enabled(cfg, Kafka, s, e)
    requires e.WriteOk? && e.origin.Topic?
    ensures NotWaiting(Apply(cfg, Kafka, s, e), e.origin.offset)
  {
    FrontierGrows(cfg, s, e);
  }

  lemma ServedOnceStep(cfg: Config, s: Sys, e: Event, m: MachineId, offs: seq<nat>, offs': seq<nat>)
    requires WorkerConsistent(s) && FromTopic(s) && ServedOnce(s, offs) && Enabled(cfg, Kafka, s, e)
    requires offs' == if e.WriteOk? && e.origin.Topic? && e.sample.machine == m then offs + [e.origin.offset] else offs
    ensures ServedOnce(Apply(cfg, Kafka, s, e), offs')
  {
    var s' := Apply(cfg, Kafka, s, e);
    forall a, b | a in s'.handlers && b in s'.handlers && a != b
      ensures s'.handlers[a].origin != s'.handlers[b].origin
    {
      OriginsStep(cfg, s, e, a, b);
    }
    forall k | 0 <= k < |offs'| ensures NotWaiting(s', offs'[k]) {
      if k < |offs| {
        NotWaitingStep(cfg, s, e, offs[k]);
      } else {
        NowWritten(cfg, s, e);
      }
    }
  }

  /** In every Kafka-mode run, whatever times out, no message is evaluated twice. */
  lemma {:induction false} EvaluatedAtMostOnce(cfg: Config, run: Run, m: MachineId)
    requires Valid(cfg, Kafka, run)
    ensures ServedOnce(After(cfg, Kafka, run), EvaluatedOffsets(run, m))
  {
    if run != [] {
      var front := run[..|run|-1];
      EvaluatedAtMostOnce(cfg, front, m);
      AlwaysConsistent(cfg, Kafka, front);
      AlwaysFromTopic(cfg, front);
      ServedOnceStep(cfg, After(cfg, Kafka, front), run[|run|-1], m,
                     EvaluatedOffsets(front, m), EvaluatedOffsets(run, m));
    }
  }
}
