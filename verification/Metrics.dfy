// The Prometheus series of both services by name and label, and the steps that each of them counts.

module Metrics {
  import opened AlertModel
  import opened Wire
  import opened Pipeline
  import A = Interleaving

  /** One series of each counter vector. */
  datatype Series =
    | IngestRequests(path: string, mode: string, status: string)  // cloudops_server_ingest_requests_total
    | KafkaPublish(status: string)                                // cloudops_server_kafka_publish_total
    | VmWrites(status: string)                                    // cloudops_server_vm_writes_total
    | Notifications(level: string, status: string)                // cloudops_server_alert_notifications_total
    | EventsSaved(level: string, status: string)                  // cloudops_server_alert_events_saved_total
    | Messages(status: string)                                    // cloudops_worker_kafka_messages_total
    | Forwards(status: string)                                    // cloudops_worker_forward_total

  function ModeName(mode: Mode): string { if mode == Kafka then "kafka" else "direct" }

  function LevelName(level: Level): string { if level == P0 then "P0" else "RECOVERY" }

  function SuccessOr(ok: bool, failure: string): string { if ok then "success" else failure }

  /** The value of a series. */
  function Value(mode: Mode, w: WorkerCounters, c: Counters, x: Series): nat {
    match x
    case Messages(status) =>
      if status == "read" then w.readOk else if status == "read_error" then w.readErrors
      else if status == "decode_error" then w.decodeErrors else 0
    case Forwards(status) =>
      if status == "success" then w.forwardOk else if status == "error" then w.forwardErrors
      else if status == "non_2xx" then w.non2xx else if status == "build_request_error" then w.buildErrors else 0
    case KafkaPublish(status) =>
      if status == "success" then c.publishOk else if status == "error" then c.publishErrors else 0
    case VmWrites(status) =>
      if status == "success" then c.writesOk else if status == "error" then c.writesFailed
      else if status == "non_2xx" then c.writesNon2xx
      else if status == "build_request_error" then c.writesUnbuilt else 0
    case Notifications(level, status) =>
      if level != "P0" then 0
      else if status == "sent" then c.p0Sent else if status == "failed" then c.p0Failed else 0
    case EventsSaved(level, status) =>
      if level == "P0" then if status == "success" then c.p0Saved else if status == "failed" then c.p0SaveFailed else 0
      else if level == "RECOVERY" then
        if status == "success" then c.recoverySaved else if status == "failed" then c.recoverySaveFailed else 0
      else 0
    case IngestRequests(path, m, status) =>
      if path == "/api/v1/metrics/process" then
        if m != "process" then 0
        else if status == "success" then c.processOk else if status == "error" then c.processErrors
        else if status == "bad_request" then c.processBad else 0
      else if path == "/api/v1/metrics" then
        if status == "bad_request" then if m == ModeName(mode) then c.directBad else 0
        else if m == "kafka" then
          if status == "accepted" then c.accepted else if status == "error" then c.kafkaErrors else 0
        else if m == "direct" then
          if status == "success" then c.directOk else if status == "error" then c.directErrors else 0
        else 0
      else 0
  }

  /** How a handler counts its answer. */
  function Answer(origin: Origin, status: string): Series {
    if origin.Client? then IngestRequests("/api/v1/metrics", "direct", status)
    else IngestRequests("/api/v1/metrics/process", "process", status)
  }

  function WriteStatus(write: VmWrite): string {
    match write
    case BuildFailed => "build_request_error"
    case TransportFailed => "error"
    case Non2xx => "non_2xx"
    case Written => "success"
  }

  /** The series the worker increments in a step. */
  function WorkerSeries(s: Sys, e: Event): set<Series> {
    match e
    case ReadError => {Messages("read_error")}
    case Read => {Messages("read")}
    case DecodeError => {Messages("decode_error")}
    case BuildError => {Forwards("build_request_error")}
    case SendLost => {Forwards("error")}
    case Timeout => {Forwards("error")}
    case Reply =>
      {Forwards(SuccessOr(s.worker.Waiting? && s.worker.hid in s.handlers && s.handlers[s.worker.hid].pc.Answered?
                          && s.handlers[s.worker.hid].pc.ok, "non_2xx"))}
    case _ => {}
  }

  /** The series the clients' entrance and the publisher increment in a step. */
  function EntranceSeries(mode: Mode, e: Event): set<Series> {
    match e
    case BadRequest => {IngestRequests("/api/v1/metrics", ModeName(mode), "bad_request")}
    case PublishOk(_) => {KafkaPublish("success")}
    case Accept(_) => {IngestRequests("/api/v1/metrics", "kafka", "accepted")}
    case PublishFail(_) => {KafkaPublish("error"), IngestRequests("/api/v1/metrics", "kafka", "error")}
    case _ => {}
  }

  /** The series a handler increments in a step. */
  function HandlerSeries(s: Sys, e: Event): set<Series> {
    match e
    case Deliver(_, _, body, now) =>
      if Admit(body, now).None? then {IngestRequests("/api/v1/metrics/process", "process", "bad_request")} else {}
    case WriteFail(hid, write) =>
      {VmWrites(WriteStatus(write))} + if hid in s.handlers then {Answer(s.handlers[hid].origin, "error")} else {}
    case WriteOk(_, _, _) => {VmWrites("success")}
    case Finish(hid) => if hid in s.handlers then {Answer(s.handlers[hid].origin, "success")} else {}
    case _ => {}
  }

  /** The series an evaluation increments in a step; a recovery's notification is not counted. */
  function EvaluationSeries(s: A.State, e: A.Event): set<Series> {
    match e.op
    case Notify(_, result) =>
      if e.eid in s.evals && s.evals[e.eid].pc == A.Granted
      then {Notifications("P0", if result.Sent? then "sent" else "failed")} else {}
    case Save(record, saved) => {EventsSaved(LevelName(record.level), SuccessOr(saved, "failed"))}
    case _ => {}
  }

  function AlertSeries(s: Sys, e: Event): set<Series> { if e.Alert? then EvaluationSeries(s.alert, e.e) else {} }

  function SeriesOf(mode: Mode, s: Sys, e: Event): set<Series> {
    WorkerSeries(s, e) + EntranceSeries(mode, e) + HandlerSeries(s, e) + AlertSeries(s, e)
  }

  /** The steps of a run that increment a series. */
  function Steps(cfg: Config, mode: Mode, run: Run, x: Series): nat
    requires Valid(cfg, mode, run)
  {
    if run == [] then 0
    else
      var front := run[..|run|-1];
      Steps(cfg, mode, front, x) + if x in SeriesOf(mode, After(cfg, mode, front), run[|run|-1]) then 1 else 0
  }

  ghost predicate CountsStep(cfg: Config, mode: Mode, s: Sys, e: Event, x: Series)
    requires Enabled(cfg, mode, s, e)
  {
    var s' := Apply(cfg, mode, s, e);
    Value(mode, s'.work, s'.ctr, x) ==
    Value(mode, s.work, s.ctr, x) + if x in SeriesOf(mode, s, e) then 1 else 0
  }

  lemma WorkerStepCounted(cfg: Config, mode: Mode, s: Sys, e: Event, x: Series)
    requires Enabled(cfg, mode, s, e)
    requires e.ReadError? || e.Read? || e.DecodeError? || e.BuildError? || e.SendLost? || e.Timeout?
    ensures CountsStep(cfg, mode, s, e, x)
  {
  }

  lemma ReplyCounted(cfg: Config, mode: Mode, s: Sys, e: Event, x: Series)
    requires Enabled(cfg, mode, s, e) && e.Reply?
    ensures CountsStep(cfg, mode, s, e, x)
  {
  }

  lemma EntranceStepCounted(cfg: Config, mode: Mode, s: Sys, e: Event, x: Series)
    requires Enabled(cfg, mode, s, e)
    requires e.PublishOk? || e.Accept? || e.PublishFail?
    ensures CountsStep(cfg, mode, s, e, x)
  {
  }

  lemma RefusalCounted(cfg: Config, mode: Mode, s: Sys, e: Event, x: Series)
    requires Enabled(cfg, mode, s, e) && e.BadRequest?
    ensures CountsStep(cfg, mode, s, e, x)
  {
  }

  lemma BadProcessCounted(mode: Mode, w: WorkerCounters, c: Counters, x: Series)
    ensures Value(mode, w, c.(processBad := c.processBad + 1), x) ==
            Value(mode, w, c, x) +
            if x == IngestRequests("/api/v1/metrics/process", "process", "bad_request") then 1 else 0
  {
  }

  lemma DeliverCounted(cfg: Config, mode: Mode, s: Sys, e: Event, x: Series)
    requires Enabled(cfg, mode, s, e) && e.Deliver?
    ensures CountsStep(cfg, mode, s, e, x)
  {
    BadProcessCounted(mode, s.work, s.ctr, x);
  }

  lemma WriteCounted(mode: Mode, w: WorkerCounters, c: Counters, write: VmWrite, x: Series)
    ensures Value(mode, w, CountWrite(c, write), x) ==
            Value(mode, w, c, x) + if x == VmWrites(WriteStatus(write)) then 1 else 0
  {
  }

  lemma AnswerCounted(mode: Mode, w: WorkerCounters, c: Counters, origin: Origin, ok: bool, x: Series)
    ensures Value(mode, w, CountAnswer(c, origin, ok), x) ==
            Value(mode, w, c, x) + if x == Answer(origin, SuccessOr(ok, "error")) then 1 else 0
  {
  }

  lemma HandlerStepCounted(cfg: Config, mode: Mode, s: Sys, e: Event, x: Series)
    requires Enabled(cfg, mode, s, e) && (e.WriteFail? || e.WriteOk? || e.Finish?)
    ensures CountsStep(cfg, mode, s, e, x)
  {
    if e.Finish? {
      AnswerCounted(mode, s.work, s.ctr, s.handlers[e.hid].origin, true, x);
    } else {
      var write := if e.WriteFail? then e.write else Written;
      WriteCounted(mode, s.work, s.ctr, write, x);
      AnswerCounted(mode, s.work, CountWrite(s.ctr, write), s.handlers[e.hid].origin, false, x);
    }
  }

  /** The notification of a P0, and every attempt to save a row. */
  lemma AlertStepCounted(cfg: Config, mode: Mode, s: Sys, e: Event, x: Series)
    requires Enabled(cfg, mode, s, e) && e.Alert?
    ensures CountsStep(cfg, mode, s, e, x)
  {
    AlertCounted(mode, s.work, s.ctr, s.alert, e.e, x);
  }

  lemma AlertCounted(mode: Mode, w: WorkerCounters, c: Counters, s: A.State, e: A.Event, x: Series)
    ensures Value(mode, w, CountAlert(c, s, e), x) ==
            Value(mode, w, c, x) + if x in EvaluationSeries(s, e) then 1 else 0
  {
  }

  lemma QuietStep(cfg: Config, mode: Mode, s: Sys, e: Event, x: Series)
    requires Enabled(cfg, mode, s, e) && (e.Publish? || e.Append? || e.Foreign? || e.ReceiveDirect?)
    ensures CountsStep(cfg, mode, s, e, x)
  {
  }

  lemma StepCounted(cfg: Config, mode: Mode, s: Sys, e: Event, x: Series)
    requires Enabled(cfg, mode, s, e)
    ensures CountsStep(cfg, mode, s, e, x)
  {
    if e.Alert? {
      AlertStepCounted(cfg, mode, s, e, x);
    } else if e.WriteFail? || e.WriteOk? || e.Finish? {
      HandlerStepCounted(cfg, mode, s, e, x);
    } else if e.BadRequest? {
      RefusalCounted(cfg, mode, s, e, x);
    } else if e.Deliver? {
      DeliverCounted(cfg, mode, s, e, x);
    } else if e.PublishOk? || e.Accept? || e.PublishFail? {
      EntranceStepCounted(cfg, mode, s, e, x);
    } else if e.Reply? {
      ReplyCounted(cfg, mode, s, e, x);
    } else if e.Publish? || e.Append? || e.Foreign? || e.ReceiveDirect? {
      QuietStep(cfg, mode, s, e, x);
    } else {
      WorkerStepCounted(cfg, mode, s, e, x);
    }
  }

  /** In every run each series counts exactly the steps that carry its name and labels. */
  lemma {:induction false} SeriesCountSteps(cfg: Config, mode: Mode, run: Run, x: Series)
    requires Valid(cfg, mode, run)
    ensures var s := After(cfg, mode, run); Value(mode, s.work, s.ctr, x) == Steps(cfg, mode, run, x)
  {
    if run != [] {
      var front := run[..|run|-1];
      SeriesCountSteps(cfg, mode, front, x);
      StepCounted(cfg, mode, After(cfg, mode, front), run[|run|-1], x);
    }
  }
}
