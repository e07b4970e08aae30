// The whole ingest path as one state machine: clients, the server's handlers, the topic, the
// worker and the alert evaluations, interleaved step by step.

module Pipeline {
  import opened AlertModel
  import opened Wire
  import A = Interleaving

  datatype Mode = Direct | Kafka

  /** Where a request comes from: a client, or the worker forwarding the message at an offset. */
  datatype Origin = Client | Topic(offset: nat)

  /** Answered remembers whether the answer was a success and whether the worker received it. */
  datatype HandlerPc = Writing | Evaluating | Answered(ok: bool, collected: bool)

  datatype Handler = Handler(origin: Origin, sample: Sample, pc: HandlerPc)

  datatype PublisherPc = Publishing | Appended | Published | Closed

  datatype Publisher = Publisher(sample: Sample, pc: PublisherPc)

  /** The worker between two messages, holding one, or waiting for the answer to one. */
  datatype WorkerPc = Idle | Got(offset: nat) | Waiting(hid: nat) | Refused

  /** What became of a write to the time series database. */
  datatype VmWrite = BuildFailed | TransportFailed | Non2xx | Written

  /** The Prometheus counters of the worker. */
  datatype WorkerCounters = WorkerCounters(
    readOk: nat, readErrors: nat, decodeErrors: nat,
    buildErrors: nat, forwardErrors: nat, non2xx: nat, forwardOk: nat)

  /** The Prometheus counters of the server. directBad counts the refusals of the clients'
      entrance in either mode. */
  datatype Counters = Counters(
    publishOk: nat, publishErrors: nat, accepted: nat, kafkaErrors: nat,
    directOk: nat, directErrors: nat, directBad: nat, processOk: nat, processErrors: nat, processBad: nat,
    writesOk: nat, writesUnbuilt: nat, writesFailed: nat, writesNon2xx: nat,
    p0Sent: nat, p0Failed: nat, p0Saved: nat, p0SaveFailed: nat,
    recoverySaved: nat, recoverySaveFailed: nat)

  datatype Sys = Sys(
    log: seq<Body>, offset: nat, worker: WorkerPc,
    publishers: map<nat, Publisher>, handlers: map<nat, Handler>,
    alert: A.State, work: WorkerCounters, ctr: Counters)

  const NO_WORK := WorkerCounters(0, 0, 0, 0, 0, 0, 0)

  const ZERO := Counters(0, 0, 0, 0, 0, 0, 0, 0, 0, 0, 0, 0, 0, 0, 0, 0, 0, 0, 0, 0)

  const INIT := Sys([], 0, Idle, map[], map[], A.INIT, NO_WORK, ZERO)

  datatype Event =
    | BadRequest                                            // a client's body is refused
    | Publish(pid: nat, body: Body, now: int)               // Kafka mode: an admitted body is to be published
    | Append(pid: nat)                                      // the topic takes the message
    | PublishOk(pid: nat) | Accept(pid: nat)                // the two counters of a success, one after the other
    | PublishFail(pid: nat)                                 // an error, with or without the message on the topic
    | Foreign(message: Body)                                // somebody else writes to the topic
    | ReceiveDirect(hid: nat, body: Body, now: int)         // Direct mode: an admitted body is to be processed
    | ReadError | Read | DecodeError | BuildError
    | SendLost                                              // the forwarded request never reaches the server
    | Deliver(hid: nat, offset: nat, body: Body, now: int)  // it reaches the process handler
    | Timeout                                               // the worker gives up; the handler goes on
    | Reply                                                 // the worker receives the answer
    | WriteFail(hid: nat, write: VmWrite) | WriteOk(hid: nat, origin: Origin, sample: Sample)
    | Alert(e: A.Event)                                     // one step of one alert evaluation
    | Finish(hid: nat)                                      // the handler answers after its evaluation

  predicate Holding(s: Sys) {
    s.worker.Got? && s.worker.offset < |s.log| && Forwarded(s.log[s.worker.offset]).Some?
  }

  predicate Enabled(cfg: Config, mode: Mode, s: Sys, e: Event) {
    match e
    case BadRequest => true
    case Publish(pid, body, now) =>
      mode == Kafka && pid !in s.publishers && 0 < now && IsInt64(now) && Admit(body, now).Some?
    case Append(pid) => pid in s.publishers && s.publishers[pid].pc == Publishing
    case PublishOk(pid) => pid in s.publishers && s.publishers[pid].pc == Appended
    case Accept(pid) => pid in s.publishers && s.publishers[pid].pc == Published
    case PublishFail(pid) => pid in s.publishers && s.publishers[pid].pc in {Publishing, Appended}
    case Foreign(_) => true
    case ReceiveDirect(hid, body, now) =>
      mode == Direct && hid !in s.handlers && hid !in s.alert.evals && Admit(body, now).Some?
    case ReadError => s.worker == Idle
    case Read => s.worker == Idle && s.offset < |s.log|
    case DecodeError => s.worker.Got? && s.worker.offset < |s.log| && Forwarded(s.log[s.worker.offset]).None?
    case BuildError => Holding(s)
    case SendLost => Holding(s)
    case Deliver(hid, offset, body, now) =>
      && s.worker == Got(offset) && offset < |s.log| && Forwarded(s.log[offset]) == Some(body)
      && hid !in s.handlers && hid !in s.alert.evals
    case Timeout => s.worker.Waiting? || s.worker == Refused
    case Reply =>
      s.worker == Refused
      || (s.worker.Waiting? && s.worker.hid in s.handlers && s.handlers[s.worker.hid].pc.Answered?)
    case WriteFail(hid, write) => hid in s.handlers && s.handlers[hid].pc == Writing && write != Written
    case WriteOk(hid, origin, sample) =>
      hid in s.handlers && s.handlers[hid] == Handler(origin, sample, Writing) && hid !in s.alert.evals
    case Alert(e) => !e.op.Begin? && A.Enabled(cfg, s.alert, e)
    case Finish(hid) =>
      hid in s.handlers && s.handlers[hid].pc == Evaluating
      && hid in s.alert.evals && s.alert.evals[hid].pc == A.Done
  }

  /** Every write is counted under its result. */
  function CountWrite(c: Counters, write: VmWrite): Counters {
    match write
    case BuildFailed => c.(writesUnbuilt := c.writesUnbuilt + 1)
    case TransportFailed => c.(writesFailed := c.writesFailed + 1)
    case Non2xx => c.(writesNon2xx := c.writesNon2xx + 1)
    case Written => c.(writesOk := c.writesOk + 1)
  }

  /** The handler counts its answer under its entrance. */
  function CountAnswer(c: Counters, origin: Origin, ok: bool): Counters {
    if origin.Client? then if ok then c.(directOk := c.directOk + 1) else c.(directErrors := c.directErrors + 1)
    else if ok then c.(processOk := c.processOk + 1) else c.(processErrors := c.processErrors + 1)
  }

  /** The counters an evaluation step increments. Recovery notifications are not counted. */
  function CountAlert(c: Counters, s: A.State, e: A.Event): Counters {
    match e.op
    case Notify(_, result) =>
      if e.eid in s.evals && s.evals[e.eid].pc == A.Granted then
        if result.Sent? then c.(p0Sent := c.p0Sent + 1) else c.(p0Failed := c.p0Failed + 1)
      else c
    case Save(record, saved) =>
      if record.level == P0 then
        if saved then c.(p0Saved := c.p0Saved + 1) else c.(p0SaveFailed := c.p0SaveFailed + 1)
      else
        if saved then c.(recoverySaved := c.recoverySaved + 1) else c.(recoverySaveFailed := c.recoverySaveFailed + 1)
    case _ => c
  }

  function Apply(cfg: Config, mode: Mode, s: Sys, e: Event): Sys
    requires Enabled(cfg, mode, s, e)
  {
    var w, c := s.work, s.ctr;
    match e
    case BadRequest => s.(ctr := c.(directBad := c.directBad + 1))
    case Publish(pid, body, now) =>
      s.(publishers := s.publishers[pid := Publisher(Admit(body, now).value, Publishing)])
    case Append(pid) =>
      var p := s.publishers[pid];
      s.(publishers := s.publishers[pid := p.(pc := Appended)], log := s.log + [Encode(EVENT_NAMES, p.sample)])
    case PublishOk(pid) =>
      s.(publishers := s.publishers[pid := s.publishers[pid].(pc := Published)],
         ctr := c.(publishOk := c.publishOk + 1))
    case Accept(pid) =>
      s.(publishers := s.publishers[pid := s.publishers[pid].(pc := Closed)],
         ctr := c.(accepted := c.accepted + 1))
    case PublishFail(pid) =>
      s.(publishers := s.publishers[pid := s.publishers[pid].(pc := Closed)],
         ctr := c.(publishErrors := c.publishErrors + 1, kafkaErrors := c.kafkaErrors + 1))
    case Foreign(message) => s.(log := s.log + [message])
    case ReceiveDirect(hid, body, now) =>
      s.(handlers := s.handlers[hid := Handler(Client, Admit(body, now).value, Writing)])
    case ReadError => s.(work := w.(readErrors := w.readErrors + 1))
    case Read => s.(worker := Got(s.offset), offset := s.offset + 1, work := w.(readOk := w.readOk + 1))
    case DecodeError => s.(worker := Idle, work := w.(decodeErrors := w.decodeErrors + 1))
    case BuildError => s.(worker := Idle, work := w.(buildErrors := w.buildErrors + 1))
    case SendLost => s.(worker := Idle, work := w.(forwardErrors := w.forwardErrors + 1))
    case Deliver(hid, offset, body, now) =>
      (match Admit(body, now)
       case None => s.(worker := Refused, ctr := c.(processBad := c.processBad + 1))
       case Some(sample) =>
         s.(worker := Waiting(hid),
            handlers := s.handlers[hid := Handler(Topic(offset), sample, Writing)]))
    case Timeout => s.(worker := Idle, work := w.(forwardErrors := w.forwardErrors + 1))
    case Reply =>
      if s.worker == Refused then s.(worker := Idle, work := w.(non2xx := w.non2xx + 1))
      else
        var h := s.handlers[s.worker.hid];
        s.(worker := Idle,
           handlers := s.handlers[s.worker.hid := h.(pc := Answered(h.pc.ok, true))],
           work := if h.pc.ok then w.(forwardOk := w.forwardOk + 1) else w.(non2xx := w.non2xx + 1))
    case WriteFail(hid, write) =>
      var h := s.handlers[hid];
      var c := CountWrite(c, write);
      s.(handlers := s.handlers[hid := h.(pc := Answered(false, false))],
         ctr := CountAnswer(c, h.origin, false))
    case WriteOk(hid, _, sample) =>
      s.(handlers := s.handlers[hid := s.handlers[hid].(pc := Evaluating)],
         alert := A.Apply(cfg, s.alert, A.Event(hid, sample.machine, A.Begin(sample))),
         ctr := CountWrite(c, Written))
    case Alert(e) => s.(alert := A.Apply(cfg, s.alert, e), ctr := CountAlert(c, s.alert, e))
    case Finish(hid) =>
      var h := s.handlers[hid];
      s.(handlers := s.handlers[hid := h.(pc := Answered(true, false))],
         ctr := CountAnswer(c, h.origin, true))
  }

  type Run = seq<Event>

  function Exec(cfg: Config, mode: Mode, run: Run): Option<Sys> {
    if run == [] then Some(INIT)
    else
      var before := Exec(cfg, mode, run[..|run|-1]);
      var e := run[|run|-1];
      if before.Some? && Enabled(cfg, mode, before.value, e) then Some(Apply(cfg, mode, before.value, e)) else None
  }

  ghost predicate Valid(cfg: Config, mode: Mode, run: Run) { Exec(cfg, mode, run).Some? }

  function After(cfg: Config, mode: Mode, run: Run): Sys
    requires Valid(cfg, mode, run)
  {
    Exec(cfg, mode, run).value
  }

  // ---- What every reachable state keeps -------------------------------------------------------

  /** The worker is never ahead of the topic, and the handler it waits for is still unread. */
  ghost predicate WorkerConsistent(s: Sys) {
    && s.offset <= |s.log|
    && (s.worker.Got? ==> s.worker.offset + 1 == s.offset)
    && (s.worker.Waiting? ==>
          && s.worker.hid in s.handlers && s.handlers[s.worker.hid].origin.Topic?
          && (s.handlers[s.worker.hid].pc.Answered? ==> !s.handlers[s.worker.hid].pc.collected))
  }

  /** Every evaluation belongs to the handler of its number, which waits for it. */
  ghost predicate EvalsConsistent(s: Sys) {
    && (forall hid :: hid in s.handlers && s.handlers[hid].pc == Evaluating ==> hid in s.alert.evals)
    && (forall hid :: hid in s.alert.evals ==>
          && hid in s.handlers && s.handlers[hid].sample == s.alert.evals[hid].sample
          && (s.alert.evals[hid].pc != A.Done ==> s.handlers[hid].pc == Evaluating))
  }

  lemma WorkerConsistentStep(cfg: Config, mode: Mode, s: Sys, e: Event)
    requires WorkerConsistent(s) && Enabled(cfg, mode, s, e)
    ensures WorkerConsistent(Apply(cfg, mode, s, e))
  {
  }

  /** Events that touch neither evaluations nor the handlers that run them. */
  predicate LeavesEvals(s: Sys, s': Sys) {
    && s'.alert == s.alert
    && (forall hid :: hid in s.handlers ==> hid in s'.handlers && s'.handlers[hid].sample == s.handlers[hid].sample)
    && (forall hid :: hid in s'.handlers ==>
          (s'.handlers[hid].pc == Evaluating <==> hid in s.handlers && s.handlers[hid].pc == Evaluating))
  }

  lemma LeavesEvalsStep(cfg: Config, mode: Mode, s: Sys, e: Event)
    requires Enabled(cfg, mode, s, e) && !e.WriteOk? && !e.Alert? && !e.Finish?
    ensures LeavesEvals(s, Apply(cfg, mode, s, e))
  {
  }

  lemma LeavingKeepsEvals(s: Sys, s': Sys)
    requires EvalsConsistent(s) && LeavesEvals(s, s')
    ensures EvalsConsistent(s')
  {
  }

  /** A handler begins its evaluation, or answers after it. */
  lemma HandlerKeepsEvals(cfg: Config, mode: Mode, s: Sys, e: Event)
    requires EvalsConsistent(s) && Enabled(cfg, mode, s, e) && (e.WriteOk? || e.Finish?)
    ensures EvalsConsistent(Apply(cfg, mode, s, e))
  {
  }

  lemma AlertKeepsEvals(cfg: Config, mode: Mode, s: Sys, e: Event)
    requires EvalsConsistent(s) && Enabled(cfg, mode, s, e) && e.Alert?
    ensures EvalsConsistent(Apply(cfg, mode, s, e))
  {
  }

  lemma EvalsConsistentStep(cfg: Config, mode: Mode, s: Sys, e: Event)
    requires EvalsConsistent(s) && Enabled(cfg, mode, s, e)
    ensures EvalsConsistent(Apply(cfg, mode, s, e))
  {
    if e.WriteOk? || e.Finish? {
      HandlerKeepsEvals(cfg, mode, s, e);
    } else if e.Alert? {
      AlertKeepsEvals(cfg, mode, s, e);
    } else {
      var s' := Apply(cfg, mode, s, e);
      LeavesEvalsStep(cfg, mode, s, e);
      LeavingKeepsEvals(s, s');
    }
  }

  lemma {:induction false} AlwaysConsistent(cfg: Config, mode: Mode, run: Run)
    requires Valid(cfg, mode, run)
    ensures WorkerConsistent(After(cfg, mode, run)) && EvalsConsistent(After(cfg, mode, run))
  {
    if run != [] {
      var front := run[..|run|-1];
      AlwaysConsistent(cfg, mode, front);
      WorkerConsistentStep(cfg, mode, After(cfg, mode, front), run[|run|-1]);
      EvalsConsistentStep(cfg, mode, After(cfg, mode, front), run[|run|-1]);
    }
  }
}
