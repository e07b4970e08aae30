// Server, topic and worker as the objects they are, one call at a time, against the specifications
// the concurrent pipeline realises.

module Service {
  import opened AlertModel
  import opened AlertStore
  import opened Evaluation
  import opened Wire
  import opened Pipeline
  import opened Deployment
  import opened Realisation
  import Exposition
  import Ledger

  /** A message as the writer hands it to the topic. */
  datatype Message = Message(key: MachineId, value: Body, time: int, headers: map<string, string>)

  function Values(messages: seq<Message>): seq<Body> {
    seq(|messages|, i requires 0 <= i < |messages| => messages[i].value)
  }

  /** What a publish reads from outside: the clock and the tracing context. */
  datatype Stamp = Stamp(time: int, headers: map<string, string>)

  class KafkaPublisher {
    var messages: seq<Message>

    ghost function Log(): seq<Body>
      reads this
    {
      Values(messages)
    }

    constructor ()
      ensures messages == []
    {
      messages := [];
    }

    /** The message is keyed by machine id, but the writer has no balancer: nothing is promised
        about partitions, and this topic has one. */
    method PublishMetrics(s: Sample, stamp: Stamp, result: PublishResult) returns (ok: bool)
      modifies this
      ensures ok == result.Acknowledged?
      ensures messages == old(messages) +
              if ok || result.appended then [Message(s.machine, Encode(EVENT_NAMES, s), stamp.time, stamp.headers)]
              else []
      ensures Log() == old(Log()) + AppendedBy(s, result)
      ensures ok ==>
                && |messages| == |old(messages)| + 1
                && messages[|old(messages)|].key == s.machine
                && messages[|old(messages)|].value ==
                   Object(map["MachineID" := Str(s.machine), "IP" := Str(s.ip), "CPUUsage" := Num(s.cpu),
                              "MemUsage" := Num(s.mem), "DiskUsage" := Num(s.disk),
                              "Timestamp" := Num(s.timestamp as real)])
    {
      if result.Acknowledged? || result.appended {
        messages := messages + [Message(s.machine, Encode(EVENT_NAMES, s), stamp.time, stamp.headers)];
      }
      return result.Acknowledged?;
    }
  }

  /** The texts posted to the time series database for one sample. */
  function Posted(s: Sample, write: VmWrite): seq<string> {
    if write == BuildFailed then [] else [Exposition.Render(Exposition.EntryOf(s))]
  }

  /** The text has the three lines of the sample and, unless a label needs escaping, a reader
      learns the sample from it. */
  ghost predicate IsTextOf(text: string, s: Sample) {
    && (exists cpu, mem, disk, millis :: Exposition.Formats(text, s, cpu, mem, disk, millis))
    && (Exposition.Clean(s.machine) && Exposition.Clean(s.ip) ==> Exposition.Tells(text, s))
  }

  /** What ProcessMetricsPayload posts: nothing, or one text that is the sample's. */
  lemma PostedTells(s: Sample, write: VmWrite)
    ensures if write == BuildFailed then Posted(s, write) == []
            else |Posted(s, write)| == 1 && IsTextOf(Posted(s, write)[0], s)
  {
    Exposition.SampleTextFormat(s);
    if Exposition.Clean(s.machine) && Exposition.Clean(s.ip) {
      Exposition.SampleTextIsDecodable(s);
    }
  }

  class Server {
    const cfg: Config
    const mode: Mode
    const store: MemoryAlertStateStore
    const publisher: KafkaPublisher
    var posts: seq<string>
    var rows: seq<Record>
    var ctr: Counters

    ghost function Alerts(): AlertState
      reads this, store
    {
      AlertState(store.Model(), rows)
    }

    /** The deployment this server is part of, given where its worker stands. */
    ghost function Part(offset: nat, work: WorkerCounters): Snapshot
      reads this, store, publisher
    {
      Snapshot(publisher.Log(), offset, Alerts(), work, ctr)
    }

    constructor (cfg: Config, mode: Mode)
      ensures this.cfg == cfg && this.mode == mode && fresh(store) && fresh(publisher)
      ensures Part(0, NO_WORK) == FRESH && posts == []
      ensures Reachable(cfg, mode, Part(0, NO_WORK), 0)
    {
      this.cfg := cfg;
      this.mode := mode;
      store := new MemoryAlertStateStore();
      publisher := new KafkaPublisher();
      posts := [];
      rows := [];
      ctr := ZERO;
      new;
      FreshIsReachable(cfg, mode);
    }

    /** The counters follow the effect: a row is counted as what the database did with it. */
    method SaveAlertEventObserved(r: Record, saved: bool)
      modifies this`rows, this`ctr
      ensures rows == old(rows) + if saved then [r] else []
      ensures r.level == P0 ==>
                ctr == if saved then old(ctr).(p0Saved := old(ctr).p0Saved + 1)
                       else old(ctr).(p0SaveFailed := old(ctr).p0SaveFailed + 1)
      ensures r.level == Recovery ==>
                ctr == if saved then old(ctr).(recoverySaved := old(ctr).recoverySaved + 1)
                       else old(ctr).(recoverySaveFailed := old(ctr).recoverySaveFailed + 1)
    {
      if saved {
        rows := rows + [r];
        ctr := if r.level == P0 then ctr.(p0Saved := ctr.p0Saved + 1) else ctr.(recoverySaved := ctr.recoverySaved + 1);
      } else {
        ctr := if r.level == P0 then ctr.(p0SaveFailed := ctr.p0SaveFailed + 1)
               else ctr.(recoverySaveFailed := ctr.recoverySaveFailed + 1);
      }
    }

    method EvaluateCPUAlert(s: Sample, env: Env)
      modifies this`rows, this`ctr, store
      ensures var v := Evaluate(cfg, old(store.Model()), s, env);
              && Alerts() == AlertState(v.store, old(rows) + SavedRows(v.attempt))
              && ctr == Tally(old(ctr), v.attempt)
      ensures env.Faultless() ==> InPlainTerms(cfg, old(store.Model()), old(rows), s, env, store.Model(), rows)
    {
      var m := s.machine;
      if s.cpu > cfg.threshold {
        if env.inc == Error(false) {
          return;
        }
        var count := store.IncrementCPUBreach(m);
        if env.inc.Error? {
          return;
        }
        if count >= cfg.triggerCount {
          if env.acquire == Error(false) {
            return;
          }
          var acquired := store.TryAcquireCooldown(m, cfg.Cooldown(), env.now);
          if env.acquire.Error? {
            return;
          }
          if acquired {
            var record := AlertRecord(cfg, s, env.notified, env.at);
            if env.notified.Sent? {
              ctr := ctr.(p0Sent := ctr.p0Sent + 1);
            } else {
              ctr := ctr.(p0Failed := ctr.p0Failed + 1);
            }
            SaveAlertEventObserved(record, env.saved);
          }
        }
        return;
      }
      if env.get.Error? {
        return;
      }
      var prev := store.GetCPUBreachCount(m);
      if env.reset == Error(false) {
        return;
      }
      store.ResetCPUBreach(m);
      if env.reset.Error? {
        return;
      }
      if prev > 0 {
        SaveAlertEventObserved(RecoveryRecord(cfg, s, prev, env.at), env.saved);
      }
    }

    method ProcessMetricsPayload(s: Sample, write: VmWrite, env: Env) returns (ok: bool)
      modifies this, store
      ensures ok == (write == Written)
      ensures posts == old(posts) + Posted(s, write)
      ensures Alerts() == Processed(cfg, old(Alerts()), s, write, env)
      ensures ctr == Counted(cfg, old(ctr), old(store.Model()), s, write, env)
    {
      if write == BuildFailed {
        ctr := ctr.(writesUnbuilt := ctr.writesUnbuilt + 1);
        return false;
      }
      posts := posts + [Exposition.Render(Exposition.EntryOf(s))];
      if write == TransportFailed {
        ctr := ctr.(writesFailed := ctr.writesFailed + 1);
        return false;
      }
      if write == Non2xx {
        ctr := ctr.(writesNon2xx := ctr.writesNon2xx + 1);
        return false;
      }
      ctr := ctr.(writesOk := ctr.writesOk + 1);
      EvaluateCPUAlert(s, env);
      return true;
    }

    /** The worker's entrance: always processes, never publishes. */
    method HandleProcess(r: Request) returns (status: nat)
      modifies this, store
      ensures status == if Admit(r.body, r.now).None? then 400 else if r.write == Written then 200 else 500
      ensures posts == old(posts) + match Admit(r.body, r.now) { case None => [] case Some(s) => Posted(s, r.write) }
      ensures Alerts() == Served(cfg, old(Alerts()), r)
      ensures ctr == CountProcess(cfg, old(ctr), old(store.Model()), r)
    {
      var sample := Admit(r.body, r.now);
      if sample.None? {
        ctr := ctr.(processBad := ctr.processBad + 1);
        return 400;
      }
      var ok := ProcessMetricsPayload(sample.value, r.write, r.env);
      if !ok {
        ctr := ctr.(processErrors := ctr.processErrors + 1);
        return 500;
      }
      ctr := ctr.(processOk := ctr.processOk + 1);
      return 200;
    }

    /** A client's request in Kafka mode, once admitted: it is only published. */
    method PublishAdmitted(s: Sample, stamp: Stamp, publish: PublishResult) returns (status: nat)
      modifies this`ctr, publisher
      ensures status == if publish.Acknowledged? then 202 else 500
      ensures publisher.Log() == old(publisher.Log()) + AppendedBy(s, publish)
      ensures ctr == CountPublish(old(ctr), publish)
    {
      var published := publisher.PublishMetrics(s, stamp, publish);
      if !published {
        ctr := ctr.(publishErrors := ctr.publishErrors + 1, kafkaErrors := ctr.kafkaErrors + 1);
        return 500;
      }
      ctr := ctr.(publishOk := ctr.publishOk + 1);
      ctr := ctr.(accepted := ctr.accepted + 1);
      return 202;
    }

    /** A client's request in Direct mode, once admitted: it is processed. */
    method ProcessAdmitted(s: Sample, write: VmWrite, env: Env) returns (status: nat)
      modifies this, store
      ensures status == if write == Written then 200 else 500
      ensures posts == old(posts) + Posted(s, write)
      ensures Alerts() == Processed(cfg, old(Alerts()), s, write, env)
      ensures ctr == CountAnswer(Counted(cfg, old(ctr), old(store.Model()), s, write, env), Client, write == Written)
    {
      var ok := ProcessMetricsPayload(s, write, env);
      if !ok {
        ctr := ctr.(directErrors := ctr.directErrors + 1);
        return 500;
      }
      ctr := ctr.(directOk := ctr.directOk + 1);
      return 200;
    }

    /** The clients' entrance: Direct mode processes, Kafka mode only publishes. A deployment that
        realises a run of the pipeline goes on to realise one. */
    method HandleMetrics(r: Request, stamp: Stamp, publish: PublishResult) returns (status: nat)
      modifies this, store, publisher
      ensures Admit(r.body, r.now).None? ==> status == 400
      ensures Admit(r.body, r.now).Some? ==>
                status == if mode == Kafka then (if publish.Acknowledged? then 202 else 500)
                          else (if r.write == Written then 200 else 500)
      ensures posts == old(posts) +
              if mode == Kafka || Admit(r.body, r.now).None? then [] else Posted(Admit(r.body, r.now).value, r.write)
      ensures forall offset, work :: Part(offset, work) == AfterMetrics(cfg, mode, old(Part(offset, work)), r, publish)
      ensures forall offset, work, clock ::
                old(Reachable(cfg, mode, Part(offset, work), clock)) && MetricsTimely(mode, clock, r) ==>
                Reachable(cfg, mode, Part(offset, work), MetricsClock(mode, clock, r))
    {
      forall offset, work, clock | Reachable(cfg, mode, Part(offset, work), clock) && MetricsTimely(mode, clock, r)
        ensures Reachable(cfg, mode, AfterMetrics(cfg, mode, Part(offset, work), r, publish),
                          MetricsClock(mode, clock, r))
      {
        MetricsIsRun(cfg, mode, Part(offset, work), clock, r, publish);
      }
      var sample := Admit(r.body, r.now);
      if sample.None? {
        ctr := ctr.(directBad := ctr.directBad + 1);
        status := 400;
      } else if mode == Kafka {
        status := PublishAdmitted(sample.value, stamp, publish);
      } else {
        status := ProcessAdmitted(sample.value, r.write, r.env);
      }
    }
  }

  class Worker {
    var offset: nat
    var ctr: WorkerCounters

    constructor ()
      ensures offset == 0 && ctr == NO_WORK
    {
      offset, ctr := 0, NO_WORK;
    }

    /** The deployment of this worker with a topic and a server. */
    ghost function Deployed(topic: KafkaPublisher, server: Server): Snapshot
      reads this, topic, server, server.store
    {
      Snapshot(topic.Log(), offset, server.Alerts(), ctr, server.ctr)
    }

    /** One request to the process entrance. Without an answer it counts as an error, although
        the server may have handled it. */
    method Forward(server: Server, r: Request, transport: Transport)
      modifies this`ctr, server, server.store
      ensures server.Alerts() ==
              if transport == NotSent then old(server.Alerts()) else Served(server.cfg, old(server.Alerts()), r)
      ensures server.ctr ==
              if transport == NotSent then old(server.ctr)
              else CountProcess(server.cfg, old(server.ctr), old(server.store.Model()), r)
      ensures var served := r.write == Written && Admit(r.body, r.now).Some?;
              ctr == if transport != SentAnswered then old(ctr).(forwardErrors := old(ctr).forwardErrors + 1)
                     else if served then old(ctr).(forwardOk := old(ctr).forwardOk + 1)
                     else old(ctr).(non2xx := old(ctr).non2xx + 1)
    {
      if transport == NotSent {
        ctr := ctr.(forwardErrors := ctr.forwardErrors + 1);
        return;
      }
      var status := server.HandleProcess(r);
      if transport == SentUnanswered {
        ctr := ctr.(forwardErrors := ctr.forwardErrors + 1);
      } else if status < 200 || status >= 300 {
        ctr := ctr.(non2xx := ctr.non2xx + 1);
      } else {
        ctr := ctr.(forwardOk := ctr.forwardOk + 1);
      }
    }

    /** A message that was read has one outcome, counted once. */
    method HandleMessage(server: Server, message: Body, r: Round)
      requires r.Reads?
      modifies this`ctr, server, server.store
      ensures ctr == CountOutcome(old(ctr), OutcomeOf(message, r))
      ensures server.Alerts() ==
              if IsSent(message, r) then Served(server.cfg, old(server.Alerts()), RequestOf(message, r))
              else old(server.Alerts())
      ensures server.ctr ==
              if IsSent(message, r)
              then CountProcess(server.cfg, old(server.ctr), old(server.store.Model()), RequestOf(message, r))
              else old(server.ctr)
    {
      var body := Forwarded(message);
      if body.None? {
        ctr := ctr.(decodeErrors := ctr.decodeErrors + 1);
        return;
      }
      if r.buildFails {
        ctr := ctr.(buildErrors := ctr.buildErrors + 1);
        return;
      }
      Forward(server, Request(body.value, r.now, r.write, r.env), r.transport);
    }

    /** One round of the loop: nothing is retried, every way out moves on to the next message. */
    method Step(topic: KafkaPublisher, server: Server, r: Round)
      modifies this, server, server.store
      ensures Deployed(topic, server) == AfterRound(server.cfg, old(Deployed(topic, server)), r)
    {
      if r.ReadFails? {
        ctr := ctr.(readErrors := ctr.readErrors + 1);
        return;
      }
      if offset >= |topic.messages| {
        return;
      }
      var message := topic.messages[offset].value;
      offset := offset + 1;
      ctr := ctr.(readOk := ctr.readOk + 1);
      HandleMessage(server, message, r);
    }

    /** The loop of the worker for any number of rounds: the server's alert state becomes what a
        Direct-mode server makes of the delivered requests, the worker's books stay balanced,
        and a deployment that realises a run of the pipeline goes on to realise one, so its books
        close. */
    method Run(topic: KafkaPublisher, server: Server, rounds: seq<Round>)
      modifies this, server, server.store
      ensures Deployed(topic, server) == AfterRounds(server.cfg, old(Deployed(topic, server)), rounds)
      ensures server.Alerts() == ServedAll(server.cfg, old(server.Alerts()), Requests(topic.Log(), old(offset), rounds))
      ensures old(Balanced(Deployed(topic, server))) ==> Balanced(Deployed(topic, server))
      ensures forall clock ::
                old(Reachable(server.cfg, server.mode, Deployed(topic, server), clock))
                && old(RoundsTimely(server.cfg, Deployed(topic, server), clock, rounds)) ==>
                  && Reachable(server.cfg, server.mode, Deployed(topic, server),
                               old(RoundsClock(server.cfg, Deployed(topic, server), clock, rounds)))
                  && Ledger.BooksClose(topic.Log(), offset, ctr, server.ctr)
                  && |server.rows| == server.ctr.p0Saved + server.ctr.recoverySaved
    {
      ghost var d := Deployed(topic, server);
      var i := 0;
      while i < |rounds|
        invariant 0 <= i <= |rounds|
        invariant Deployed(topic, server) == AfterRounds(server.cfg, d, rounds[..i])
      {
        assert rounds[..i+1][..i] == rounds[..i];
        Step(topic, server, rounds[i]);
        i := i + 1;
      }
      assert rounds[..|rounds|] == rounds;
      RoundsServeRequests(server.cfg, d, rounds);
      RoundsReconcile(server.cfg, d, rounds);
      forall clock | Reachable(server.cfg, server.mode, d, clock) && RoundsTimely(server.cfg, d, clock, rounds)
        ensures Reachable(server.cfg, server.mode, Deployed(topic, server), RoundsClock(server.cfg, d, clock, rounds))
        ensures Ledger.BooksClose(topic.Log(), offset, ctr, server.ctr)
        ensures |server.rows| == server.ctr.p0Saved + server.ctr.recoverySaved
      {
        RoundsAreRun(server.cfg, server.mode, d, clock, rounds);
        ReachableBooksClose(server.cfg, server.mode, Deployed(topic, server),
                            RoundsClock(server.cfg, d, clock, rounds));
      }
    }
  }
}
