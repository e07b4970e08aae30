// Every call on the objects of a deployment is a stretch of steps of the concurrent pipeline.

module Realisation {
  import opened AlertModel
  import opened AlertStore
  import opened Evaluation
  import opened Wire
  import opened Pipeline
  import opened Deployment
  import A = Interleaving
  import Ledger
  import Steps

  /** A stretch of steps from s to s' in which the database takes these rows. */
  ghost predicate Takes(cfg: Config, mode: Mode, s: Sys, es: seq<Event>, s': Sys, rows: seq<Record>) {
    Steps.From(cfg, mode, s, es) == Some(s') && Ledger.SavedRows(es) == rows
  }

  lemma Join(cfg: Config, mode: Mode, s: Sys, a: seq<Event>, mid: Sys, rows: seq<Record>,
             b: seq<Event>, s': Sys, more: seq<Record>)
    requires Takes(cfg, mode, s, a, mid, rows) && Takes(cfg, mode, mid, b, s', more)
    ensures Takes(cfg, mode, s, a + b, s', rows + more)
  {
    Steps.Joined(cfg, mode, s, a, b);
  }

  lemma NoRows(e: Event)
    requires !e.Alert?
    ensures Ledger.SavedRows([e]) == []
  {
  }

  // ---- One evaluation -------------------------------------------------------------------------

  /** Evaluation hid has moved on to pc; nothing but the alert state and the alert counters changed. */
  ghost predicate Moved(s: Sys, s': Sys, hid: nat, sample: Sample, pc: A.Pc, store: Mem, clock: int, c: Counters) {
    s' == Sys(s.log, s.offset, s.worker, s.publishers, s.handlers,
              A.State(store, clock, s.alert.evals[hid := A.Eval(sample, pc)]), s.work, c)
  }

  lemma MovedTwice(s: Sys, mid: Sys, s': Sys, hid: nat, sample: Sample, pc: A.Pc, store: Mem, clock: int, c: Counters,
                   pc': A.Pc, store': Mem, clock': int, c': Counters)
    requires Moved(s, mid, hid, sample, pc, store, clock, c) && Moved(mid, s', hid, sample, pc', store', clock', c')
    ensures Moved(s, s', hid, sample, pc', store', clock', c')
  {
    assert s.alert.evals[hid := A.Eval(sample, pc)][hid := A.Eval(sample, pc')] ==
           s.alert.evals[hid := A.Eval(sample, pc')];
  }

  /** The row an evaluation saves when it has a grant or has cleared a run. */
  function RowOf(cfg: Config, sample: Sample, pc: A.Pc, env: Env): Record {
    if pc.Cleared? then RecoveryRecord(cfg, sample, pc.prev, env.at) else AlertRecord(cfg, sample, env.notified, env.at)
  }

  /** Notify and save. */
  lemma Reports(cfg: Config, mode: Mode, s: Sys, hid: nat, sample: Sample, pc: A.Pc, env: Env)
    returns (es: seq<Event>, s': Sys)
    requires hid in s.alert.evals && s.alert.evals[hid] == A.Eval(sample, pc) && (pc == A.Granted || pc.Cleared?)
    requires s.alert.clock <= env.at
    ensures var a := Attempt(RowOf(cfg, sample, pc, env), env.saved);
            && Takes(cfg, mode, s, es, s', Deployment.SavedRows(Some(a)))
            && Moved(s, s', hid, sample, A.Done, s.alert.store, env.at, Tally(s.ctr, Some(a)))
  {
    var row := RowOf(cfg, sample, pc, env);
    var notify := A.Event(hid, sample.machine, A.Notify(env.at, env.notified));
    var mid := Steps.AlertStep(cfg, mode, s, notify, A.Eval(sample, pc));
    var save := A.Event(hid, sample.machine, A.Save(row, env.saved));
    s' := Steps.AlertStep(cfg, mode, mid, save, A.Eval(sample, A.Saving(row)));
    Join(cfg, mode, s, [Alert(notify)], mid, [], [Alert(save)], s', if env.saved then [row] else []);
    es := [Alert(notify)] + [Alert(save)];
    MovedTwice(s, mid, s', hid, sample, A.Saving(row), s.alert.store, env.at, mid.ctr,
               A.Done, s.alert.store, env.at, s'.ctr);
  }

  lemma Increments(cfg: Config, mode: Mode, s: Sys, hid: nat, sample: Sample) returns (e: Event, s': Sys)
    requires hid in s.alert.evals && s.alert.evals[hid] == A.Eval(sample, A.Started) && sample.Breach(cfg)
    ensures Takes(cfg, mode, s, [e], s', [])
    ensures var counted := s.alert.store.Inc(sample.machine);
            Moved(s, s', hid, sample, if counted.Count(sample.machine) >= cfg.triggerCount then A.Counted else A.Done,
                  counted, s.alert.clock, s.ctr)
  {
    var m := sample.machine;
    var inc := A.Event(hid, m, A.Inc(s.alert.store.Count(m) + 1));
    s' := Steps.AlertStep(cfg, mode, s, inc, A.Eval(sample, A.Started));
    e := Alert(inc);
  }

  lemma Acquires(cfg: Config, mode: Mode, s: Sys, hid: nat, sample: Sample, now: int) returns (e: Event, s': Sys)
    requires hid in s.alert.evals && s.alert.evals[hid] == A.Eval(sample, A.Counted) && s.alert.clock <= now
    ensures Takes(cfg, mode, s, [e], s', [])
    ensures Moved(s, s', hid, sample, if s.alert.store.Open(sample.machine, now) then A.Granted else A.Done,
                  s.alert.store.Acquire(sample.machine, now, cfg.Cooldown()), now, s.ctr)
  {
    var acquire := A.Event(hid, sample.machine, A.Acquire(now, s.alert.store.Open(sample.machine, now)));
    s' := Steps.AlertStep(cfg, mode, s, acquire, A.Eval(sample, A.Counted));
    e := Alert(acquire);
  }

  lemma Clears(cfg: Config, mode: Mode, s: Sys, hid: nat, sample: Sample) returns (es: seq<Event>, s': Sys)
    requires hid in s.alert.evals && s.alert.evals[hid] == A.Eval(sample, A.Started) && !sample.Breach(cfg)
    ensures Takes(cfg, mode, s, es, s', [])
    ensures var prev := s.alert.store.Count(sample.machine);
            Moved(s, s', hid, sample, if prev > 0 then A.Cleared(prev) else A.Done,
                  s.alert.store.Clear(sample.machine), s.alert.clock, s.ctr)
  {
    var m := sample.machine;
    var prev := s.alert.store.Count(m);
    var get, reset := A.Event(hid, m, A.Get(prev)), A.Event(hid, m, A.Reset);
    var mid := Steps.AlertStep(cfg, mode, s, get, A.Eval(sample, A.Started));
    s' := Steps.AlertStep(cfg, mode, mid, reset, A.Eval(sample, A.Seen(prev)));
    Join(cfg, mode, s, [Alert(get)], mid, [], [Alert(reset)], s', []);
    es := [Alert(get)] + [Alert(reset)];
    MovedTwice(s, mid, s', hid, sample, A.Seen(prev), s.alert.store, s.alert.clock, s.ctr,
               if prev > 0 then A.Cleared(prev) else A.Done, s.alert.store.Clear(m), s.alert.clock, s.ctr);
  }

  /** The clock of the store has not passed the readings of env, and no store call fails. */
  predicate Timely(clock: int, env: Env) { env.Faultless() && clock <= env.now <= env.at }

  /** A whole evaluation does what the sequential specification says. */
  ghost predicate Evaluated(cfg: Config, s: Sys, s': Sys, hid: nat, sample: Sample, env: Env) {
    var v := Evaluate(cfg, s.alert.store, sample, env);
    s'.alert.clock <= env.at && Moved(s, s', hid, sample, A.Done, v.store, s'.alert.clock, Tally(s.ctr, v.attempt))
  }

  lemma BreachEvaluates(cfg: Config, mode: Mode, s: Sys, hid: nat, sample: Sample, env: Env)
    returns (es: seq<Event>, s': Sys)
    requires hid in s.alert.evals && s.alert.evals[hid] == A.Eval(sample, A.Started) && sample.Breach(cfg)
    requires Timely(s.alert.clock, env)
    ensures Evaluated(cfg, s, s', hid, sample, env)
    ensures Takes(cfg, mode, s, es, s', Deployment.SavedRows(Evaluate(cfg, s.alert.store, sample, env).attempt))
  {
    var m := sample.machine;
    var counted := s.alert.store.Inc(m);
    var e;
    e, s' := Increments(cfg, mode, s, hid, sample);
    es := [e];
    if counted.Count(m) >= cfg.triggerCount {
      var mid := s';
      e, s' := Acquires(cfg, mode, mid, hid, sample, env.now);
      Join(cfg, mode, s, es, mid, [], [e], s', []);
      es := es + [e];
      var pc := if counted.Open(m, env.now) then A.Granted else A.Done;
      var acquired := counted.Acquire(m, env.now, cfg.Cooldown());
      MovedTwice(s, mid, s', hid, sample, A.Counted, counted, s.alert.clock, s.ctr, pc, acquired, env.now, s.ctr);
      if counted.Open(m, env.now) {
        es, s' := Granted(cfg, mode, s, es, s', hid, sample, env);
      }
    }
  }

  /** The rest of an evaluation that was granted the cooldown. */
  lemma Granted(cfg: Config, mode: Mode, s: Sys, es: seq<Event>, mid: Sys, hid: nat, sample: Sample, env: Env)
    returns (es': seq<Event>, s': Sys)
    requires Takes(cfg, mode, s, es, mid, []) && env.now <= env.at
    requires Moved(s, mid, hid, sample, A.Granted, mid.alert.store, env.now, s.ctr)
    ensures var a := Attempt(AlertRecord(cfg, sample, env.notified, env.at), env.saved);
            && Takes(cfg, mode, s, es', s', Deployment.SavedRows(Some(a)))
            && Moved(s, s', hid, sample, A.Done, mid.alert.store, env.at, Tally(s.ctr, Some(a)))
  {
    var more;
    more, s' := Reports(cfg, mode, mid, hid, sample, A.Granted, env);
    var a := Attempt(AlertRecord(cfg, sample, env.notified, env.at), env.saved);
    Join(cfg, mode, s, es, mid, [], more, s', Deployment.SavedRows(Some(a)));
    assert [] + Deployment.SavedRows(Some(a)) == Deployment.SavedRows(Some(a));
    es' := es + more;
    MovedTwice(s, mid, s', hid, sample, A.Granted, mid.alert.store, env.now, s.ctr,
               A.Done, mid.alert.store, env.at, s'.ctr);
  }

  lemma ClearEvaluates(cfg: Config, mode: Mode, s: Sys, hid: nat, sample: Sample, env: Env)
    returns (es: seq<Event>, s': Sys)
    requires hid in s.alert.evals && s.alert.evals[hid] == A.Eval(sample, A.Started) && !sample.Breach(cfg)
    requires Timely(s.alert.clock, env)
    ensures Evaluated(cfg, s, s', hid, sample, env)
    ensures Takes(cfg, mode, s, es, s', Deployment.SavedRows(Evaluate(cfg, s.alert.store, sample, env).attempt))
  {
    var prev := s.alert.store.Count(sample.machine);
    es, s' := Clears(cfg, mode, s, hid, sample);
    if prev > 0 {
      var mid, first := s', es;
      var more;
      more, s' := Reports(cfg, mode, mid, hid, sample, A.Cleared(prev), env);
      var a := Attempt(RecoveryRecord(cfg, sample, prev, env.at), env.saved);
      Join(cfg, mode, s, first, mid, [], more, s', Deployment.SavedRows(Some(a)));
      assert [] + Deployment.SavedRows(Some(a)) == Deployment.SavedRows(Some(a));
      es := first + more;
      MovedTwice(s, mid, s', hid, sample, A.Cleared(prev), mid.alert.store, s.alert.clock, s.ctr,
                 A.Done, mid.alert.store, env.at, s'.ctr);
    }
  }

  // ---- One handler ----------------------------------------------------------------------------

  /** The rows the database takes while a sample is processed. */
  function RowsOf(cfg: Config, store: Mem, sample: Sample, write: VmWrite, env: Env): seq<Record> {
    if write == Written then Deployment.SavedRows(Evaluate(cfg, store, sample, env).attempt) else []
  }

  /** Handler hid, which was about to write, has answered. */
  ghost predicate Answers(cfg: Config, s: Sys, s': Sys, hid: nat, h: Handler, write: VmWrite, env: Env) {
    var ok := write == Written;
    && s'.log == s.log && s'.offset == s.offset && s'.worker == s.worker && s'.publishers == s.publishers
    && s'.work == s.work
    && s'.handlers == s.handlers[hid := Handler(h.origin, h.sample, Answered(ok, false))]
    && s'.alert.store == (if ok then Evaluate(cfg, s.alert.store, h.sample, env).store else s.alert.store)
    && s'.alert.clock <= (if ok then env.at else s.alert.clock)
    && s'.alert.evals == (if ok then s.alert.evals[hid := A.Eval(h.sample, A.Done)] else s.alert.evals)
    && s'.ctr == CountAnswer(Counted(cfg, s.ctr, s.alert.store, h.sample, write, env), h.origin, ok)
  }

  /** Write, evaluate and answer. */
  lemma Handles(cfg: Config, mode: Mode, s: Sys, hid: nat, h: Handler, write: VmWrite, env: Env)
    returns (es: seq<Event>, s': Sys)
    requires hid in s.handlers && s.handlers[hid] == h && h.pc == Writing && hid !in s.alert.evals
    requires write == Written ==> Timely(s.alert.clock, env)
    ensures Takes(cfg, mode, s, es, s', RowsOf(cfg, s.alert.store, h.sample, write, env))
    ensures Answers(cfg, s, s', hid, h, write, env)
  {
    if write == Written {
      es, s' := HandlesWritten(cfg, mode, s, hid, h, env);
    } else {
      s' := Steps.WriteFailStep(cfg, mode, s, hid, h, write);
      es := [WriteFail(hid, write)];
      NoRows(es[0]);
    }
  }

  lemma Evaluates(cfg: Config, mode: Mode, s: Sys, hid: nat, sample: Sample, env: Env) returns (es: seq<Event>, s': Sys)
    requires hid in s.alert.evals && s.alert.evals[hid] == A.Eval(sample, A.Started) && Timely(s.alert.clock, env)
    ensures Evaluated(cfg, s, s', hid, sample, env)
    ensures Takes(cfg, mode, s, es, s', Deployment.SavedRows(Evaluate(cfg, s.alert.store, sample, env).attempt))
  {
    if sample.Breach(cfg) {
      es, s' := BreachEvaluates(cfg, mode, s, hid, sample, env);
    } else {
      es, s' := ClearEvaluates(cfg, mode, s, hid, sample, env);
    }
  }

  lemma HandlesWritten(cfg: Config, mode: Mode, s: Sys, hid: nat, h: Handler, env: Env)
    returns (es: seq<Event>, s': Sys)
    requires hid in s.handlers && s.handlers[hid] == h && h.pc == Writing && hid !in s.alert.evals
    requires Timely(s.alert.clock, env)
    ensures Takes(cfg, mode, s, es, s', RowsOf(cfg, s.alert.store, h.sample, Written, env))
    ensures Answers(cfg, s, s', hid, h, Written, env)
  {
    var written := Steps.WriteOkStep(cfg, mode, s, hid, h);
    var write := WriteOk(hid, h.origin, h.sample);
    NoRows(write);
    var evaluation, evaluated := Evaluates(cfg, mode, written, hid, h.sample, env);
    var rows := RowsOf(cfg, s.alert.store, h.sample, Written, env);
    Join(cfg, mode, s, [write], written, [], evaluation, evaluated, rows);
    s' := Steps.FinishStep(cfg, mode, evaluated, hid, Handler(h.origin, h.sample, Evaluating));
    NoRows(Finish(hid));
    Join(cfg, mode, s, [write] + evaluation, evaluated, [] + rows, [Finish(hid)], s', []);
    assert [] + rows + [] == rows;
    es := [write] + evaluation + [Finish(hid)];
  }

  // ---- What the objects hold is a state of the pipeline ---------------------------------------

  /** A state at rest that holds what the objects hold. */
  ghost predicate Shows(s: Sys, d: Snapshot, clock: int) {
    && s.log == d.log && s.offset == d.offset && s.alert.store == d.alerts.store
    && s.work == d.work && s.ctr == d.ctr && s.alert.clock <= clock
    && Ledger.AtRest(s)
  }

  /** From a state that shows d, these steps lead to one that shows d', rows included. */
  ghost predicate Performs(cfg: Config, mode: Mode, s: Sys, d: Snapshot, es: seq<Event>, d': Snapshot, clock: int) {
    var end := Steps.From(cfg, mode, s, es);
    end.Some? && Shows(end.value, d', clock) && d'.alerts.rows == d.alerts.rows + Ledger.SavedRows(es)
  }

  lemma {:induction false} Above(keys: set<nat>) returns (n: nat)
    ensures forall k :: k in keys ==> k < n
  {
    if keys == {} {
      n := 0;
    } else {
      var k :| k in keys;
      var m := Above(keys - {k});
      n := if m > k then m else k + 1;
      forall j | j in keys ensures j < n {
        if j != k {
          assert j in keys - {k};
        }
      }
    }
  }

  predicate Admits(r: Request) { r.write == Written && Admit(r.body, r.now).Some? }

  /** The readings of an evaluated request come after clock, which then stands at the last one. */
  predicate RequestTimely(clock: int, r: Request) { Admits(r) ==> Timely(clock, r.env) }

  function RequestClock(clock: int, r: Request): int { if Admits(r) then r.env.at else clock }

  /** A client's request from its arrival to its answer. */
  lemma Reception(cfg: Config, s: Sys, hid: nat, r: Request, sample: Sample)
    returns (es: seq<Event>, mid: Sys, s': Sys)
    requires hid !in s.handlers && hid !in s.alert.evals && Admit(r.body, r.now) == Some(sample)
    requires RequestTimely(s.alert.clock, r)
    ensures mid == Sys(s.log, s.offset, s.worker, s.publishers, s.handlers[hid := Handler(Client, sample, Writing)],
                       s.alert, s.work, s.ctr)
    ensures Answers(cfg, mid, s', hid, Handler(Client, sample, Writing), r.write, r.env)
    ensures Takes(cfg, Direct, s, es, s', RowsOf(cfg, s.alert.store, sample, r.write, r.env))
  {
    var receive := ReceiveDirect(hid, r.body, r.now);
    var rows := RowsOf(cfg, s.alert.store, sample, r.write, r.env);
    mid := Steps.ReceiveStep(cfg, s, hid, r.body, r.now, sample);
    NoRows(receive);
    var handling;
    handling, s' := Handles(cfg, Direct, mid, hid, Handler(Client, sample, Writing), r.write, r.env);
    Join(cfg, Direct, s, [receive], mid, [], handling, s', rows);
    assert [] + rows == rows;
    es := [receive] + handling;
  }

  /** After the answer the state shows what the server then holds. */
  lemma ShowsReception(cfg: Config, s: Sys, d: Snapshot, clock: int, hid: nat, h: Handler, write: VmWrite, env: Env,
                       mid: Sys, s': Sys)
    requires Shows(s, d, clock) && h.origin == Client && h.pc == Writing
    requires mid == Sys(s.log, s.offset, s.worker, s.publishers, s.handlers[hid := h], s.alert, s.work, s.ctr)
    requires Answers(cfg, mid, s', hid, h, write, env)
    ensures Shows(s', Handled(cfg, d, Client, h.sample, write, env), if write == Written then env.at else clock)
  {
  }

  /** A request to the clients' entrance in Direct mode. */
  lemma DirectIsSteps(cfg: Config, s: Sys, d: Snapshot, clock: int, r: Request) returns (es: seq<Event>)
    requires Shows(s, d, clock) && RequestTimely(clock, r) && Admit(r.body, r.now).Some?
    ensures Performs(cfg, Direct, s, d, es, Handled(cfg, d, Client, Admit(r.body, r.now).value, r.write, r.env),
                     RequestClock(clock, r))
  {
    var sample := Admit(r.body, r.now).value;
    var hid := Above(s.handlers.Keys + s.alert.evals.Keys);
    var mid, s';
    es, mid, s' := Reception(cfg, s, hid, r, sample);
    ShowsReception(cfg, s, d, clock, hid, Handler(Client, sample, Writing), r.write, r.env, mid, s');
  }

  lemma RefusedIsSteps(cfg: Config, mode: Mode, s: Sys, d: Snapshot, clock: int) returns (es: seq<Event>)
    requires Shows(s, d, clock)
    ensures Performs(cfg, mode, s, d, es, d.(ctr := d.ctr.(directBad := d.ctr.directBad + 1)), clock)
  {
    var s' := Steps.BadRequestStep(cfg, mode, s);
    NoRows(BadRequest);
    es := [BadRequest];
    assert Takes(cfg, mode, s, es, s', []);
  }

  /** The successful end of a publish. */
  lemma Acknowledges(cfg: Config, s: Sys, pid: nat, sample: Sample) returns (es: seq<Event>, s': Sys)
    requires pid in s.publishers && s.publishers[pid] == Publisher(sample, Appended)
    ensures Takes(cfg, Kafka, s, es, s', [])
    ensures s' == Sys(s.log, s.offset, s.worker, s.publishers[pid := Publisher(sample, Closed)], s.handlers, s.alert,
                      s.work, CountPublish(s.ctr, Acknowledged))
  {
    var mid := Steps.PublishOkStep(cfg, s, pid, sample);
    s' := Steps.AcceptStep(cfg, mid, pid, sample);
    NoRows(PublishOk(pid));
    NoRows(Accept(pid));
    Join(cfg, Kafka, s, [PublishOk(pid)], mid, [], [Accept(pid)], s', []);
    es := [PublishOk(pid)] + [Accept(pid)];
    assert s.publishers[pid := Publisher(sample, Published)][pid := Publisher(sample, Closed)] ==
           s.publishers[pid := Publisher(sample, Closed)];
  }

  /** A publish, from the call to its answer. */
  lemma Publishes(cfg: Config, s: Sys, pid: nat, sample: Sample, publish: PublishResult)
    returns (es: seq<Event>, s': Sys)
    requires pid in s.publishers && s.publishers[pid] == Publisher(sample, Publishing)
    ensures Takes(cfg, Kafka, s, es, s', [])
    ensures s' == Sys(s.log + AppendedBy(sample, publish), s.offset, s.worker,
                      s.publishers[pid := Publisher(sample, Closed)], s.handlers, s.alert,
                      s.work, CountPublish(s.ctr, publish))
  {
    var mid := s;
    es := [];
    if publish.Acknowledged? || publish.appended {
      mid := Steps.AppendStep(cfg, s, pid, sample);
      NoRows(Append(pid));
      es := [Append(pid)];
    }
    var more;
    if publish.Acknowledged? {
      more, s' := Acknowledges(cfg, mid, pid, sample);
    } else {
      s' := Steps.PublishFailStep(cfg, mid, pid, sample);
      NoRows(PublishFail(pid));
      more := [PublishFail(pid)];
    }
    Join(cfg, Kafka, s, es, mid, [], more, s', []);
    es := es + more;
    assert s.publishers[pid := Publisher(sample, Appended)][pid := Publisher(sample, Closed)] ==
           s.publishers[pid := Publisher(sample, Closed)];
  }

  /** A request to the clients' entrance in Kafka mode. */
  lemma KafkaIsSteps(cfg: Config, s: Sys, d: Snapshot, clock: int, r: Request, publish: PublishResult)
    returns (es: seq<Event>)
    requires Shows(s, d, clock) && 0 < r.now && IsInt64(r.now) && Admit(r.body, r.now).Some?
    ensures Performs(cfg, Kafka, s, d, es, AfterMetrics(cfg, Kafka, d, r, publish), clock)
  {
    var sample := Admit(r.body, r.now).value;
    var pid := Above(s.publishers.Keys);
    var first := Steps.PublishStep(cfg, s, pid, r.body, r.now, sample);
    NoRows(Publish(pid, r.body, r.now));
    var rest, s' := Publishes(cfg, first, pid, sample, publish);
    Join(cfg, Kafka, s, [Publish(pid, r.body, r.now)], first, [], rest, s', []);
    es := [Publish(pid, r.body, r.now)] + rest;
    assert Takes(cfg, Kafka, s, es, s', []);
    assert Shows(s', AfterMetrics(cfg, Kafka, d, r, publish), clock);
  }

  // ---- One round of the worker ----------------------------------------------------------------

  /** A message that never reaches the server. */
  lemma Drop(cfg: Config, mode: Mode, s: Sys, end: RoundEnd) returns (es: seq<Event>, s': Sys)
    requires s.worker == Idle && s.offset < |s.log|
    requires if Forwarded(s.log[s.offset]).None? then end == Undecodable else end == Unbuildable || end == NotForwarded
    ensures Takes(cfg, mode, s, es, s', [])
    ensures s' == Sys(s.log, s.offset + 1, Idle, s.publishers, s.handlers, s.alert, CountRound(s.work, end), s.ctr)
  {
    var drop := if end == Undecodable then DecodeError else if end == Unbuildable then BuildError else SendLost;
    var got := Steps.ReadStep(cfg, mode, s);
    s' := Steps.DropStep(cfg, mode, got, drop);
    NoRows(Read);
    NoRows(drop);
    Join(cfg, mode, s, [Read], got, [], [drop], s', []);
    es := [Read] + [drop];
  }

  lemma DropIsSteps(cfg: Config, mode: Mode, s: Sys, d: Snapshot, clock: int, end: RoundEnd) returns (es: seq<Event>)
    requires Shows(s, d, clock) && d.offset < |d.log|
    requires if Forwarded(d.log[d.offset]).None? then end == Undecodable else end == Unbuildable || end == NotForwarded
    ensures Performs(cfg, mode, s, d, es, d.(offset := d.offset + 1, work := CountRound(d.work, end)), clock)
  {
    var s';
    es, s' := Drop(cfg, mode, s, end);
    assert Takes(cfg, mode, s, es, s', []);
  }

  /** A forwarded request the server refuses. */
  lemma Refusal(cfg: Config, mode: Mode, s: Sys, r: Request) returns (es: seq<Event>, s': Sys)
    requires s.worker == Idle && s.offset < |s.log| && Forwarded(s.log[s.offset]) == Some(r.body)
    requires Admit(r.body, r.now).None?
    ensures Takes(cfg, mode, s, es, s', [])
    ensures s' == Sys(s.log, s.offset + 1, Refused, s.publishers, s.handlers, s.alert,
                      s.work.(readOk := s.work.readOk + 1), s.ctr.(processBad := s.ctr.processBad + 1))
  {
    var hid := Above(s.handlers.Keys + s.alert.evals.Keys);
    var deliver := Deliver(hid, s.offset, r.body, r.now);
    var got := Steps.ReadStep(cfg, mode, s);
    s' := Steps.RefuseStep(cfg, mode, got, hid, s.offset, r.body, r.now);
    NoRows(Read);
    NoRows(deliver);
    Join(cfg, mode, s, [Read], got, [], [deliver], s', []);
    es := [Read] + [deliver];
  }

  /** The worker waits for the refusal or does not. */
  lemma HearsRefusal(cfg: Config, mode: Mode, s: Sys, end: RoundEnd) returns (e: Event, s': Sys)
    requires s.worker == Refused && (end == NotForwarded || end == Non2xxAnswer)
    ensures Takes(cfg, mode, s, [e], s', [])
    ensures s' == Sys(s.log, s.offset, Idle, s.publishers, s.handlers, s.alert,
                      if end == NotForwarded then s.work.(forwardErrors := s.work.forwardErrors + 1)
                      else s.work.(non2xx := s.work.non2xx + 1), s.ctr)
  {
    if end == NotForwarded {
      e := Timeout;
      s' := Steps.TimeoutStep(cfg, mode, s);
    } else {
      e := Reply;
      s' := Steps.RefusalStep(cfg, mode, s);
    }
    NoRows(e);
  }

  lemma RefusalIsSteps(cfg: Config, mode: Mode, s: Sys, d: Snapshot, clock: int, r: Request, end: RoundEnd)
    returns (es: seq<Event>)
    requires Shows(s, d, clock) && d.offset < |d.log| && Forwarded(d.log[d.offset]) == Some(r.body)
    requires Admit(r.body, r.now).None? && (end == NotForwarded || end == Non2xxAnswer)
    ensures Performs(cfg, mode, s, d, es,
                     d.(offset := d.offset + 1, work := CountRound(d.work, end),
                        ctr := d.ctr.(processBad := d.ctr.processBad + 1)), clock)
  {
    var front, refused := Refusal(cfg, mode, s, r);
    var last, s' := HearsRefusal(cfg, mode, refused, end);
    Join(cfg, mode, s, front, refused, [], [last], s', []);
    es := front + [last];
    assert Takes(cfg, mode, s, es, s', []);
  }

  /** From the read of a message to the answer of its handler. */
  lemma Delivery(cfg: Config, mode: Mode, s: Sys, hid: nat, r: Request, sample: Sample)
    returns (es: seq<Event>, mid: Sys, s': Sys)
    requires s.worker == Idle && s.offset < |s.log| && Forwarded(s.log[s.offset]) == Some(r.body)
    requires hid !in s.handlers && hid !in s.alert.evals && Admit(r.body, r.now) == Some(sample)
    requires RequestTimely(s.alert.clock, r)
    ensures mid == Sys(s.log, s.offset + 1, Waiting(hid), s.publishers,
                       s.handlers[hid := Handler(Topic(s.offset), sample, Writing)], s.alert,
                       s.work.(readOk := s.work.readOk + 1), s.ctr)
    ensures Takes(cfg, mode, s, es, s', RowsOf(cfg, s.alert.store, sample, r.write, r.env))
    ensures Answers(cfg, mid, s', hid, Handler(Topic(s.offset), sample, Writing), r.write, r.env)
  {
    var deliver := Deliver(hid, s.offset, r.body, r.now);
    var rows := RowsOf(cfg, s.alert.store, sample, r.write, r.env);
    var got := Steps.ReadStep(cfg, mode, s);
    mid := Steps.DeliverStep(cfg, mode, got, hid, s.offset, r.body, r.now, sample);
    NoRows(Read);
    NoRows(deliver);
    Join(cfg, mode, s, [Read], got, [], [deliver], mid, []);
    var handling;
    handling, s' := Handles(cfg, mode, mid, hid, Handler(Topic(s.offset), sample, Writing), r.write, r.env);
    Join(cfg, mode, s, [Read] + [deliver], mid, [], handling, s', rows);
    assert [] + rows == rows;
    es := [Read] + [deliver] + handling;
  }

  /** The worker has counted the answer and is free again; nothing else changed. */
  ghost predicate Heard(s: Sys, s': Sys, ok: bool, end: RoundEnd) {
    && s'.log == s.log && s'.offset == s.offset && s'.worker == Idle && s'.publishers == s.publishers
    && (forall h :: h in s'.handlers ==>
          h in s.handlers && (s.handlers[h].pc.Answered? ==> s'.handlers[h].pc.Answered?))
    && s'.alert == s.alert && s'.ctr == s.ctr
    && s'.work == (if end == NotForwarded then s.work.(forwardErrors := s.work.forwardErrors + 1)
                   else if ok then s.work.(forwardOk := s.work.forwardOk + 1)
                   else s.work.(non2xx := s.work.non2xx + 1))
    && (end == NotForwarded || end == if ok then Success else Non2xxAnswer)
  }

  /** The worker hears from its handler, or gives up on it. */
  lemma Hears(cfg: Config, mode: Mode, s: Sys, hid: nat, ok: bool, end: RoundEnd) returns (e: Event, s': Sys)
    requires s.worker == Waiting(hid) && hid in s.handlers
    requires s.handlers[hid].pc.Answered? && s.handlers[hid].pc.ok == ok
    requires end == NotForwarded || end == if ok then Success else Non2xxAnswer
    ensures Takes(cfg, mode, s, [e], s', [])
    ensures Heard(s, s', ok, end)
  {
    if end == NotForwarded {
      e := Timeout;
      s' := Steps.TimeoutStep(cfg, mode, s);
    } else {
      e := Reply;
      s' := Steps.ReplyStep(cfg, mode, s, hid, ok);
    }
    NoRows(e);
  }

  /** After the round the state shows what the server and the worker then hold. */
  lemma ShowsService(cfg: Config, s: Sys, d: Snapshot, clock: int, hid: nat, h: Handler, write: VmWrite, env: Env,
                     mid: Sys, answered: Sys, s': Sys, end: RoundEnd)
    requires Shows(s, d, clock) && h.origin.Topic? && h.pc == Writing
    requires mid == Sys(s.log, s.offset + 1, Waiting(hid), s.publishers, s.handlers[hid := h], s.alert,
                        s.work.(readOk := s.work.readOk + 1), s.ctr)
    requires Answers(cfg, mid, answered, hid, h, write, env) && Heard(answered, s', write == Written, end)
    ensures Shows(s', Handled(cfg, d, h.origin, h.sample, write, env)
                      .(offset := d.offset + 1, work := CountRound(d.work, end)),
                  if write == Written then env.at else clock)
  {
  }

  /** From the read of a message until the worker is free again. */
  lemma Exchange(cfg: Config, mode: Mode, s: Sys, hid: nat, r: Request, sample: Sample, end: RoundEnd)
    returns (es: seq<Event>, mid: Sys, answered: Sys, s': Sys)
    requires s.worker == Idle && s.offset < |s.log| && Forwarded(s.log[s.offset]) == Some(r.body)
    requires hid !in s.handlers && hid !in s.alert.evals && Admit(r.body, r.now) == Some(sample)
    requires RequestTimely(s.alert.clock, r)
    requires end == NotForwarded || end == if r.write == Written then Success else Non2xxAnswer
    ensures mid == Sys(s.log, s.offset + 1, Waiting(hid), s.publishers,
                       s.handlers[hid := Handler(Topic(s.offset), sample, Writing)], s.alert,
                       s.work.(readOk := s.work.readOk + 1), s.ctr)
    ensures Answers(cfg, mid, answered, hid, Handler(Topic(s.offset), sample, Writing), r.write, r.env)
    ensures Heard(answered, s', r.write == Written, end)
    ensures Takes(cfg, mode, s, es, s', RowsOf(cfg, s.alert.store, sample, r.write, r.env))
  {
    var rows := RowsOf(cfg, s.alert.store, sample, r.write, r.env);
    var front, last;
    front, mid, answered := Delivery(cfg, mode, s, hid, r, sample);
    last, s' := Hears(cfg, mode, answered, hid, r.write == Written, end);
    Join(cfg, mode, s, front, answered, rows, [last], s', []);
    assert rows + [] == rows;
    es := front + [last];
  }

  /** A forwarded request the server processes. */
  lemma ServiceIsSteps(cfg: Config, mode: Mode, s: Sys, d: Snapshot, clock: int, r: Request, end: RoundEnd)
    returns (es: seq<Event>)
    requires Shows(s, d, clock) && d.offset < |d.log| && Forwarded(d.log[d.offset]) == Some(r.body)
    requires Admit(r.body, r.now).Some? && RequestTimely(clock, r)
    requires end == NotForwarded || end == if r.write == Written then Success else Non2xxAnswer
    ensures Performs(cfg, mode, s, d, es,
                     Handled(cfg, d, Topic(d.offset), Admit(r.body, r.now).value, r.write, r.env)
                       .(offset := d.offset + 1, work := CountRound(d.work, end)),
                     RequestClock(clock, r))
  {
    var sample := Admit(r.body, r.now).value;
    var hid := Above(s.handlers.Keys + s.alert.evals.Keys);
    var mid, answered, s';
    es, mid, answered, s' := Exchange(cfg, mode, s, hid, r, sample, end);
    ShowsService(cfg, s, d, clock, hid, Handler(Topic(d.offset), sample, Writing), r.write, r.env,
                 mid, answered, s', end);
  }

  predicate RoundTimely(d: Snapshot, clock: int, r: Round) {
    Reaches(d.log, d.offset, r) ==> RequestTimely(clock, RequestOf(d.log[d.offset], r))
  }

  function RoundClock(d: Snapshot, clock: int, r: Round): int {
    if Reaches(d.log, d.offset, r) then RequestClock(clock, RequestOf(d.log[d.offset], r)) else clock
  }

  /** A round that reads nothing. */
  lemma IdleRoundIsSteps(cfg: Config, mode: Mode, s: Sys, d: Snapshot, clock: int, end: RoundEnd)
    returns (es: seq<Event>)
    requires Shows(s, d, clock) && (end == NoRead || end == NoMessage)
    ensures Performs(cfg, mode, s, d, es, d.(work := CountRound(d.work, end)), clock)
  {
    es := [];
    if end == NoRead {
      var s' := Steps.ReadErrorStep(cfg, mode, s);
      NoRows(ReadError);
      es := [ReadError];
    }
  }

  /** A round whose message reaches the server. */
  lemma RequestIsSteps(cfg: Config, mode: Mode, s: Sys, d: Snapshot, clock: int, r: Round) returns (es: seq<Event>)
    requires Shows(s, d, clock) && Reaches(d.log, d.offset, r) && RoundTimely(d, clock, r)
    ensures Performs(cfg, mode, s, d, es, AfterRound(cfg, d, r), RoundClock(d, clock, r))
  {
    var request := RequestOf(d.log[d.offset], r);
    if Admit(request.body, request.now).None? {
      es := RefusalIsSteps(cfg, mode, s, d, clock, request, EndOf(d.log, d.offset, r));
    } else {
      es := ServiceIsSteps(cfg, mode, s, d, clock, request, EndOf(d.log, d.offset, r));
    }
  }

  /** A round of the worker's loop, whatever it meets. */
  lemma RoundIsSteps(cfg: Config, mode: Mode, s: Sys, d: Snapshot, clock: int, r: Round) returns (es: seq<Event>)
    requires Shows(s, d, clock) && RoundTimely(d, clock, r)
    ensures Performs(cfg, mode, s, d, es, AfterRound(cfg, d, r), RoundClock(d, clock, r))
  {
    var end := EndOf(d.log, d.offset, r);
    if end == NoRead || end == NoMessage {
      es := IdleRoundIsSteps(cfg, mode, s, d, clock, end);
    } else if !Reaches(d.log, d.offset, r) {
      es := DropIsSteps(cfg, mode, s, d, clock, end);
    } else {
      es := RequestIsSteps(cfg, mode, s, d, clock, r);
    }
  }

  // ---- Reachable snapshots --------------------------------------------------------------------

  /** Some run of the pipeline leads to what the objects hold, rows included. */
  ghost predicate Reachable(cfg: Config, mode: Mode, d: Snapshot, clock: int) {
    exists run :: Valid(cfg, mode, run) && Shows(After(cfg, mode, run), d, clock)
               && Ledger.SavedRows(run) == d.alerts.rows
  }

  lemma FreshIsReachable(cfg: Config, mode: Mode)
    ensures Reachable(cfg, mode, FRESH, 0)
  {
    assert Valid(cfg, mode, []);
  }

  lemma PerformedIsReachable(cfg: Config, mode: Mode, run: Run, d: Snapshot, es: seq<Event>, d': Snapshot, clock: int)
    requires Valid(cfg, mode, run) && Ledger.SavedRows(run) == d.alerts.rows
    requires Performs(cfg, mode, After(cfg, mode, run), d, es, d', clock)
    ensures Reachable(cfg, mode, d', clock)
  {
    Steps.Continued(cfg, mode, run, es);
    assert Valid(cfg, mode, run + es);
  }

  /** In Kafka mode nothing is evaluated yet, and the server's own clock stamps what has no time. */
  predicate MetricsTimely(mode: Mode, clock: int, r: Request) {
    if mode == Direct then RequestTimely(clock, r) else 0 < r.now && IsInt64(r.now)
  }

  function MetricsClock(mode: Mode, clock: int, r: Request): int {
    if mode == Direct then RequestClock(clock, r) else clock
  }

  /** One request to the clients' entrance keeps a deployment reachable. */
  lemma MetricsIsRun(cfg: Config, mode: Mode, d: Snapshot, clock: int, r: Request, publish: PublishResult)
    requires Reachable(cfg, mode, d, clock) && MetricsTimely(mode, clock, r)
    ensures Reachable(cfg, mode, AfterMetrics(cfg, mode, d, r, publish), MetricsClock(mode, clock, r))
  {
    var run :| Valid(cfg, mode, run) && Shows(After(cfg, mode, run), d, clock)
            && Ledger.SavedRows(run) == d.alerts.rows;
    var s := After(cfg, mode, run);
    var es;
    if Admit(r.body, r.now).None? {
      es := RefusedIsSteps(cfg, mode, s, d, clock);
    } else if mode == Direct {
      es := DirectIsSteps(cfg, s, d, clock, r);
    } else {
      es := KafkaIsSteps(cfg, s, d, clock, r, publish);
    }
    PerformedIsReachable(cfg, mode, run, d, es, AfterMetrics(cfg, mode, d, r, publish), MetricsClock(mode, clock, r));
  }

  /** One round of the worker keeps a deployment reachable. */
  lemma RoundIsRun(cfg: Config, mode: Mode, d: Snapshot, clock: int, r: Round)
    requires Reachable(cfg, mode, d, clock) && RoundTimely(d, clock, r)
    ensures Reachable(cfg, mode, AfterRound(cfg, d, r), RoundClock(d, clock, r))
  {
    var run :| Valid(cfg, mode, run) && Shows(After(cfg, mode, run), d, clock)
            && Ledger.SavedRows(run) == d.alerts.rows;
    var es := RoundIsSteps(cfg, mode, After(cfg, mode, run), d, clock, r);
    PerformedIsReachable(cfg, mode, run, d, es, AfterRound(cfg, d, r), RoundClock(d, clock, r));
  }

  function RoundsClock(cfg: Config, d: Snapshot, clock: int, rounds: seq<Round>): int {
    if rounds == [] then clock
    else
      var front := rounds[..|rounds|-1];
      RoundClock(AfterRounds(cfg, d, front), RoundsClock(cfg, d, clock, front), rounds[|rounds|-1])
  }

  predicate RoundsTimely(cfg: Config, d: Snapshot, clock: int, rounds: seq<Round>) {
    rounds == [] ||
    var front := rounds[..|rounds|-1];
    && RoundsTimely(cfg, d, clock, front)
    && RoundTimely(AfterRounds(cfg, d, front), RoundsClock(cfg, d, clock, front), rounds[|rounds|-1])
  }

  /** Any number of rounds. */
  lemma {:induction false} RoundsAreRun(cfg: Config, mode: Mode, d: Snapshot, clock: int, rounds: seq<Round>)
    requires Reachable(cfg, mode, d, clock) && RoundsTimely(cfg, d, clock, rounds)
    ensures Reachable(cfg, mode, AfterRounds(cfg, d, rounds), RoundsClock(cfg, d, clock, rounds))
  {
    if rounds != [] {
      var front := rounds[..|rounds|-1];
      RoundsAreRun(cfg, mode, d, clock, front);
      RoundIsRun(cfg, mode, AfterRounds(cfg, d, front), RoundsClock(cfg, d, clock, front), rounds[|rounds|-1]);
    }
  }

  /** The books of a deployment close, and its table holds as many rows as were counted saved. */
  lemma ReachableBooksClose(cfg: Config, mode: Mode, d: Snapshot, clock: int)
    requires Reachable(cfg, mode, d, clock)
    ensures Ledger.BooksClose(d.log, d.offset, d.work, d.ctr)
    ensures |d.alerts.rows| == d.ctr.p0Saved + d.ctr.recoverySaved
  {
    var run :| Valid(cfg, mode, run) && Shows(After(cfg, mode, run), d, clock)
            && Ledger.SavedRows(run) == d.alerts.rows;
    Ledger.CountersReconcile(cfg, mode, run);
  }
}
