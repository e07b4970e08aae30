// Stretches of pipeline steps from any state, and what each single step does to a state.

module Steps {
  import opened AlertModel
  import opened Wire
  import opened Pipeline
  import A = Interleaving
  import Ledger

  /** The state a stretch of steps leads to; None when some step of it could not happen. */
  function From(cfg: Config, mode: Mode, s: Sys, es: seq<Event>): Option<Sys> {
    if es == [] then Some(s)
    else
      var before := From(cfg, mode, s, es[..|es|-1]);
      var e := es[|es|-1];
      if before.Some? && Enabled(cfg, mode, before.value, e) then Some(Apply(cfg, mode, before.value, e)) else None
  }

  lemma One(cfg: Config, mode: Mode, s: Sys, e: Event)
    requires Enabled(cfg, mode, s, e)
    ensures From(cfg, mode, s, [e]) == Some(Apply(cfg, mode, s, e))
  {
    assert [e][..0] == [];
  }

  /** Two stretches one after the other. */
  lemma {:induction false} Joined(cfg: Config, mode: Mode, s: Sys, a: seq<Event>, b: seq<Event>)
    requires From(cfg, mode, s, a).Some?
    ensures From(cfg, mode, s, a + b) == From(cfg, mode, From(cfg, mode, s, a).value, b)
    ensures Ledger.SavedRows(a + b) == Ledger.SavedRows(a) + Ledger.SavedRows(b)
  {
    if b == [] {
      assert a + b == a;
    } else {
      Joined(cfg, mode, s, a, b[..|b|-1]);
      assert (a + b)[..|a + b|-1] == a + b[..|b|-1];
    }
  }

  /** One step more. */
  lemma Then(cfg: Config, mode: Mode, s: Sys, es: seq<Event>, mid: Sys, e: Event, s': Sys)
    requires From(cfg, mode, s, es) == Some(mid) && From(cfg, mode, mid, [e]) == Some(s')
    ensures From(cfg, mode, s, es + [e]) == Some(s')
    ensures Ledger.SavedRows(es + [e]) == Ledger.SavedRows(es) + Ledger.SavedRows([e])
  {
    Joined(cfg, mode, s, es, [e]);
  }

  /** A run continued by a stretch of steps. */
  lemma {:induction false} Continued(cfg: Config, mode: Mode, run: Run, es: seq<Event>)
    requires Valid(cfg, mode, run)
    ensures Exec(cfg, mode, run + es) == From(cfg, mode, After(cfg, mode, run), es)
    ensures Ledger.SavedRows(run + es) == Ledger.SavedRows(run) + Ledger.SavedRows(es)
  {
    if es == [] {
      assert run + es == run;
    } else {
      Continued(cfg, mode, run, es[..|es|-1]);
      assert (run + es)[..|run + es|-1] == run + es[..|es|-1];
    }
  }

  lemma ForeignStep(cfg: Config, mode: Mode, s: Sys, message: Body) returns (s': Sys)
    ensures From(cfg, mode, s, [Foreign(message)]) == Some(s')
    ensures s' == Sys(s.log + [message], s.offset, s.worker, s.publishers, s.handlers, s.alert, s.work, s.ctr)
  {
    One(cfg, mode, s, Foreign(message));
    s' := Apply(cfg, mode, s, Foreign(message));
  }

  // ---- The worker's steps ---------------------------------------------------------------------

  lemma ReadErrorStep(cfg: Config, mode: Mode, s: Sys) returns (s': Sys)
    requires s.worker == Idle
    ensures From(cfg, mode, s, [ReadError]) == Some(s')
    ensures s' == Sys(s.log, s.offset, s.worker, s.publishers, s.handlers, s.alert,
                      s.work.(readErrors := s.work.readErrors + 1), s.ctr)
  {
    One(cfg, mode, s, ReadError);
    s' := Apply(cfg, mode, s, ReadError);
  }

  lemma ReadStep(cfg: Config, mode: Mode, s: Sys) returns (s': Sys)
    requires s.worker == Idle && s.offset < |s.log|
    ensures From(cfg, mode, s, [Read]) == Some(s')
    ensures s' == Sys(s.log, s.offset + 1, Got(s.offset), s.publishers, s.handlers, s.alert,
                      s.work.(readOk := s.work.readOk + 1), s.ctr)
  {
    One(cfg, mode, s, Read);
    s' := Apply(cfg, mode, s, Read);
  }

  /** The request reaches a new handler. */
  lemma DeliverStep(cfg: Config, mode: Mode, s: Sys, hid: nat, offset: nat, body: Body, now: int, sample: Sample)
    returns (s': Sys)
    requires s.worker == Got(offset) && offset < |s.log| && Forwarded(s.log[offset]) == Some(body)
    requires hid !in s.handlers && hid !in s.alert.evals && Admit(body, now) == Some(sample)
    ensures From(cfg, mode, s, [Deliver(hid, offset, body, now)]) == Some(s')
    ensures s' == Sys(s.log, s.offset, Waiting(hid), s.publishers,
                      s.handlers[hid := Handler(Topic(offset), sample, Writing)], s.alert, s.work, s.ctr)
  {
    One(cfg, mode, s, Deliver(hid, offset, body, now));
    s' := Apply(cfg, mode, s, Deliver(hid, offset, body, now));
  }

  /** The request is refused. */
  lemma RefuseStep(cfg: Config, mode: Mode, s: Sys, hid: nat, offset: nat, body: Body, now: int) returns (s': Sys)
    requires s.worker == Got(offset) && offset < |s.log| && Forwarded(s.log[offset]) == Some(body)
    requires hid !in s.handlers && hid !in s.alert.evals && Admit(body, now) == None
    ensures From(cfg, mode, s, [Deliver(hid, offset, body, now)]) == Some(s')
    ensures s' == Sys(s.log, s.offset, Refused, s.publishers, s.handlers, s.alert, s.work,
                      s.ctr.(processBad := s.ctr.processBad + 1))
  {
    One(cfg, mode, s, Deliver(hid, offset, body, now));
    s' := Apply(cfg, mode, s, Deliver(hid, offset, body, now));
  }

  lemma TimeoutStep(cfg: Config, mode: Mode, s: Sys) returns (s': Sys)
    requires s.worker.Waiting? || s.worker == Refused
    ensures From(cfg, mode, s, [Timeout]) == Some(s')
    ensures s' == Sys(s.log, s.offset, Idle, s.publishers, s.handlers, s.alert,
                      s.work.(forwardErrors := s.work.forwardErrors + 1), s.ctr)
  {
    One(cfg, mode, s, Timeout);
    s' := Apply(cfg, mode, s, Timeout);
  }

  /** The answer arrives. */
  lemma ReplyStep(cfg: Config, mode: Mode, s: Sys, hid: nat, ok: bool) returns (s': Sys)
    requires s.worker == Waiting(hid) && hid in s.handlers
    requires s.handlers[hid].pc.Answered? && s.handlers[hid].pc.ok == ok
    ensures From(cfg, mode, s, [Reply]) == Some(s')
    ensures s' == Sys(s.log, s.offset, Idle, s.publishers,
                      s.handlers[hid := Handler(s.handlers[hid].origin, s.handlers[hid].sample, Answered(ok, true))],
                      s.alert,
                      if ok then s.work.(forwardOk := s.work.forwardOk + 1)
                      else s.work.(non2xx := s.work.non2xx + 1), s.ctr)
  {
    One(cfg, mode, s, Reply);
    s' := Apply(cfg, mode, s, Reply);
  }

  lemma RefusalStep(cfg: Config, mode: Mode, s: Sys) returns (s': Sys)
    requires s.worker == Refused
    ensures From(cfg, mode, s, [Reply]) == Some(s')
    ensures s' == Sys(s.log, s.offset, Idle, s.publishers, s.handlers, s.alert,
                      s.work.(non2xx := s.work.non2xx + 1), s.ctr)
  {
    One(cfg, mode, s, Reply);
    s' := Apply(cfg, mode, s, Reply);
  }

  /** A message the worker cannot decode, cannot build a request for, or cannot send. */
  lemma DropStep(cfg: Config, mode: Mode, s: Sys, e: Event) returns (s': Sys)
    requires s.worker.Got? && s.worker.offset < |s.log|
    requires if Forwarded(s.log[s.worker.offset]).None? then e == DecodeError else e == BuildError || e == SendLost
    ensures From(cfg, mode, s, [e]) == Some(s')
    ensures s' == Sys(s.log, s.offset, Idle, s.publishers, s.handlers, s.alert,
                      if e == DecodeError then s.work.(decodeErrors := s.work.decodeErrors + 1)
                      else if e == BuildError then s.work.(buildErrors := s.work.buildErrors + 1)
                      else s.work.(forwardErrors := s.work.forwardErrors + 1), s.ctr)
  {
    One(cfg, mode, s, e);
    s' := Apply(cfg, mode, s, e);
  }

  // ---- A handler's steps ----------------------------------------------------------------------

  lemma ReceiveStep(cfg: Config, s: Sys, hid: nat, body: Body, now: int, sample: Sample) returns (s': Sys)
    requires hid !in s.handlers && hid !in s.alert.evals && Admit(body, now) == Some(sample)
    ensures From(cfg, Direct, s, [ReceiveDirect(hid, body, now)]) == Some(s')
    ensures s' == Sys(s.log, s.offset, s.worker, s.publishers,
                      s.handlers[hid := Handler(Client, sample, Writing)], s.alert, s.work, s.ctr)
  {
    One(cfg, Direct, s, ReceiveDirect(hid, body, now));
    s' := Apply(cfg, Direct, s, ReceiveDirect(hid, body, now));
  }

  lemma WriteFailStep(cfg: Config, mode: Mode, s: Sys, hid: nat, h: Handler, write: VmWrite) returns (s': Sys)
    requires hid in s.handlers && s.handlers[hid] == h && h.pc == Writing && write != Written
    ensures From(cfg, mode, s, [WriteFail(hid, write)]) == Some(s')
    ensures s' == Sys(s.log, s.offset, s.worker, s.publishers,
                      s.handlers[hid := Handler(h.origin, h.sample, Answered(false, false))], s.alert, s.work,
                      CountAnswer(CountWrite(s.ctr, write), h.origin, false))
  {
    One(cfg, mode, s, WriteFail(hid, write));
    s' := Apply(cfg, mode, s, WriteFail(hid, write));
  }

  lemma WriteOkStep(cfg: Config, mode: Mode, s: Sys, hid: nat, h: Handler) returns (s': Sys)
    requires hid in s.handlers && s.handlers[hid] == h && h.pc == Writing && hid !in s.alert.evals
    ensures From(cfg, mode, s, [WriteOk(hid, h.origin, h.sample)]) == Some(s')
    ensures s' == Sys(s.log, s.offset, s.worker, s.publishers,
                      s.handlers[hid := Handler(h.origin, h.sample, Evaluating)],
                      A.State(s.alert.store, s.alert.clock, s.alert.evals[hid := A.Eval(h.sample, A.Started)]),
                      s.work, CountWrite(s.ctr, Written))
  {
    One(cfg, mode, s, WriteOk(hid, h.origin, h.sample));
    s' := Apply(cfg, mode, s, WriteOk(hid, h.origin, h.sample));
  }

  lemma FinishStep(cfg: Config, mode: Mode, s: Sys, hid: nat, h: Handler) returns (s': Sys)
    requires hid in s.handlers && s.handlers[hid] == h && h.pc == Evaluating
    requires hid in s.alert.evals && s.alert.evals[hid].pc == A.Done
    ensures From(cfg, mode, s, [Finish(hid)]) == Some(s')
    ensures s' == Sys(s.log, s.offset, s.worker, s.publishers,
                      s.handlers[hid := Handler(h.origin, h.sample, Answered(true, false))],
                      s.alert, s.work, CountAnswer(s.ctr, h.origin, true))
  {
    One(cfg, mode, s, Finish(hid));
    s' := Apply(cfg, mode, s, Finish(hid));
  }

  /** One step of an evaluation. */
  lemma AlertStep(cfg: Config, mode: Mode, s: Sys, e: A.Event, ev: A.Eval) returns (s': Sys)
    requires !e.op.Begin? && A.Enabled(cfg, s.alert, e) && ev == s.alert.evals[e.eid]
    ensures From(cfg, mode, s, [Alert(e)]) == Some(s')
    ensures s' == Sys(s.log, s.offset, s.worker, s.publishers, s.handlers,
                      A.State(A.StoreStep(cfg, s.alert.store, e), A.ClockStep(s.alert.clock, e.op),
                              s.alert.evals[e.eid := A.Eval(ev.sample, A.Advance(cfg, ev, e.op))]),
                      s.work, CountAlert(s.ctr, s.alert, e))
    ensures Ledger.SavedRows([Alert(e)]) == if e.op.Save? && e.op.saved then [e.op.record] else []
  {
    One(cfg, mode, s, Alert(e));
    s' := Apply(cfg, mode, s, Alert(e));
  }

  // ---- A client's request in Kafka mode -------------------------------------------------------

  lemma BadRequestStep(cfg: Config, mode: Mode, s: Sys) returns (s': Sys)
    ensures From(cfg, mode, s, [BadRequest]) == Some(s')
    ensures s' == Sys(s.log, s.offset, s.worker, s.publishers, s.handlers, s.alert, s.work,
                      s.ctr.(directBad := s.ctr.directBad + 1))
  {
    One(cfg, mode, s, BadRequest);
    s' := Apply(cfg, mode, s, BadRequest);
  }

  lemma PublishStep(cfg: Config, s: Sys, pid: nat, body: Body, now: int, sample: Sample) returns (s': Sys)
    requires pid !in s.publishers && 0 < now && IsInt64(now) && Admit(body, now) == Some(sample)
    ensures From(cfg, Kafka, s, [Publish(pid, body, now)]) == Some(s')
    ensures s' == Sys(s.log, s.offset, s.worker, s.publishers[pid := Publisher(sample, Publishing)], s.handlers,
                      s.alert, s.work, s.ctr)
  {
    One(cfg, Kafka, s, Publish(pid, body, now));
    s' := Apply(cfg, Kafka, s, Publish(pid, body, now));
  }

  lemma AppendStep(cfg: Config, s: Sys, pid: nat, sample: Sample) returns (s': Sys)
    requires pid in s.publishers && s.publishers[pid] == Publisher(sample, Publishing)
    ensures From(cfg, Kafka, s, [Append(pid)]) == Some(s')
    ensures s' == Sys(s.log + [Encode(EVENT_NAMES, sample)], s.offset, s.worker,
                      s.publishers[pid := Publisher(sample, Appended)], s.handlers, s.alert, s.work, s.ctr)
  {
    One(cfg, Kafka, s, Append(pid));
    s' := Apply(cfg, Kafka, s, Append(pid));
  }

  lemma PublishOkStep(cfg: Config, s: Sys, pid: nat, sample: Sample) returns (s': Sys)
    requires pid in s.publishers && s.publishers[pid] == Publisher(sample, Appended)
    ensures From(cfg, Kafka, s, [PublishOk(pid)]) == Some(s')
    ensures s' == Sys(s.log, s.offset, s.worker, s.publishers[pid := Publisher(sample, Published)], s.handlers,
                      s.alert, s.work, s.ctr.(publishOk := s.ctr.publishOk + 1))
  {
    One(cfg, Kafka, s, PublishOk(pid));
    s' := Apply(cfg, Kafka, s, PublishOk(pid));
  }

  lemma AcceptStep(cfg: Config, s: Sys, pid: nat, sample: Sample) returns (s': Sys)
    requires pid in s.publishers && s.publishers[pid] == Publisher(sample, Published)
    ensures From(cfg, Kafka, s, [Accept(pid)]) == Some(s')
    ensures s' == Sys(s.log, s.offset, s.worker, s.publishers[pid := Publisher(sample, Closed)], s.handlers,
                      s.alert, s.work, s.ctr.(accepted := s.ctr.accepted + 1))
  {
    One(cfg, Kafka, s, Accept(pid));
    s' := Apply(cfg, Kafka, s, Accept(pid));
  }

  lemma PublishFailStep(cfg: Config, s: Sys, pid: nat, sample: Sample) returns (s': Sys)
    requires pid in s.publishers && s.publishers[pid].sample == sample && s.publishers[pid].pc in {Publishing, Appended}
    ensures From(cfg, Kafka, s, [PublishFail(pid)]) == Some(s')
    ensures s' == Sys(s.log, s.offset, s.worker, s.publishers[pid := Publisher(sample, Closed)], s.handlers,
                      s.alert, s.work,
                      s.ctr.(publishErrors := s.ctr.publishErrors + 1, kafkaErrors := s.ctr.kafkaErrors + 1))
  {
    One(cfg, Kafka, s, PublishFail(pid));
    s' := Apply(cfg, Kafka, s, PublishFail(pid));
  }
}
