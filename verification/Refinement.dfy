// Kafka mode does what Direct mode does on an ordered subsequence of the topic.

module Refinement {
  import opened AlertModel
  import opened Wire
  import opened Pipeline
  import A = Interleaving
  import Evaluation
  import Reduction

  /** The alert step of an event. */
  function AlertStep(e: Event): Option<A.Event> {
    match e
    case WriteOk(hid, _, sample) => Some(A.Event(hid, sample.machine, A.Begin(sample)))
    case Alert(e) => Some(e)
    case _ => None
  }

  /** The alert steps of a run. */
  function AlertTrace(run: Run): A.Trace {
    if run == [] then []
    else
      var before := AlertTrace(run[..|run|-1]);
      match AlertStep(run[|run|-1]) { case None => before case Some(e) => before + [e] }
  }

  lemma {:induction false} AlertTraceIsRun(cfg: Config, mode: Mode, run: Run)
    requires Valid(cfg, mode, run)
    ensures A.Valid(cfg, AlertTrace(run))
    ensures A.After(cfg, AlertTrace(run)) == After(cfg, mode, run).alert
  {
    if run != [] {
      var front, e := run[..|run|-1], run[|run|-1];
      AlertTraceIsRun(cfg, mode, front);
      assert AlertStep(e).Some? ==> AlertTrace(run)[..|AlertTrace(run)|-1] == AlertTrace(front);
    }
  }

  // ---- The Direct-mode run behind a Kafka-mode run --------------------------------------------

  /** A forwarded request becomes a client's request; what only moves messages disappears. */
  function Translate(e: Event): Option<Event> {
    match e
    case Deliver(hid, _, body, now) =>
      Some(if Admit(body, now).Some? then ReceiveDirect(hid, body, now) else BadRequest)
    case WriteFail(_, _) => Some(e)
    case WriteOk(hid, _, sample) => Some(WriteOk(hid, Client, sample))
    case Alert(_) => Some(e)
    case Finish(_) => Some(e)
    case _ => None
  }

  function DirectRun(run: Run): Run {
    if run == [] then []
    else
      var before := DirectRun(run[..|run|-1]);
      match Translate(run[|run|-1]) { case None => before case Some(e) => before + [e] }
  }

  predicate Delivers(e: Event) { e.Deliver? && Admit(e.body, e.now).Some? }

  /** The offsets whose messages reached the process handler and were admitted. */
  function Delivered(run: Run): seq<nat> {
    if run == [] then []
    else
      var e := run[|run|-1];
      var before := Delivered(run[..|run|-1]);
      if Delivers(e) then before + [e.offset] else before
  }

  /** The bodies admitted by the direct handler. */
  function Received(run: Run): seq<Body> {
    if run == [] then []
    else
      var e := run[|run|-1];
      var before := Received(run[..|run|-1]);
      if e.ReceiveDirect? then before + [e.body] else before
  }

  ghost predicate StrictlyAscending(s: seq<nat>) { forall i, j :: 0 <= i < j < |s| ==> s[i] < s[j] }

  /** The handler of the Direct-mode run: it differs only in who is waiting for it. */
  predicate MirrorsHandler(k: Handler, d: Handler) {
    && d.origin == Client
    && d.sample == k.sample
    && d.pc == if k.pc.Answered? then Answered(k.pc.ok, false) else k.pc
  }

  ghost predicate Mirrors(k: Sys, d: Sys) {
    && k.alert == d.alert
    && (forall hid :: hid in k.handlers <==> hid in d.handlers)
    && (forall hid :: hid in k.handlers ==> MirrorsHandler(k.handlers[hid], d.handlers[hid]))
  }

  lemma MirrorQueueStep(cfg: Config, k: Sys, d: Sys, e: Event)
    requires Mirrors(k, d) && Enabled(cfg, Kafka, k, e) && Translate(e) == None
    ensures Mirrors(Apply(cfg, Kafka, k, e), d)
  {
  }

  lemma MirrorDeliver(cfg: Config, k: Sys, d: Sys, e: Event)
    requires Mirrors(k, d) && Enabled(cfg, Kafka, k, e) && e.Deliver?
    ensures Enabled(cfg, Direct, d, Translate(e).value)
    ensures Mirrors(Apply(cfg, Kafka, k, e), Apply(cfg, Direct, d, Translate(e).value))
  {
  }

  lemma MirrorWrite(cfg: Config, k: Sys, d: Sys, e: Event)
    requires Mirrors(k, d) && Enabled(cfg, Kafka, k, e) && (e.WriteFail? || e.WriteOk?)
    ensures Enabled(cfg, Direct, d, Translate(e).value)
    ensures Mirrors(Apply(cfg, Kafka, k, e), Apply(cfg, Direct, d, Translate(e).value))
  {
  }

  lemma MirrorEvaluation(cfg: Config, k: Sys, d: Sys, e: Event)
    requires Mirrors(k, d) && Enabled(cfg, Kafka, k, e) && (e.Alert? || e.Finish?)
    ensures Enabled(cfg, Direct, d, Translate(e).value)
    ensures Mirrors(Apply(cfg, Kafka, k, e), Apply(cfg, Direct, d, Translate(e).value))
  {
  }

  lemma MirrorServerStep(cfg: Config, k: Sys, d: Sys, e: Event)
    requires Mirrors(k, d) && Enabled(cfg, Kafka, k, e) && Translate(e).Some?
    ensures Enabled(cfg, Direct, d, Translate(e).value)
    ensures Mirrors(Apply(cfg, Kafka, k, e), Apply(cfg, Direct, d, Translate(e).value))
  {
    match e
    case Deliver(_, _, _, _) => MirrorDeliver(cfg, k, d, e);
    case WriteFail(_, _) => MirrorWrite(cfg, k, d, e);
    case WriteOk(_, _, _) => MirrorWrite(cfg, k, d, e);
    case _ => MirrorEvaluation(cfg, k, d, e);
  }

  lemma {:induction false} DirectRunMirrors(cfg: Config, run: Run)
    requires Valid(cfg, Kafka, run)
    ensures Valid(cfg, Direct, DirectRun(run))
    ensures Mirrors(After(cfg, Kafka, run), After(cfg, Direct, DirectRun(run)))
    ensures AlertTrace(DirectRun(run)) == AlertTrace(run)
  {
    if run != [] {
      var front, e := run[..|run|-1], run[|run|-1];
      DirectRunMirrors(cfg, front);
      var k, d := After(cfg, Kafka, front), After(cfg, Direct, DirectRun(front));
      if Translate(e) == None {
        MirrorQueueStep(cfg, k, d, e);
      } else {
        assert DirectRun(run)[..|DirectRun(run)|-1] == DirectRun(front);
        MirrorServerStep(cfg, k, d, e);
      }
    }
  }

  ghost predicate AllBelow(offs: seq<nat>, bound: nat) { forall k :: 0 <= k < |offs| ==> offs[k] < bound }

  lemma Extend(offs: seq<nat>, o: nat)
    requires StrictlyAscending(offs) && AllBelow(offs, o)
    ensures StrictlyAscending(offs + [o]) && forall bound :: o < bound ==> AllBelow(offs + [o], bound)
  {
  }

  /** The offset of the first message the worker is not yet done with. */
  function Frontier(s: Sys): nat { if s.worker.Got? then s.worker.offset else s.offset }

  lemma FrontierGrows(cfg: Config, s: Sys, e: Event)
    requires WorkerConsistent(s) && Enabled(cfg, Kafka, s, e)
    ensures Frontier(s) <= Frontier(Apply(cfg, Kafka, s, e))
    ensures Delivers(e) ==> e.offset == Frontier(s) < Frontier(Apply(cfg, Kafka, s, e))
  {
  }

  lemma {:induction false} DeliveredInOrder(cfg: Config, run: Run)
    requires Valid(cfg, Kafka, run)
    ensures StrictlyAscending(Delivered(run)) && AllBelow(Delivered(run), Frontier(After(cfg, Kafka, run)))
  {
    if run != [] {
      var front, e := run[..|run|-1], run[|run|-1];
      AlwaysConsistent(cfg, Kafka, front);
      DeliveredInOrder(cfg, front);
      FrontierGrows(cfg, After(cfg, Kafka, front), e);
      if Delivers(e) {
        Extend(Delivered(front), e.offset);
      }
    }
  }

  /** bodies are what the worker makes of the messages at offs. */
  ghost predicate ComeFrom(log: seq<Body>, offs: seq<nat>, bodies: seq<Body>) {
    && |offs| == |bodies|
    && forall k :: 0 <= k < |offs| ==> offs[k] < |log| && Forwarded(log[offs[k]]) == Some(bodies[k])
  }

  lemma ComeFromGrows(log: seq<Body>, log': seq<Body>, offs: seq<nat>, bodies: seq<Body>)
    requires log <= log' && ComeFrom(log, offs, bodies)
    ensures ComeFrom(log', offs, bodies)
  {
  }

  lemma LogGrows(cfg: Config, s: Sys, e: Event)
    requires Enabled(cfg, Kafka, s, e)
    ensures s.log <= Apply(cfg, Kafka, s, e).log
  {
  }

  lemma {:induction false} ReceivedComesFromLog(cfg: Config, run: Run)
    requires Valid(cfg, Kafka, run)
    ensures ComeFrom(After(cfg, Kafka, run).log, Delivered(run), Received(DirectRun(run)))
  {
    if run != [] {
      var front, e := run[..|run|-1], run[|run|-1];
      var s, s' := After(cfg, Kafka, front), After(cfg, Kafka, run);
      ReceivedComesFromLog(cfg, front);
      LogGrows(cfg, s, e);
      ComeFromGrows(s.log, s'.log, Delivered(front), Received(DirectRun(front)));
      assert run == front + [e];
      ReceivedStep(front, e);
    }
  }

  /** The received bodies grow exactly with the delivered offsets. */
  lemma ReceivedStep(front: Run, e: Event)
    requires !e.ReceiveDirect?
    ensures var run := front + [e]; var before := Received(DirectRun(front));
            Received(DirectRun(run)) == if Delivers(e) then before + [e.body] else before
  {
  }

  /** Kafka refines Direct: with one partition and one worker, whatever fails to decode, to be
      sent, to be written or to be answered in time, and however evaluations interleave, there
      is a Direct-mode run with the same alert steps and the same alert state. It receives the
      messages of an ordered subsequence of the topic, in that order. */
  lemma {:induction false} KafkaRefinesDirect(cfg: Config, run: Run)
    requires Valid(cfg, Kafka, run)
    ensures Valid(cfg, Direct, DirectRun(run))
    ensures After(cfg, Direct, DirectRun(run)).alert == After(cfg, Kafka, run).alert
    ensures AlertTrace(DirectRun(run)) == AlertTrace(run)
    ensures StrictlyAscending(Delivered(run))
    ensures ComeFrom(After(cfg, Kafka, run).log, Delivered(run), Received(DirectRun(run)))
  {
    DirectRunMirrors(cfg, run);
    DeliveredInOrder(cfg, run);
    ReceivedComesFromLog(cfg, run);
  }

  // ---- When the handlers of one machine do not overlap ----------------------------------------

  predicate Busy(h: Handler, m: MachineId) { h.sample.machine == m && !h.pc.Answered? }

  /** A request for m is delivered only when no handler is busy with m. */
  ghost predicate HandlersDisjoint(cfg: Config, run: Run, m: MachineId)
    requires Valid(cfg, Kafka, run)
  {
    run != [] ==>
      var front, e := run[..|run|-1], run[|run|-1];
      && HandlersDisjoint(cfg, front, m)
      && (e.Deliver? && Admit(e.body, e.now).Some? && Admit(e.body, e.now).value.machine == m ==>
            var hs := After(cfg, Kafka, front).handlers;
            forall hid :: hid in hs ==> !Busy(hs[hid], m))
  }

  /** The sample is the one in the message; only a missing timestamp was filled in. */
  ghost predicate Carries(message: Body, s: Sample) {
    match Decode(EVENT_NAMES, message)
    case None => false
    case Some(raw) =>
      && !(raw.timestamp > 0 && s != raw)
      && s == raw.(timestamp := s.timestamp)
  }

  /** The offsets of the messages whose evaluation for m began, in that order. */
  function EvaluatedOffsets(run: Run, m: MachineId): seq<nat> {
    if run == [] then []
    else
      var e := run[|run|-1];
      var before := EvaluatedOffsets(run[..|run|-1], m);
      if e.WriteOk? && e.origin.Topic? && e.sample.machine == m then before + [e.origin.offset] else before
  }

  /** The handler serves a message of the topic behind the frontier, and carries its sample. */
  ghost predicate ServesTopic(log: seq<Body>, frontier: nat, h: Handler) {
    && h.origin.Topic? && h.origin.offset < frontier && h.origin.offset < |log|
    && Carries(log[h.origin.offset], h.sample)
  }

  ghost predicate FromTopic(s: Sys) {
    forall hid :: hid in s.handlers ==> ServesTopic(s.log, Frontier(s), s.handlers[hid])
  }

  lemma DeliveredCarries(message: Body, body: Body, now: int)
    requires Forwarded(message) == Some(body) && Admit(body, now).Some?
    ensures Carries(message, Admit(body, now).value)
  {
  }

  lemma FromTopicStep(cfg: Config, s: Sys, e: Event)
    requires WorkerConsistent(s) && FromTopic(s) && Enabled(cfg, Kafka, s, e)
    ensures FromTopic(Apply(cfg, Kafka, s, e))
  {
    var s' := Apply(cfg, Kafka, s, e);
    FrontierGrows(cfg, s, e);
    LogGrows(cfg, s, e);
    if Delivers(e) {
      DeliveredCarries(s.log[e.offset], e.body, e.now);
    }
    forall hid | hid in s'.handlers ensures ServesTopic(s'.log, Frontier(s'), s'.handlers[hid]) {
      HandlerKept(cfg, s, e, hid);
    }
  }

  /** A handler keeps its origin and its sample. */
  lemma HandlerKept(cfg: Config, s: Sys, e: Event, hid: nat)
    requires Enabled(cfg, Kafka, s, e) && hid in Apply(cfg, Kafka, s, e).handlers
    ensures var h := Apply(cfg, Kafka, s, e).handlers[hid];
            if Delivers(e) && hid == e.hid then h == Handler(Topic(e.offset), Admit(e.body, e.now).value, Writing)
            else hid in s.handlers && h.origin == s.handlers[hid].origin && h.sample == s.handlers[hid].sample
                 && (h.pc == Writing ==> s.handlers[hid].pc == Writing)
                 && (s.handlers[hid].pc.Answered? ==> h.pc.Answered?)
  {
  }

  lemma {:induction false} AlwaysFromTopic(cfg: Config, run: Run)
    requires Valid(cfg, Kafka, run)
    ensures FromTopic(After(cfg, Kafka, run))
  {
    if run != [] {
      var front := run[..|run|-1];
      AlwaysConsistent(cfg, Kafka, front);
      AlwaysFromTopic(cfg, front);
      FromTopicStep(cfg, After(cfg, Kafka, front), run[|run|-1]);
    }
  }

  /** At most one handler is busy with m. */
  lemma {:induction false} OneBusy(cfg: Config, run: Run, m: MachineId, a: nat, b: nat)
    requires Valid(cfg, Kafka, run) && HandlersDisjoint(cfg, run, m)
    requires var hs := After(cfg, Kafka, run).handlers; a in hs && b in hs && Busy(hs[a], m) && Busy(hs[b], m)
    ensures a == b
  {
    var front, e := run[..|run|-1], run[|run|-1];
    var hs := After(cfg, Kafka, front).handlers;
    HandlerKept(cfg, After(cfg, Kafka, front), e, a);
    HandlerKept(cfg, After(cfg, Kafka, front), e, b);
    if !(Delivers(e) && e.hid in {a, b}) {
      OneBusy(cfg, front, m, a, b);
    }
  }

  /** A handler for m that waits for its write serves a message behind all of offs. */
  ghost predicate WaitsLast(s: Sys, m: MachineId, offs: seq<nat>) {
    forall hid | hid in s.handlers && s.handlers[hid].sample.machine == m && s.handlers[hid].pc == Writing ::
      s.handlers[hid].origin.Topic? ==> AllBelow(offs, s.handlers[hid].origin.offset)
  }

  lemma WaitsLastStep(cfg: Config, s: Sys, e: Event, m: MachineId, offs: seq<nat>)
    requires WorkerConsistent(s) && Enabled(cfg, Kafka, s, e)
    requires WaitsLast(s, m, offs) && AllBelow(offs, Frontier(s))
    ensures WaitsLast(Apply(cfg, Kafka, s, e), m, offs)
  {
  }

  /** When m's waiting handler starts its evaluation, no handler for m waits any more. */
  lemma NoneWaits(cfg: Config, front: Run, e: Event, m: MachineId)
    requires Valid(cfg, Kafka, front) && HandlersDisjoint(cfg, front, m)
    requires Enabled(cfg, Kafka, After(cfg, Kafka, front), e) && e.WriteOk? && e.sample.machine == m
    ensures forall offs :: WaitsLast(Apply(cfg, Kafka, After(cfg, Kafka, front), e), m, offs)
  {
    var s := After(cfg, Kafka, front);
    var s' := Apply(cfg, Kafka, s, e);
    forall hid | hid in s'.handlers && s'.handlers[hid].sample.machine == m ensures s'.handlers[hid].pc != Writing {
      if s.handlers[hid].pc == Writing {
        OneBusy(cfg, front, m, hid, e.hid);
      }
    }
  }

  /** Evaluations for m begin in topic order. */
  lemma {:induction false} EvaluatedInOrder(cfg: Config, run: Run, m: MachineId)
    requires Valid(cfg, Kafka, run) && HandlersDisjoint(cfg, run, m)
    ensures StrictlyAscending(EvaluatedOffsets(run, m))
    ensures AllBelow(EvaluatedOffsets(run, m), Frontier(After(cfg, Kafka, run)))
    ensures WaitsLast(After(cfg, Kafka, run), m, EvaluatedOffsets(run, m))
  {
    if run != [] {
      var front, e := run[..|run|-1], run[|run|-1];
      var s := After(cfg, Kafka, front);
      EvaluatedInOrder(cfg, front, m);
      AlwaysConsistent(cfg, Kafka, front);
      AlwaysFromTopic(cfg, front);
      FrontierGrows(cfg, s, e);
      if e.WriteOk? && e.sample.machine == m {
        Extend(EvaluatedOffsets(front, m), e.origin.offset);
        NoneWaits(cfg, front, e, m);
      } else {
        WaitsLastStep(cfg, s, e, m, EvaluatedOffsets(front, m));
      }
    }
  }

  /** Without overlapping handlers the evaluations of m do not overlap either. */
  lemma {:induction false} AlertTraceDisjoint(cfg: Config, run: Run, m: MachineId)
    requires Valid(cfg, Kafka, run) && HandlersDisjoint(cfg, run, m)
    ensures A.Valid(cfg, AlertTrace(run)) && A.Disjoint(cfg, AlertTrace(run), m)
  {
    AlertTraceIsRun(cfg, Kafka, run);
    if run != [] {
      var front, e := run[..|run|-1], run[|run|-1];
      var s := After(cfg, Kafka, front);
      AlertTraceDisjoint(cfg, front, m);
      AlertTraceIsRun(cfg, Kafka, front);
      AlwaysConsistent(cfg, Kafka, front);
      assert AlertStep(e).Some? ==> AlertTrace(run)[..|AlertTrace(run)|-1] == AlertTrace(front);
      if e.WriteOk? && e.sample.machine == m {
        forall eid ensures !s.alert.Active(eid, m) {
          if s.alert.Active(eid, m) {
            OneBusy(cfg, front, m, eid, e.hid);
            assert false;
          }
        }
      }
    }
  }

  /** The samples are those of the messages at offs. */
  ghost predicate AllCarried(log: seq<Body>, offs: seq<nat>, samples: seq<Sample>) {
    && |offs| == |samples|
    && forall k :: 0 <= k < |offs| ==> offs[k] < |log| && Carries(log[offs[k]], samples[k])
  }

  lemma AllCarriedGrows(log: seq<Body>, log': seq<Body>, offs: seq<nat>, samples: seq<Sample>)
    requires log <= log' && AllCarried(log, offs, samples)
    ensures AllCarried(log', offs, samples)
  {
  }

  lemma {:induction false} ArrivalsCarryLog(cfg: Config, run: Run, m: MachineId)
    requires Valid(cfg, Kafka, run)
    ensures AllCarried(After(cfg, Kafka, run).log, EvaluatedOffsets(run, m), A.Arrivals(AlertTrace(run), m))
  {
    if run != [] {
      var front, e := run[..|run|-1], run[|run|-1];
      var s := After(cfg, Kafka, front);
      ArrivalsCarryLog(cfg, front, m);
      AlwaysFromTopic(cfg, front);
      LogGrows(cfg, s, e);
      AllCarriedGrows(s.log, After(cfg, Kafka, run).log, EvaluatedOffsets(front, m), A.Arrivals(AlertTrace(front), m));
      assert AlertStep(e).Some? ==> AlertTrace(run)[..|AlertTrace(run)|-1] == AlertTrace(front);
    }
  }

  /** Kafka mode, one machine at a time: when the handlers of m do not overlap, m's rows and
      store entries are those of processing, one after the other and at the times of their
      evaluation, the samples of an ordered subsequence of the topic; they are the rows the
      history of those samples requires. */
  lemma KafkaIsSequentialOnSubsequence(cfg: Config, run: Run, m: MachineId)
    requires Valid(cfg, Kafka, run) && HandlersDisjoint(cfg, run, m)
    requires After(cfg, Kafka, run).alert.Idle(m)
    ensures var s := After(cfg, Kafka, run);
            var offs := EvaluatedOffsets(run, m);
            var jobs := Reduction.Jobs(AlertTrace(run), m);
            var alone := Evaluation.RunAll(cfg, jobs);
            && StrictlyAscending(offs)
            && |jobs| == |offs|
            && (forall k :: 0 <= k < |jobs| ==> offs[k] < |s.log| && Carries(s.log[offs[k]], jobs[k].sample))
            && A.Attempts(AlertTrace(run), m) == Reduction.Rows(alone.attempts) == Reduction.RequiredRows(cfg, jobs)
            && s.alert.store.SameAt(alone.store, m)
  {
    AlertTraceIsRun(cfg, Kafka, run);
    AlertTraceDisjoint(cfg, run, m);
    EvaluatedInOrder(cfg, run, m);
    ArrivalsCarryLog(cfg, run, m);
    Reduction.SequentialReduction(cfg, AlertTrace(run), m);
    Reduction.InterleavedHistory(cfg, AlertTrace(run), m);
  }
}
