// The counters of server and worker balance in every reachable state.

module Ledger {
  import opened AlertModel
  import opened Wire
  import opened Pipeline
  import A = Interleaving

  /** The keys whose values satisfy p. */
  function Matching<V>(m: map<nat, V>, p: V -> bool): set<nat> { set k | k in m && p(m[k]) }

  /** The change of a matching by one update. */
  lemma MatchingUpdate<V>(m: map<nat, V>, k: nat, v: V, p: V -> bool)
    ensures |Matching(m[k := v], p)| ==
            |Matching(m, p)| - (if k in m && p(m[k]) then 1 else 0) + (if p(v) then 1 else 0)
  {
    var before, after := Matching(m, p), Matching(m[k := v], p);
    var rest := before - {k};
    assert after == if p(v) then rest + {k} else rest;
    assert |rest| == |before| - if k in before then 1 else 0;
  }

  predicate IsPublished(p: Publisher) { p.pc == Published }
  predicate IsAppended(p: Publisher) { p.pc == Appended }
  predicate IsEvaluating(h: Handler) { h.pc == Evaluating }
  predicate IsUncollected(h: Handler) { h.origin.Topic? && h.pc == Answered(true, false) }
  predicate HasGrant(ev: A.Eval) { ev.pc == A.Granted }
  predicate HoldsP0(ev: A.Eval) { ev.pc.Saving? && ev.pc.record.level == P0 }

  /** 1 while the worker is busy with a message. */
  function InFlight(w: WorkerPc): nat { if w == Idle then 0 else 1 }

  /** Every message read is accounted for by exactly one outcome or is in flight. */
  ghost predicate WorkerBalance(s: Sys) {
    var w := s.work;
    && w.readOk == s.offset
    && w.readOk == w.decodeErrors + w.buildErrors + w.forwardErrors + w.non2xx + w.forwardOk + InFlight(s.worker)
  }

  /** Publish successes are accepted, or about to be, and have their message on the topic. */
  ghost predicate PublishBalance(s: Sys) {
    && s.ctr.publishOk == s.ctr.accepted + |Matching(s.publishers, IsPublished)|
    && s.ctr.publishOk + |Matching(s.publishers, IsAppended)| <= |s.log|
    && s.ctr.publishErrors == s.ctr.kafkaErrors
  }

  /** Process successes were collected by the worker or wait for it, for ever after a timeout. */
  ghost predicate ForwardBalance(s: Sys) {
    s.ctr.processOk == s.work.forwardOk + |Matching(s.handlers, IsUncollected)|
  }

  /** A successful write leads to one handler success, once the evaluation is over. */
  ghost predicate WriteBalance(s: Sys) {
    && s.ctr.writesOk == s.ctr.directOk + s.ctr.processOk + |Matching(s.handlers, IsEvaluating)|
    && s.ctr.writesUnbuilt + s.ctr.writesFailed + s.ctr.writesNon2xx == s.ctr.directErrors + s.ctr.processErrors
  }

  /** The P0 grants of a run. */
  function Grants(run: Run): nat {
    if run == [] then 0
    else
      var e := run[|run|-1];
      Grants(run[..|run|-1]) + if e.Alert? && e.e.op.Acquire? && e.e.op.granted then 1 else 0
  }

  /** A grant leads to one notification, counted sent or failed. */
  ghost predicate GrantBalance(grants: nat, s: Sys) {
    grants == s.ctr.p0Sent + s.ctr.p0Failed + |Matching(s.alert.evals, HasGrant)|
  }

  /** A notification leads to one attempt to save, counted success or failed. */
  ghost predicate SaveBalance(s: Sys) {
    s.ctr.p0Sent + s.ctr.p0Failed == s.ctr.p0Saved + s.ctr.p0SaveFailed + |Matching(s.alert.evals, HoldsP0)|
  }

  lemma WorkerStep(cfg: Config, mode: Mode, s: Sys, e: Event)
    requires Enabled(cfg, mode, s, e) && WorkerBalance(s)
    ensures WorkerBalance(Apply(cfg, mode, s, e))
  {
  }

  lemma PublishStep(cfg: Config, mode: Mode, s: Sys, e: Event)
    requires Enabled(cfg, mode, s, e) && PublishBalance(s)
    ensures PublishBalance(Apply(cfg, mode, s, e))
  {
    var s' := Apply(cfg, mode, s, e);
    if e.Publish? || e.Append? || e.PublishOk? || e.Accept? || e.PublishFail? {
      MatchingUpdate(s.publishers, e.pid, s'.publishers[e.pid], IsPublished);
      MatchingUpdate(s.publishers, e.pid, s'.publishers[e.pid], IsAppended);
    }
  }

  /** The handler an event moves, if any. */
  function Moved(s: Sys, e: Event): Option<nat> {
    match e
    case ReceiveDirect(hid, _, _) => Some(hid)
    case Deliver(hid, _, _, _) => Some(hid)
    case Reply => if s.worker.Waiting? then Some(s.worker.hid) else None
    case WriteFail(hid, _) => Some(hid)
    case WriteOk(hid, _, _) => Some(hid)
    case Finish(hid) => Some(hid)
    case _ => None
  }

  lemma MovesOne(cfg: Config, mode: Mode, s: Sys, e: Event)
    requires Enabled(cfg, mode, s, e)
    ensures var hs, hs' := s.handlers, Apply(cfg, mode, s, e).handlers;
            hs' == hs || (Moved(s, e).Some? && Moved(s, e).value in hs'
                          && hs' == hs[Moved(s, e).value := hs'[Moved(s, e).value]])
  {
  }

  lemma HandlerCounts(cfg: Config, mode: Mode, s: Sys, e: Event, p: Handler -> bool)
    requires Enabled(cfg, mode, s, e)
    ensures var s' := Apply(cfg, mode, s, e);
            s'.handlers != s.handlers ==>
              && Moved(s, e).Some? && Moved(s, e).value in s'.handlers
              && |Matching(s'.handlers, p)| == |Matching(s.handlers, p)|
                   - (if Moved(s, e).value in s.handlers && p(s.handlers[Moved(s, e).value]) then 1 else 0)
                   + (if p(s'.handlers[Moved(s, e).value]) then 1 else 0)
  {
    MovesOne(cfg, mode, s, e);
    var s' := Apply(cfg, mode, s, e);
    if s'.handlers != s.handlers {
      var hid := Moved(s, e).value;
      MatchingUpdate(s.handlers, hid, s'.handlers[hid], p);
    }
  }

  lemma ForwardStep(cfg: Config, mode: Mode, s: Sys, e: Event)
    requires WorkerConsistent(s) && Enabled(cfg, mode, s, e) && ForwardBalance(s)
    ensures ForwardBalance(Apply(cfg, mode, s, e))
  {
    HandlerCounts(cfg, mode, s, e, IsUncollected);
  }

  lemma WriteStep(cfg: Config, mode: Mode, s: Sys, e: Event)
    requires Enabled(cfg, mode, s, e) && WriteBalance(s)
    ensures WriteBalance(Apply(cfg, mode, s, e))
  {
    HandlerCounts(cfg, mode, s, e, IsEvaluating);
  }

  /** The evaluation an event moves, and where it stands afterwards. */
  lemma EvalCounts(cfg: Config, mode: Mode, s: Sys, e: Event, p: A.Eval -> bool)
    requires Enabled(cfg, mode, s, e) && (e.WriteOk? || e.Alert?)
    ensures var evals, evals' := s.alert.evals, Apply(cfg, mode, s, e).alert.evals;
            var eid := if e.WriteOk? then e.hid else e.e.eid;
            && eid in evals'
            && |Matching(evals', p)| ==
                 |Matching(evals, p)| - (if eid in evals && p(evals[eid]) then 1 else 0)
                   + (if p(evals'[eid]) then 1 else 0)
  {
    var s' := Apply(cfg, mode, s, e);
    var eid := if e.WriteOk? then e.hid else e.e.eid;
    MatchingUpdate(s.alert.evals, eid, s'.alert.evals[eid], p);
  }

  lemma GrantStep(cfg: Config, mode: Mode, s: Sys, e: Event, grants: nat)
    requires Enabled(cfg, mode, s, e) && GrantBalance(grants, s)
    ensures GrantBalance(grants + if e.Alert? && e.e.op.Acquire? && e.e.op.granted then 1 else 0,
                         Apply(cfg, mode, s, e))
  {
    if e.WriteOk? || e.Alert? {
      EvalCounts(cfg, mode, s, e, HasGrant);
    }
  }

  lemma SaveStep(cfg: Config, mode: Mode, s: Sys, e: Event)
    requires Enabled(cfg, mode, s, e) && SaveBalance(s)
    ensures SaveBalance(Apply(cfg, mode, s, e))
  {
    if e.WriteOk? || e.Alert? {
      EvalCounts(cfg, mode, s, e, HoldsP0);
    }
  }

  /** The ledger holds in every reachable state of both modes, whatever fails or is lost. */
  lemma {:induction false} LedgerAlwaysHolds(cfg: Config, mode: Mode, run: Run)
    requires Valid(cfg, mode, run)
    ensures var s := After(cfg, mode, run);
            WorkerBalance(s) && PublishBalance(s) && ForwardBalance(s) && WriteBalance(s)
            && GrantBalance(Grants(run), s) && SaveBalance(s)
  {
    if run != [] {
      var front, e := run[..|run|-1], run[|run|-1];
      var s := After(cfg, mode, front);
      LedgerAlwaysHolds(cfg, mode, front);
      AlwaysConsistent(cfg, mode, front);
      WorkerStep(cfg, mode, s, e);
      PublishStep(cfg, mode, s, e);
      ForwardStep(cfg, mode, s, e);
      WriteStep(cfg, mode, s, e);
      GrantStep(cfg, mode, s, e, Grants(front));
      SaveStep(cfg, mode, s, e);
    }
  }

  /** The rows the database took. */
  function SavedRows(run: Run): seq<Record> {
    if run == [] then []
    else
      var e := run[|run|-1];
      SavedRows(run[..|run|-1]) + if e.Alert? && e.e.op.Save? && e.e.op.saved then [e.e.op.record] else []
  }

  lemma RowsStep(cfg: Config, mode: Mode, s: Sys, e: Event)
    requires Enabled(cfg, mode, s, e)
    ensures var c, c' := s.ctr, Apply(cfg, mode, s, e).ctr;
            c'.p0Saved + c'.recoverySaved == c.p0Saved + c.recoverySaved +
            if e.Alert? && e.e.op.Save? && e.e.op.saved then 1 else 0
  {
  }

  /** Every row in the table was counted as saved, and no other. */
  lemma {:induction false} RowsAreCounted(cfg: Config, mode: Mode, run: Run)
    requires Valid(cfg, mode, run)
    ensures var c := After(cfg, mode, run).ctr; |SavedRows(run)| == c.p0Saved + c.recoverySaved
  {
    if run != [] {
      RowsAreCounted(cfg, mode, run[..|run|-1]);
      RowsStep(cfg, mode, After(cfg, mode, run[..|run|-1]), run[|run|-1]);
    }
  }

  /** Nothing is in flight. */
  ghost predicate AtRest(s: Sys) {
    && s.worker == Idle
    && (forall pid :: pid in s.publishers ==> s.publishers[pid].pc == Closed)
    && (forall hid :: hid in s.handlers ==> s.handlers[hid].pc.Answered?)
    && (forall eid :: eid in s.alert.evals ==> s.alert.evals[eid].pc == A.Done)
  }

  /** The books of a system at rest. A process success the worker did not wait for stays one more
      than it knows of. */
  ghost predicate BooksClose(log: seq<Body>, offset: nat, w: WorkerCounters, c: Counters) {
    && w.readOk == offset <= |log|
    && w.readOk == w.decodeErrors + w.buildErrors + w.forwardErrors + w.non2xx + w.forwardOk
    && c.accepted == c.publishOk <= |log| && c.publishErrors == c.kafkaErrors
    && w.forwardOk <= c.processOk
    && c.writesOk == c.directOk + c.processOk
    && c.writesUnbuilt + c.writesFailed + c.writesNon2xx == c.directErrors + c.processErrors
    && c.p0Sent + c.p0Failed == c.p0Saved + c.p0SaveFailed
  }

  /** What the ledger says in plain counters: accepted never exceeds published, forwarded never
      exceeds processed, processed never exceeds written, P0 grants never fall short of
      notifications nor these of attempts to save; at rest the books close. */
  lemma CountersReconcile(cfg: Config, mode: Mode, run: Run)
    requires Valid(cfg, mode, run)
    ensures var s := After(cfg, mode, run); var w, c := s.work, s.ctr;
            && c.accepted <= c.publishOk <= |s.log|
            && w.readOk <= |s.log|
            && w.forwardOk <= c.processOk
            && c.directOk + c.processOk <= c.writesOk
            && Grants(run) >= c.p0Sent + c.p0Failed >= c.p0Saved + c.p0SaveFailed
            && (AtRest(s) ==>
                  && BooksClose(s.log, s.offset, w, c)
                  && Grants(run) == c.p0Sent + c.p0Failed
                  && |SavedRows(run)| == c.p0Saved + c.recoverySaved)
  {
    LedgerAlwaysHolds(cfg, mode, run);
    AlwaysConsistent(cfg, mode, run);
    RowsAreCounted(cfg, mode, run);
    var s := After(cfg, mode, run);
    if AtRest(s) {
      assert Matching(s.publishers, IsPublished) == {};
      assert Matching(s.handlers, IsEvaluating) == {};
      assert Matching(s.alert.evals, HasGrant) == {};
      assert Matching(s.alert.evals, HoldsP0) == {};
    }
  }
}
