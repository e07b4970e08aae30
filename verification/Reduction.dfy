// Reducing interleaved runs to sequential ones.

module Reduction {
  import opened AlertModel
  import opened AlertStore
  import opened Interleaving
  import opened Evaluation
  import Safety
  import Charges

  // ---- Other machines commute away ------------------------------------------------------------

  /** State p shows exactly what s holds for machine m. */
  ghost predicate ShowsMachine(s: State, p: State, m: MachineId) {
    && s.store.SameAt(p.store, m)
    && p.clock <= s.clock
    && (forall eid :: eid in p.evals <==> eid in s.evals && s.evals[eid].sample.machine == m)
    && (forall eid :: eid in p.evals ==> p.evals[eid] == s.evals[eid])
  }

  /** An event of m happens on both sides, with the same observations. */
  lemma OwnEventShows(cfg: Config, s: State, p: State, e: Event, m: MachineId)
    requires ShowsMachine(s, p, m) && Enabled(cfg, s, e) && e.machine == m
    ensures Enabled(cfg, p, e) && ShowsMachine(Apply(cfg, s, e), Apply(cfg, p, e), m)
  {
  }

  lemma OtherEventShows(cfg: Config, s: State, p: State, e: Event, m: MachineId)
    requires ShowsMachine(s, p, m) && Enabled(cfg, s, e) && e.machine != m
    ensures ShowsMachine(Apply(cfg, s, e), p, m)
  {
  }

  /** Under every interleaving, m's events alone are a run, with the same observations, and they
      lead to the same counter, cooldown and evaluations of m. */
  lemma {:induction false} MachinesCommute(cfg: Config, tr: Trace, m: MachineId)
    requires Valid(cfg, tr)
    ensures Valid(cfg, Proj(tr, m))
    ensures ShowsMachine(After(cfg, tr), After(cfg, Proj(tr, m)), m)
  {
    if tr != [] {
      var front, e := tr[..|tr|-1], tr[|tr|-1];
      var s, p := After(cfg, front), Proj(tr, m);
      MachinesCommute(cfg, front, m);
      if e.machine == m {
        assert p[..|p|-1] == Proj(front, m);
        OwnEventShows(cfg, s, After(cfg, Proj(front, m)), e, m);
      } else {
        OtherEventShows(cfg, s, After(cfg, p), e, m);
      }
    }
  }

  // ---- One machine at a time is sequential ----------------------------------------------------

  /** The readings of an evaluation that has not made them yet. */
  const UNREAD := Env(Ok, Ok, Ok, Ok, 0, 0, Sent, false)

  /** What an event adds to the readings of its evaluation. */
  function Reading(env: Env, op: Op): Env {
    match op
    case Acquire(now, _) => env.(now := now)
    case Notify(at, result) => env.(at := at, notified := result)
    case Save(_, saved) => env.(saved := saved)
    case _ => env
  }

  /** One job for every evaluation of m, in the order in which they begin. The clock readings
      and the answers of notifier and database are those of its events. */
  function Jobs(tr: Trace, m: MachineId): seq<Job> {
    if tr == [] then []
    else
      var e := tr[|tr|-1];
      var js := Jobs(tr[..|tr|-1], m);
      if e.machine != m then js
      else if e.op.Begin? then js + [Job(e.op.sample, UNREAD)]
      else if js == [] then js
      else
        var Job(s, env) := js[|js|-1];
        js[|js|-1 := Job(s, Reading(env, e.op))]
  }

  /** The rows a sequential run tried to save. */
  function Rows(attempts: seq<Option<Attempt>>): seq<Attempt> {
    if attempts == [] then []
    else
      Rows(attempts[..|attempts|-1]) +
      match attempts[|attempts|-1] { case None => [] case Some(a) => [a] }
  }

  /** How far the evaluation of job j has come when it stands at pc and started from base. */
  ghost predicate Midway(cfg: Config, base: Mem, j: Job, pc: Pc, st: Mem) {
    var m := j.sample.machine;
    var counted := base.Inc(m);
    match pc
    case Started => st.SameAt(base, m)
    case Counted => j.sample.Breach(cfg) && st.SameAt(counted, m) && counted.Count(m) >= cfg.triggerCount
    case Granted =>
      && j.sample.Breach(cfg) && counted.Count(m) >= cfg.triggerCount
      && counted.Open(m, j.env.now) && st.SameAt(counted.Acquire(m, j.env.now, cfg.Cooldown()), m)
    case Seen(prev) => !j.sample.Breach(cfg) && st.SameAt(base, m) && prev == base.Count(m)
    case Cleared(prev) => !j.sample.Breach(cfg) && st.SameAt(base.Clear(m), m) && prev == base.Count(m) > 0
    case Saving(record) =>
      var v := Evaluate(cfg, base, j.sample, j.env);
      v.attempt.Some? && v.attempt.value.record == record && st.SameAt(v.store, m)
    case Done => false
  }

  /** The active evaluation of m runs the last job, and everything before it is settled. */
  ghost predicate Running(cfg: Config, tr: Trace, m: MachineId, eid: nat)
    requires Valid(cfg, tr)
  {
    var s := After(cfg, tr);
    var js := Jobs(tr, m);
    && s.Active(eid, m)
    && (forall other :: s.Active(other, m) ==> other == eid)
    && js != []
    && js[|js|-1].sample == s.evals[eid].sample
    && js[|js|-1].env.Faultless()
    && var before := RunAll(cfg, js[..|js|-1]);
    && Attempts(tr, m) == Rows(before.attempts)
    && Midway(cfg, before.store, js[|js|-1], s.evals[eid].pc, s.store)
  }

  /** m has no active evaluation, and all of its jobs are settled. */
  ghost predicate Settled(cfg: Config, tr: Trace, m: MachineId)
    requires Valid(cfg, tr)
  {
    var s := After(cfg, tr);
    var r := RunAll(cfg, Jobs(tr, m));
    s.Idle(m) && Attempts(tr, m) == Rows(r.attempts) && s.store.SameAt(r.store, m)
  }

  lemma LastRow(attempts: seq<Option<Attempt>>, last: Option<Attempt>)
    ensures Rows(attempts + [last]) == Rows(attempts) + match last { case None => [] case Some(a) => [a] }
  {
  }

  /** Events of other machines leave m where it was. */
  lemma OtherMachine(cfg: Config, front: Trace, e: Event, m: MachineId)
    requires Valid(cfg, front) && Enabled(cfg, After(cfg, front), e) && e.machine != m
    ensures var tr := front + [e];
            && Valid(cfg, tr)
            && Jobs(tr, m) == Jobs(front, m) && Attempts(tr, m) == Attempts(front, m)
            && (Settled(cfg, front, m) ==> Settled(cfg, tr, m))
            && (forall eid :: Running(cfg, front, m, eid) ==> Running(cfg, tr, m, eid))
  {
    var tr := front + [e];
    assert tr[..|tr|-1] == front;
    var s, s' := After(cfg, front), After(cfg, tr);
    assert forall eid :: s'.Active(eid, m) <==> s.Active(eid, m);
    assert s'.store.SameAt(s.store, m);
  }

  /** A new evaluation of m opens a new job. */
  lemma BeginsJob(cfg: Config, front: Trace, e: Event, m: MachineId)
    requires Valid(cfg, front) && Enabled(cfg, After(cfg, front), e) && e.machine == m && e.op.Begin?
    requires Settled(cfg, front, m)
    ensures Valid(cfg, front + [e]) && Running(cfg, front + [e], m, e.eid)
  {
    var tr := front + [e];
    assert tr[..|tr|-1] == front;
    var js := Jobs(tr, m);
    assert js[..|js|-1] == Jobs(front, m);
    var s, s' := After(cfg, front), After(cfg, tr);
    forall other | s'.Active(other, m) ensures other == e.eid {
      assert !s.Active(other, m);
    }
  }

  /** A step of the active evaluation carries its job on or settles it. */
  lemma StepsJob(cfg: Config, front: Trace, e: Event, m: MachineId)
    requires Valid(cfg, front) && Enabled(cfg, After(cfg, front), e) && e.machine == m && !e.op.Begin?
    requires Running(cfg, front, m, e.eid)
    ensures Valid(cfg, front + [e])
    ensures if After(cfg, front + [e]).Active(e.eid, m) then Running(cfg, front + [e], m, e.eid)
            else Settled(cfg, front + [e], m)
  {
    var tr := front + [e];
    assert tr[..|tr|-1] == front;
    var js, js' := Jobs(front, m), Jobs(tr, m);
    var n := |js| - 1;
    assert js'[..n] == js[..n];
    var before := RunAll(cfg, js[..n]);
    var s, s' := After(cfg, front), After(cfg, tr);
    forall other | s'.Active(other, m) ensures other == e.eid {
      assert s.Active(other, m);
    }
    if s'.Active(e.eid, m) {
      MidwayStep(cfg, before.store, js[n], js'[n], s, e);
    } else {
      LastStep(cfg, before.store, js[n], js'[n], s, e);
      LastRow(before.attempts, Evaluate(cfg, before.store, js'[n].sample, js'[n].env).attempt);
      forall other ensures !s'.Active(other, m) {}
    }
  }

  lemma MidwayStep(cfg: Config, base: Mem, j: Job, j': Job, s: State, e: Event)
    requires Enabled(cfg, s, e) && !e.op.Begin? && e.eid in s.evals
    requires j.sample == s.evals[e.eid].sample && j.env.Faultless()
    requires j' == Job(j.sample, Reading(j.env, e.op))
    requires Midway(cfg, base, j, s.evals[e.eid].pc, s.store)
    requires Apply(cfg, s, e).evals[e.eid].pc != Done
    ensures Midway(cfg, base, j', Apply(cfg, s, e).evals[e.eid].pc, Apply(cfg, s, e).store)
  {
  }

  lemma LastStep(cfg: Config, base: Mem, j: Job, j': Job, s: State, e: Event)
    requires Enabled(cfg, s, e) && !e.op.Begin? && e.eid in s.evals
    requires j.sample == s.evals[e.eid].sample && j.env.Faultless()
    requires j' == Job(j.sample, Reading(j.env, e.op))
    requires Midway(cfg, base, j, s.evals[e.eid].pc, s.store)
    requires Apply(cfg, s, e).evals[e.eid].pc == Done
    ensures var v := Evaluate(cfg, base, j'.sample, j'.env);
            && Apply(cfg, s, e).store.SameAt(v.store, j.sample.machine)
            && v.attempt == if e.op.Save? then Some(Attempt(e.op.record, e.op.saved)) else None
  {
  }

  lemma {:induction false} SettledOrRunning(cfg: Config, tr: Trace, m: MachineId)
    requires Valid(cfg, tr) && Disjoint(cfg, tr, m)
    ensures Settled(cfg, tr, m) || exists eid :: Running(cfg, tr, m, eid)
  {
    if tr == [] {
      assert Settled(cfg, tr, m);
    } else {
      var front, e := tr[..|tr|-1], tr[|tr|-1];
      assert tr == front + [e];
      SettledOrRunning(cfg, front, m);
      if e.machine != m {
        OtherMachine(cfg, front, e, m);
      } else if e.op.Begin? {
        BeginsJob(cfg, front, e, m);
      } else {
        assert After(cfg, front).Active(e.eid, m);
        StepsJob(cfg, front, e, m);
      }
    }
  }

  lemma {:induction false} JobsAreArrivals(tr: Trace, m: MachineId)
    ensures |Jobs(tr, m)| == |Arrivals(tr, m)|
    ensures forall k :: 0 <= k < |Jobs(tr, m)| ==>
              Jobs(tr, m)[k].sample == Arrivals(tr, m)[k] && Jobs(tr, m)[k].env.Faultless()
  {
    if tr != [] {
      JobsAreArrivals(tr[..|tr|-1], m);
    }
  }

  lemma {:induction false} ArrivalsOfMachine(cfg: Config, tr: Trace, m: MachineId)
    requires Valid(cfg, tr)
    ensures forall k :: 0 <= k < |Arrivals(tr, m)| ==> Arrivals(tr, m)[k].machine == m
  {
    if tr != [] {
      ArrivalsOfMachine(cfg, tr[..|tr|-1], m);
    }
  }

  /** Reduction: whatever other machines do in between, when m's own evaluations do not overlap
      its rows, counter and cooldown are those of running its own samples alone, in order, at the
      times and with the answers they met. */
  lemma SequentialReduction(cfg: Config, tr: Trace, m: MachineId)
    requires Valid(cfg, tr) && Disjoint(cfg, tr, m) && After(cfg, tr).Idle(m)
    ensures OneMachine(Jobs(tr, m), m)
    ensures |Jobs(tr, m)| == |Arrivals(tr, m)|
    ensures forall k :: 0 <= k < |Jobs(tr, m)| ==> Jobs(tr, m)[k].sample == Arrivals(tr, m)[k]
    ensures var alone := RunAll(cfg, Jobs(tr, m));
            Attempts(tr, m) == Rows(alone.attempts) && After(cfg, tr).store.SameAt(alone.store, m)
  {
    JobsAreArrivals(tr, m);
    ArrivalsOfMachine(cfg, tr, m);
    SettledOrRunning(cfg, tr, m);
  }

  // ---- The history of an interleaved run ------------------------------------------------------

  /** The rows a history requires, told without a store. */
  function RequiredRows(cfg: Config, jobs: seq<Job>): seq<Attempt> {
    if jobs == [] then []
    else
      RequiredRows(cfg, jobs[..|jobs|-1]) +
      match Required(cfg, jobs) { case None => [] case Some(a) => [a] }
  }

  lemma {:induction false} RowsAreRequired(cfg: Config, jobs: seq<Job>, m: MachineId)
    requires OneMachine(jobs, m)
    ensures Rows(RunAll(cfg, jobs).attempts) == RequiredRows(cfg, jobs)
  {
    if jobs != [] {
      var front := jobs[..|jobs|-1];
      RowsAreRequired(cfg, front, m);
      HistorySpecification(cfg, jobs, m, |jobs| - 1);
      assert jobs[..|jobs|] == jobs;
      LastRow(RunAll(cfg, front).attempts, Required(cfg, jobs));
    }
  }

  /** The history specification of interleaved runs: the rows of m are exactly those its own
      samples require, a P0 for each breach that has lasted for the trigger count and comes a
      cooldown after the previous P0, a RECOVERY for each sample that ends a breach run. */
  lemma InterleavedHistory(cfg: Config, tr: Trace, m: MachineId)
    requires Valid(cfg, tr) && Disjoint(cfg, tr, m) && After(cfg, tr).Idle(m)
    ensures Attempts(tr, m) == RequiredRows(cfg, Jobs(tr, m))
  {
    SequentialReduction(cfg, tr, m);
    RowsAreRequired(cfg, Jobs(tr, m), m);
  }

  // ---- Recoveries account for every deleted breach --------------------------------------------

  /** The run lengths reported by RECOVERY rows. */
  function Reported(rows: seq<Attempt>): int {
    if rows == [] then 0
    else
      var r := rows[|rows|-1].record;
      Reported(rows[..|rows|-1]) + if r.level == Recovery then r.triggerCount else 0
  }

  /** The run length an evaluation has deleted but not yet reported. */
  function Unreported(pc: Pc): int {
    match pc
    case Cleared(prev) => prev
    case Saving(record) => if record.level == Recovery then record.triggerCount else 0
    case _ => 0
  }

  /** The breaches of m that were deleted but not reported. */
  function Gap(cfg: Config, tr: Trace, m: MachineId): int
    requires Valid(cfg, tr)
  {
    Safety.Deleted(cfg, tr, m) - Reported(Attempts(tr, m))
  }

  lemma GapStep(cfg: Config, front: Trace, e: Event, m: MachineId)
    requires Valid(cfg, front) && Enabled(cfg, After(cfg, front), e)
    ensures Valid(cfg, front + [e])
    ensures Gap(cfg, front + [e], m) == Gap(cfg, front, m) +
            if e.machine != m then 0
            else match e.op
                 case Reset => After(cfg, front).store.Count(m)
                 case Save(record, _) => -Unreported(Saving(record))
                 case _ => 0
  {
  }

  /** An idle machine has reported everything; a single active evaluation owes the rest. */
  ghost predicate Accounted(cfg: Config, tr: Trace, m: MachineId)
    requires Valid(cfg, tr)
  {
    var s := After(cfg, tr);
    && (s.Idle(m) ==> Gap(cfg, tr, m) == 0)
    && (forall eid :: s.Active(eid, m) ==> Gap(cfg, tr, m) == Unreported(s.evals[eid].pc))
  }

  lemma {:induction false} DeletedIsReported(cfg: Config, tr: Trace, m: MachineId)
    requires Valid(cfg, tr) && Disjoint(cfg, tr, m)
    ensures Accounted(cfg, tr, m)
  {
    if tr != [] {
      var front, e := tr[..|tr|-1], tr[|tr|-1];
      assert tr == front + [e];
      DeletedIsReported(cfg, front, m);
      GapStep(cfg, front, e, m);
      if e.machine != m {
        OthersKeepAccounts(cfg, front, e, m);
      } else if !e.op.Begin? {
        OwnStepKeepsAccounts(cfg, front, e, m);
      }
    }
  }

  lemma OthersKeepAccounts(cfg: Config, front: Trace, e: Event, m: MachineId)
    requires Valid(cfg, front) && Enabled(cfg, After(cfg, front), e) && e.machine != m && Accounted(cfg, front, m)
    requires Valid(cfg, front + [e]) && Gap(cfg, front + [e], m) == Gap(cfg, front, m)
    ensures Accounted(cfg, front + [e], m)
  {
    var tr := front + [e];
    assert tr[..|tr|-1] == front;
    var s, s' := After(cfg, front), After(cfg, tr);
    assert forall eid :: s'.Active(eid, m) <==> s.Active(eid, m);
  }

  lemma OwnStepKeepsAccounts(cfg: Config, front: Trace, e: Event, m: MachineId)
    requires Valid(cfg, front) && Disjoint(cfg, front, m) && Accounted(cfg, front, m)
    requires Enabled(cfg, After(cfg, front), e) && e.machine == m && !e.op.Begin?
    ensures Valid(cfg, front + [e]) && Accounted(cfg, front + [e], m)
  {
    GapStep(cfg, front, e, m);
    var tr := front + [e];
    assert tr[..|tr|-1] == front;
    var s, s' := After(cfg, front), After(cfg, tr);
    assert s.Active(e.eid, m);
    if e.op.Reset? {
      Charges.ReadIsCurrent(cfg, front, m, e.eid);
    }
    forall eid | s'.Active(eid, m) ensures eid == e.eid {
      assert s.Active(eid, m);
      Charges.OneActive(cfg, front, m, eid, e.eid);
    }
    assert s'.Idle(m) ==> !s'.Active(e.eid, m);
  }

  /** Conservation of breaches, when m's evaluations do not overlap: every increment is still
      counted or was reported by a RECOVERY row. */
  lemma BreachesAreReported(cfg: Config, tr: Trace, m: MachineId)
    requires Valid(cfg, tr) && Disjoint(cfg, tr, m) && After(cfg, tr).Idle(m)
    ensures Increments(tr, m) == After(cfg, tr).store.Count(m) + Reported(Attempts(tr, m))
  {
    Safety.BreachesAreConserved(cfg, tr, m);
    DeletedIsReported(cfg, tr, m);
  }

  // ---- Exactly when that equation holds, under every interleaving -----------------------------

  /** The sum of the run lengths m's evaluations have read. */
  function ReadTotal(tr: Trace, m: MachineId): nat {
    if tr == [] then 0
    else
      var e := tr[|tr|-1];
      ReadTotal(tr[..|tr|-1], m) + if e.machine == m && e.op.Get? then e.op.prev else 0
  }

  /** The run length an evaluation has read but not yet reported. */
  function Owed(ev: Eval, m: MachineId): int {
    if ev.sample.machine != m then 0 else if ev.pc.Seen? then ev.pc.prev else Unreported(ev.pc)
  }

  /** What the evaluations numbered below n owe together. */
  function OwedBelow(evals: map<nat, Eval>, m: MachineId, n: nat): int {
    if n == 0 then 0
    else OwedBelow(evals, m, n - 1) + if n - 1 in evals then Owed(evals[n-1], m) else 0
  }

  lemma {:induction false} OwedUpdate(evals: map<nat, Eval>, m: MachineId, n: nat, eid: nat, ev: Eval)
    ensures OwedBelow(evals[eid := ev], m, n) == OwedBelow(evals, m, n) +
            if eid < n then Owed(ev, m) - (if eid in evals then Owed(evals[eid], m) else 0) else 0
  {
    if n > 0 {
      OwedUpdate(evals, m, n - 1, eid, ev);
    }
  }

  lemma {:induction false} NothingOwed(s: State, m: MachineId, n: nat)
    requires s.Idle(m)
    ensures OwedBelow(s.evals, m, n) == 0
  {
    if n > 0 {
      NothingOwed(s, m, n - 1);
      assert !s.Active(n - 1, m);
    }
  }

  /** A read creates a debt and a saved recovery settles it; nothing else changes what is owed. */
  lemma OwedStep(cfg: Config, s: State, e: Event, m: MachineId)
    requires Enabled(cfg, s, e)
    ensures var s' := Apply(cfg, s, e);
            && e.eid in s'.evals && s'.evals == s.evals[e.eid := s'.evals[e.eid]]
            && Owed(s'.evals[e.eid], m) - (if e.eid in s.evals then Owed(s.evals[e.eid], m) else 0) ==
               if e.machine != m then 0
               else match e.op
                    case Get(prev) => prev
                    case Save(record, _) => if record.level == Recovery then -record.triggerCount else 0
                    case _ => 0
  {
  }

  /** Whatever was read is reported or owed. */
  lemma {:induction false} ReadIsReportedOrOwed(cfg: Config, tr: Trace, m: MachineId, n: nat)
    requires Valid(cfg, tr) && forall i :: 0 <= i < |tr| ==> tr[i].eid < n
    ensures ReadTotal(tr, m) == Reported(Attempts(tr, m)) + OwedBelow(After(cfg, tr).evals, m, n)
  {
    if tr == [] {
      NothingOwed(INIT, m, n);
    } else {
      var front, e := tr[..|tr|-1], tr[|tr|-1];
      var s, s' := After(cfg, front), After(cfg, tr);
      ReadIsReportedOrOwed(cfg, front, m, n);
      OwedStep(cfg, s, e, m);
      OwedUpdate(s.evals, m, n, e.eid, s'.evals[e.eid]);
    }
  }

  /** A number above those of all evaluations. */
  function NextEid(tr: Trace): (n: nat)
    ensures forall i :: 0 <= i < |tr| ==> tr[i].eid < n
  {
    if tr == [] then 0
    else
      var n := NextEid(tr[..|tr|-1]);
      if tr[|tr|-1].eid < n then n else tr[|tr|-1].eid + 1
  }

  /** Under every interleaving, once m's evaluations are over, the RECOVERY rows report what the
      evaluations have read. So every increment is counted or reported exactly when the values
      read add up to the values deleted. */
  lemma ReadingsAreReported(cfg: Config, tr: Trace, m: MachineId)
    requires Valid(cfg, tr) && After(cfg, tr).Idle(m)
    ensures Reported(Attempts(tr, m)) == ReadTotal(tr, m)
    ensures Increments(tr, m) == After(cfg, tr).store.Count(m) + Reported(Attempts(tr, m))
       <==> ReadTotal(tr, m) == Safety.Deleted(cfg, tr, m)
  {
    ReadIsReportedOrOwed(cfg, tr, m, NextEid(tr));
    NothingOwed(After(cfg, tr), m, NextEid(tr));
    Safety.BreachesAreConserved(cfg, tr, m);
  }
}
