// One evaluation of a sample run without interference, a sequence of them, and the history
// that says which alerts such a sequence must issue.

module Evaluation {
  import opened AlertModel
  import opened AlertStore

  /** What a call of the store interface answers. An error may be reported although the store
      has already taken the effect. The memory store always answers Ok. */
  datatype StoreCall = Ok | Error(applied: bool)

  /** Everything one evaluation reads from outside: the answers of the store calls, the clock
      inside the cooldown call, the clock stamped on the event, the answers of the notifier
      and of the database. */
  datatype Env = Env(inc: StoreCall, acquire: StoreCall, get: StoreCall, reset: StoreCall,
                     now: int, at: int, notified: Notified, saved: bool) {
    predicate Faultless() { inc.Ok? && acquire.Ok? && get.Ok? && reset.Ok? }
  }

  datatype Job = Job(sample: Sample, env: Env)

  datatype Verdict = Verdict(store: Mem, attempt: Option<Attempt>)

  /** What one evaluation does to the store, and the row it tries to save, if any. */
  function Evaluate(cfg: Config, st: Mem, s: Sample, env: Env): Verdict {
    var m := s.machine;
    if s.Breach(cfg) then
      var counted := st.Inc(m);
      if env.inc.Error? then
        Verdict(if env.inc.applied then counted else st, None)
      else if counted.Count(m) < cfg.triggerCount then
        Verdict(counted, None)
      else
        var acquired := counted.Acquire(m, env.now, cfg.Cooldown());
        if env.acquire.Error? then
          Verdict(if env.acquire.applied then acquired else counted, None)
        else
          Verdict(acquired,
                  if counted.Open(m, env.now)
                  then Some(Attempt(AlertRecord(cfg, s, env.notified, env.at), env.saved))
                  else None)
    else if env.get.Error? then
      Verdict(st, None)
    else if env.reset.Error? then
      Verdict(if env.reset.applied then st.Clear(m) else st, None)
    else
      Verdict(st.Clear(m),
              if st.Count(m) > 0
              then Some(Attempt(RecoveryRecord(cfg, s, st.Count(m), env.at), env.saved))
              else None)
  }

  /** One faultless evaluation in plain terms: what it does to the machine's counter, to its
      deadline and to the table. */
  ghost predicate InPlainTerms(cfg: Config, st: Mem, rows: seq<Record>, s: Sample, env: Env,
                               st': Mem, rows': seq<Record>) {
    var m, count := s.machine, st.Count(s.machine);
    if s.cpu > cfg.threshold then
      var granted := count + 1 >= cfg.triggerCount
                     && (st.Deadline(m) == None || env.now >= st.Deadline(m).value);
      && st'.Count(m) == count + 1
      && st'.Deadline(m) == (if granted then Some(env.now + cfg.cooldownSec * 1_000_000_000) else st.Deadline(m))
      && rows' == rows +
           (if granted && env.saved
            then [Record(machine := m, ip := s.ip, level := P0, threshold := cfg.threshold, current := s.cpu,
                         triggerCount := cfg.triggerCount, cooldownSec := cfg.cooldownSec,
                         status := env.notified, triggeredAt := env.at)]
            else [])
    else
      && st'.Count(m) == 0 && st'.Deadline(m) == st.Deadline(m)
      && rows' == rows +
           (if count > 0 && env.saved
            then [Record(machine := m, ip := s.ip, level := Recovery, threshold := cfg.threshold, current := s.cpu,
                         triggerCount := count, cooldownSec := cfg.cooldownSec,
                         status := Sent, triggeredAt := env.at)]
            else [])
  }

  /** Evaluations one after the other, on a store that starts empty. */
  datatype Outcome = Outcome(store: Mem, attempts: seq<Option<Attempt>>)

  function RunAll(cfg: Config, jobs: seq<Job>): (r: Outcome)
    ensures |r.attempts| == |jobs|
  {
    if jobs == [] then Outcome(EMPTY, [])
    else
      var before := RunAll(cfg, jobs[..|jobs|-1]);
      var job := jobs[|jobs|-1];
      var v := Evaluate(cfg, before.store, job.sample, job.env);
      Outcome(v.store, before.attempts + [v.attempt])
  }

  // ---- The history, told without a store ------------------------------------------------------

  /** The length of the breach run that ends the sequence. */
  function TrailingRun(cfg: Config, jobs: seq<Job>): (n: nat)
    ensures n <= |jobs|
    ensures forall i :: |jobs| - n <= i < |jobs| ==> jobs[i].sample.cpu > cfg.threshold
    ensures n < |jobs| ==> jobs[|jobs|-n-1].sample.cpu <= cfg.threshold
  {
    if jobs == [] || jobs[|jobs|-1].sample.cpu <= cfg.threshold then 0
    else 1 + TrailingRun(cfg, jobs[..|jobs|-1])
  }

  /** The last sample of the history must raise a P0. */
  predicate RaisesP0(cfg: Config, jobs: seq<Job>)
    requires jobs != []
    decreases |jobs|, 0
  {
    var job := jobs[|jobs|-1];
    && job.sample.cpu > cfg.threshold
    && TrailingRun(cfg, jobs) >= cfg.triggerCount
    && match PreviousP0(cfg, jobs[..|jobs|-1])
       case None => true
       case Some(t) => job.env.now >= t + cfg.cooldownSec * 1_000_000_000
  }

  /** The time of the latest P0 of the history. */
  function PreviousP0(cfg: Config, jobs: seq<Job>): Option<int>
    decreases |jobs|, 1
  {
    if jobs == [] then None
    else if RaisesP0(cfg, jobs) then Some(jobs[|jobs|-1].env.now)
    else PreviousP0(cfg, jobs[..|jobs|-1])
  }

  /** The row the last sample of the history must try to save. A P0 names the configured trigger
      count and what the notifier answered, a recovery the length of the run and always sent. */
  function Required(cfg: Config, jobs: seq<Job>): Option<Attempt>
    requires jobs != []
  {
    var Job(s, env) := jobs[|jobs|-1];
    var run := TrailingRun(cfg, jobs[..|jobs|-1]);
    if RaisesP0(cfg, jobs) then
      Some(Attempt(Record(machine := s.machine, ip := s.ip, level := P0, threshold := cfg.threshold,
                          current := s.cpu, triggerCount := cfg.triggerCount, cooldownSec := cfg.cooldownSec,
                          status := env.notified, triggeredAt := env.at), env.saved))
    else if s.cpu <= cfg.threshold && run > 0 then
      Some(Attempt(Record(machine := s.machine, ip := s.ip, level := Recovery, threshold := cfg.threshold,
                          current := s.cpu, triggerCount := run, cooldownSec := cfg.cooldownSec,
                          status := Sent, triggeredAt := env.at), env.saved))
    else None
  }

  /** Faultless evaluations of machine m only. */
  ghost predicate OneMachine(jobs: seq<Job>, m: MachineId) {
    forall j :: j in jobs ==> j.sample.machine == m && j.env.Faultless()
  }

  /** The end of the latest P0's cooldown. */
  function LastDeadline(cfg: Config, jobs: seq<Job>): Option<int> {
    match PreviousP0(cfg, jobs) case None => None case Some(t) => Some(t + cfg.cooldownSec * 1_000_000_000)
  }

  /** The store holds the trailing run and the end of the latest P0's cooldown. */
  ghost predicate HoldsHistory(cfg: Config, st: Mem, jobs: seq<Job>, m: MachineId) {
    st.Count(m) == TrailingRun(cfg, jobs) && st.Deadline(m) == LastDeadline(cfg, jobs)
  }

  lemma HistoryStep(cfg: Config, jobs: seq<Job>, st: Mem, m: MachineId)
    requires jobs != [] && jobs[|jobs|-1].sample.machine == m && jobs[|jobs|-1].env.Faultless()
    requires HoldsHistory(cfg, st, jobs[..|jobs|-1], m)
    ensures var v := Evaluate(cfg, st, jobs[|jobs|-1].sample, jobs[|jobs|-1].env);
            HoldsHistory(cfg, v.store, jobs, m) && v.attempt == Required(cfg, jobs)
  {
    var front, job := jobs[..|jobs|-1], jobs[|jobs|-1];
    assert PreviousP0(cfg, jobs) == if RaisesP0(cfg, jobs) then Some(job.env.now) else PreviousP0(cfg, front);
    assert TrailingRun(cfg, jobs) == if job.sample.Breach(cfg) then 1 + TrailingRun(cfg, front) else 0;
  }

  lemma {:induction false} StoreHoldsHistory(cfg: Config, jobs: seq<Job>, m: MachineId)
    requires OneMachine(jobs, m)
    ensures HoldsHistory(cfg, RunAll(cfg, jobs).store, jobs, m)
  {
    if jobs != [] {
      var front := jobs[..|jobs|-1];
      assert jobs[|jobs|-1] in jobs;
      StoreHoldsHistory(cfg, front, m);
      HistoryStep(cfg, jobs, RunAll(cfg, front).store, m);
    }
  }

  /** The history specification: every sample of a sequential run issues exactly what the
      history up to it requires. */
  lemma {:induction false} HistorySpecification(cfg: Config, jobs: seq<Job>, m: MachineId, k: nat)
    requires OneMachine(jobs, m) && k < |jobs|
    ensures RunAll(cfg, jobs).attempts[k] == Required(cfg, jobs[..k+1])
  {
    var front := jobs[..|jobs|-1];
    if k < |jobs| - 1 {
      HistorySpecification(cfg, front, m, k);
      assert front[..k+1] == jobs[..k+1];
    } else {
      assert jobs[..k+1] == jobs && jobs[k] in jobs;
      StoreHoldsHistory(cfg, front, m);
      HistoryStep(cfg, jobs, RunAll(cfg, front).store, m);
    }
  }

  /** A reported store error silences the evaluation, and no evaluation touches the counter or
      the cooldown of another machine. */
  lemma FaultsAreSilentAndLocal(cfg: Config, st: Mem, s: Sample, env: Env, other: MachineId)
    ensures var v := Evaluate(cfg, st, s, env);
            && (other != s.machine ==> v.store.SameAt(st, other))
            && (s.Breach(cfg) && env.inc.Error? ==> v.attempt == None)
            && (s.Breach(cfg) && env.acquire.Error? ==> v.attempt == None)
            && (!s.Breach(cfg) && (env.get.Error? || env.reset.Error?) ==> v.attempt == None)
            && (v.attempt.Some? ==> v.attempt.value.record.machine == s.machine)
  {
  }

  // ---- Runs with store errors -----------------------------------------------------------------

  /** The call took effect, whatever it answered. */
  predicate Applied(call: StoreCall) { call.Ok? || call.applied }

  /** The increments of m that took effect since its latest reset that did. */
  function AppliedRun(cfg: Config, jobs: seq<Job>, m: MachineId): nat {
    if jobs == [] then 0
    else
      var before := AppliedRun(cfg, jobs[..|jobs|-1], m);
      var Job(s, env) := jobs[|jobs|-1];
      if s.machine != m then before
      else if s.Breach(cfg) then (if Applied(env.inc) then before + 1 else before)
      else if env.get.Ok? && Applied(env.reset) then 0
      else before
  }

  /** The counter of m holds what took effect, whatever else was reported. */
  lemma {:induction false} CountIsAppliedRun(cfg: Config, jobs: seq<Job>, m: MachineId)
    ensures RunAll(cfg, jobs).store.Count(m) == AppliedRun(cfg, jobs, m)
  {
    if jobs != [] {
      var front := jobs[..|jobs|-1];
      CountIsAppliedRun(cfg, front, m);
      FaultsAreSilentAndLocal(cfg, RunAll(cfg, front).store, jobs[|jobs|-1].sample, jobs[|jobs|-1].env, m);
    }
  }

  lemma {:induction false} AttemptAt(cfg: Config, jobs: seq<Job>, k: nat)
    requires k < |jobs|
    ensures RunAll(cfg, jobs).attempts[k] ==
            Evaluate(cfg, RunAll(cfg, jobs[..k]).store, jobs[k].sample, jobs[k].env).attempt
  {
    if k < |jobs| - 1 {
      AttemptAt(cfg, jobs[..|jobs|-1], k);
      assert jobs[..|jobs|-1][..k] == jobs[..k];
    }
  }

  /** Sample k tries to save a row of this level. */
  predicate Issues(cfg: Config, jobs: seq<Job>, k: nat, level: Level)
    requires k < |jobs|
  {
    var a := RunAll(cfg, jobs).attempts[k];
    a.Some? && a.value.record.level == level
  }

  /** No later cooldown of m ends before that of an earlier P0. */
  lemma {:induction false} P0sSetDeadlines(cfg: Config, jobs: seq<Job>, k: nat)
    requires cfg.cooldownSec >= 0 && k < |jobs| && Issues(cfg, jobs, k, P0)
    ensures var d := RunAll(cfg, jobs).store.Deadline(jobs[k].sample.machine);
            d.Some? && jobs[k].env.now + cfg.cooldownSec * 1_000_000_000 <= d.value
  {
    if k < |jobs| - 1 {
      P0sSetDeadlines(cfg, jobs[..|jobs|-1], k);
    }
  }

  /** Whatever store calls of whatever machines fail, with or without effect: two P0s of one
      machine are at least the cooldown apart. */
  lemma FaultyP0sAreApart(cfg: Config, jobs: seq<Job>, i: nat, j: nat)
    requires cfg.cooldownSec >= 0 && i < j < |jobs| && jobs[i].sample.machine == jobs[j].sample.machine
    requires Issues(cfg, jobs, i, P0) && Issues(cfg, jobs, j, P0)
    ensures jobs[j].env.now - jobs[i].env.now >= cfg.cooldownSec * 1_000_000_000
  {
    var front := jobs[..j];
    AttemptAt(cfg, jobs, i);
    AttemptAt(cfg, jobs, j);
    AttemptAt(cfg, front, i);
    assert front[..i] == jobs[..i];
    P0sSetDeadlines(cfg, front, i);
  }

  /** The same, told at the later sample: while the clock reads less than a cooldown after a P0 of
      a machine, no other P0 of that machine is issued. */
  lemma NoSecondP0(cfg: Config, jobs: seq<Job>, i: nat, j: nat)
    requires i < j < |jobs| && jobs[i].sample.machine == jobs[j].sample.machine && Issues(cfg, jobs, i, P0)
    requires cfg.cooldownSec >= 0 && jobs[j].env.now < jobs[i].env.now + cfg.cooldownSec * 1_000_000_000
    ensures !Issues(cfg, jobs, j, P0)
  {
    if Issues(cfg, jobs, j, P0) {
      FaultyP0sAreApart(cfg, jobs, i, j);
      assert false;
    }
  }

  /** Whatever fails: a P0 needs as many increments that took effect since the latest reset that
      did as the trigger count says, its own among them, and a RECOVERY row carries their number. */
  lemma FaultyRowsCountTheirRun(cfg: Config, jobs: seq<Job>, k: nat)
    requires k < |jobs|
    ensures var m := jobs[k].sample.machine;
            && (Issues(cfg, jobs, k, P0) ==>
                  && jobs[k].sample.Breach(cfg) && jobs[k].env.inc.Ok?
                  && AppliedRun(cfg, jobs[..k+1], m) == AppliedRun(cfg, jobs[..k], m) + 1 >= cfg.triggerCount)
            && (Issues(cfg, jobs, k, Recovery) ==>
                  && !jobs[k].sample.Breach(cfg)
                  && RunAll(cfg, jobs).attempts[k].value.record.triggerCount == AppliedRun(cfg, jobs[..k], m) > 0
                  && AppliedRun(cfg, jobs[..k+1], m) == 0)
  {
    AttemptAt(cfg, jobs, k);
    CountIsAppliedRun(cfg, jobs[..k], jobs[k].sample.machine);
    assert jobs[..k+1][..k] == jobs[..k];
  }
}
