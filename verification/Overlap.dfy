// What overlapping evaluations of one machine can do: report one breach any number of times, and
// lose a whole run without a report.

module Overlap {
  import opened AlertModel
  import opened Interleaving
  import Safety
  import Reduction

  const HOST: MachineId := "host"

  function High(cfg: Config): Sample { Sample(HOST, "", cfg.threshold + 1.0, 0.0, 0.0, 1) }

  function Low(cfg: Config): Sample { Sample(HOST, "", cfg.threshold, 0.0, 0.0, 1) }

  /** One breach, and then n evaluations that have read it and not yet reset it. */
  function Reads(cfg: Config, n: nat): Trace {
    if n == 0 then [Event(0, HOST, Begin(High(cfg)))] + [Event(0, HOST, Inc(1))]
    else Reads(cfg, n - 1) + [Event(n, HOST, Begin(Low(cfg)))] + [Event(n, HOST, Get(1))]
  }

  /** The first k of them reset, notify and save. */
  function Recovers(cfg: Config, n: nat, k: nat): Trace {
    if k == 0 then Reads(cfg, n)
    else
      Recovers(cfg, n, k - 1) + [Event(k, HOST, Reset)] + [Event(k, HOST, Notify(0, Sent))]
        + [Event(k, HOST, Save(RecoveryRecord(cfg, Low(cfg), 1, 0), true))]
  }

  lemma Extend(cfg: Config, tr: Trace, e: Event)
    requires Valid(cfg, tr) && Enabled(cfg, After(cfg, tr), e) && e.machine == HOST
    ensures Valid(cfg, tr + [e]) && After(cfg, tr + [e]) == Apply(cfg, After(cfg, tr), e)
    ensures Increments(tr + [e], HOST) == Increments(tr, HOST) + if e.op.Inc? then 1 else 0
    ensures Attempts(tr + [e], HOST) ==
            if e.op.Save? then Attempts(tr, HOST) + [Attempt(e.op.record, e.op.saved)] else Attempts(tr, HOST)
  {
  }

  /** Evaluations k+1 to n wait for their reset; the clock has not moved. */
  ghost predicate Waiting(cfg: Config, s: State, n: nat, k: nat) {
    && s.clock == 0
    && (forall i :: i in s.evals ==> i <= n)
    && (forall i :: k < i <= n ==> i in s.evals && s.evals[i] == Eval(Low(cfg), Seen(1)))
  }

  lemma OneBreach(cfg: Config)
    ensures var tr := Reads(cfg, 0);
            && Valid(cfg, tr) && Waiting(cfg, After(cfg, tr), 0, 0) && After(cfg, tr).store.Count(HOST) == 1
            && Increments(tr, HOST) == 1 && Attempts(tr, HOST) == []
  {
    var begin := Event(0, HOST, Begin(High(cfg)));
    Extend(cfg, [], begin);
    assert [] + [begin] == [begin];
    Extend(cfg, [begin], Event(0, HOST, Inc(1)));
  }

  lemma OneRead(cfg: Config, tr: Trace, n: nat)
    requires n > 0 && Valid(cfg, tr) && Waiting(cfg, After(cfg, tr), n - 1, 0) && After(cfg, tr).store.Count(HOST) == 1
    ensures var tr' := tr + [Event(n, HOST, Begin(Low(cfg)))] + [Event(n, HOST, Get(1))];
            && Valid(cfg, tr') && Waiting(cfg, After(cfg, tr'), n, 0) && After(cfg, tr').store.Count(HOST) == 1
            && Increments(tr', HOST) == Increments(tr, HOST) && Attempts(tr', HOST) == Attempts(tr, HOST)
  {
    var begin, get := Event(n, HOST, Begin(Low(cfg))), Event(n, HOST, Get(1));
    var s := After(cfg, tr);
    assert n !in s.evals;
    Extend(cfg, tr, begin);
    Extend(cfg, tr + [begin], get);
    var s' := After(cfg, tr + [begin] + [get]);
    assert s'.evals == s.evals[n := Eval(Low(cfg), Seen(1))];
  }

  lemma {:induction false} ReadsRun(cfg: Config, n: nat)
    ensures var tr := Reads(cfg, n);
            && Valid(cfg, tr) && Waiting(cfg, After(cfg, tr), n, 0) && After(cfg, tr).store.Count(HOST) == 1
            && Increments(tr, HOST) == 1 && Attempts(tr, HOST) == []
  {
    if n == 0 {
      OneBreach(cfg);
    } else {
      ReadsRun(cfg, n - 1);
      OneRead(cfg, Reads(cfg, n - 1), n);
    }
  }

  lemma OneRecovery(cfg: Config, tr: Trace, n: nat, k: nat)
    requires 0 < k <= n && Valid(cfg, tr) && Waiting(cfg, After(cfg, tr), n, k - 1)
    ensures var row := RecoveryRecord(cfg, Low(cfg), 1, 0);
            var tr' := tr + [Event(k, HOST, Reset)] + [Event(k, HOST, Notify(0, Sent))]
                          + [Event(k, HOST, Save(row, true))];
            && Valid(cfg, tr') && Waiting(cfg, After(cfg, tr'), n, k)
            && Increments(tr', HOST) == Increments(tr, HOST)
            && Attempts(tr', HOST) == Attempts(tr, HOST) + [Attempt(row, true)]
  {
    var reset, notify := Event(k, HOST, Reset), Event(k, HOST, Notify(0, Sent));
    var save := Event(k, HOST, Save(RecoveryRecord(cfg, Low(cfg), 1, 0), true));
    var s := After(cfg, tr);
    assert k in s.evals && s.evals[k] == Eval(Low(cfg), Seen(1));
    Extend(cfg, tr, reset);
    Extend(cfg, tr + [reset], notify);
    Extend(cfg, tr + [reset] + [notify], save);
    var s' := After(cfg, tr + [reset] + [notify] + [save]);
    assert s'.evals == s.evals[k := Eval(Low(cfg), Done)];
  }

  /** k rows, each a RECOVERY of a run of length 1. */
  ghost predicate Recoveries(rows: seq<Attempt>, k: nat) {
    && |rows| == k == Reduction.Reported(rows)
    && forall i :: 0 <= i < k ==> rows[i].record.level == Recovery
  }

  lemma OneMoreRecovery(rows: seq<Attempt>, k: nat, row: Attempt)
    requires Recoveries(rows, k) && row.record.level == Recovery && row.record.triggerCount == 1
    ensures Recoveries(rows + [row], k + 1)
  {
  }

  lemma {:induction false} RecoversRun(cfg: Config, n: nat, k: nat)
    requires k <= n
    ensures var tr := Recovers(cfg, n, k);
            && Valid(cfg, tr) && Waiting(cfg, After(cfg, tr), n, k)
            && Increments(tr, HOST) == 1 && Recoveries(Attempts(tr, HOST), k)
  {
    if k == 0 {
      ReadsRun(cfg, n);
    } else {
      var before := Recovers(cfg, n, k - 1);
      RecoversRun(cfg, n, k - 1);
      OneRecovery(cfg, before, n, k);
      OneMoreRecovery(Attempts(before, HOST), k - 1, Attempt(RecoveryRecord(cfg, Low(cfg), 1, 0), true));
    }
  }

  /** Overlap breaks the reporting of breaches: for every n there is a run in which a single
      breach is reported as recovered n times, though the resets deleted it at most once. */
  lemma OverlapMultipliesRecoveries(cfg: Config, n: nat)
    ensures exists tr :: Valid(cfg, tr)
                      && Increments(tr, HOST) == 1 && Safety.Deleted(cfg, tr, HOST) <= 1
                      && Recoveries(Attempts(tr, HOST), n)
  {
    RecoversRun(cfg, n, n);
    Safety.BreachesAreConserved(cfg, Recovers(cfg, n, n), HOST);
  }

  // ---- A run that is never reported -----------------------------------------------------------

  /** Evaluation 0 reads an empty run, and then k evaluations count a breach each. */
  function Builds(cfg: Config, k: nat): Trace {
    if k == 0 then [Event(0, HOST, Begin(Low(cfg)))] + [Event(0, HOST, Get(0))]
    else Builds(cfg, k - 1) + [Event(k, HOST, Begin(High(cfg)))] + [Event(k, HOST, Inc(k))]
  }

  /** Evaluation 0 waits for its reset, k breaches are counted, and nothing is saved. */
  ghost predicate Built(cfg: Config, tr: Trace, k: nat) {
    && Valid(cfg, tr)
    && var s := After(cfg, tr);
    && s.clock == 0 && s.store.Count(HOST) == k == Increments(tr, HOST) && HOST !in s.store.cooldowns
    && Attempts(tr, HOST) == []
    && 0 in s.evals && s.evals[0] == Eval(Low(cfg), Seen(0))
    && (forall i :: i in s.evals ==> i <= k)
    && (forall i :: 0 < i < k && i in s.evals ==> s.evals[i].pc == Done)
    && (0 < k ==> k in s.evals && s.evals[k] == Eval(High(cfg), if k >= cfg.triggerCount then Counted else Done))
  }

  lemma EmptyRead(cfg: Config)
    ensures Built(cfg, Builds(cfg, 0), 0)
  {
    var begin := Event(0, HOST, Begin(Low(cfg)));
    Extend(cfg, [], begin);
    assert [] + [begin] == [begin];
    Extend(cfg, [begin], Event(0, HOST, Get(0)));
  }

  lemma OneMoreBreach(cfg: Config, tr: Trace, k: nat)
    requires 0 < k && Built(cfg, tr, k - 1) && (1 < k ==> k - 1 < cfg.triggerCount)
    ensures Built(cfg, tr + [Event(k, HOST, Begin(High(cfg)))] + [Event(k, HOST, Inc(k))], k)
  {
    var begin, inc := Event(k, HOST, Begin(High(cfg))), Event(k, HOST, Inc(k));
    var s := After(cfg, tr);
    assert k !in s.evals;
    Extend(cfg, tr, begin);
    Extend(cfg, tr + [begin], inc);
    var s' := After(cfg, tr + [begin] + [inc]);
    assert s'.evals == s.evals[k := Eval(High(cfg), if k >= cfg.triggerCount then Counted else Done)];
  }

  lemma {:induction false} BuildsRun(cfg: Config, k: nat)
    requires k <= 1 || k <= cfg.triggerCount
    ensures Built(cfg, Builds(cfg, k), k)
  {
    if k == 0 {
      EmptyRead(cfg);
    } else {
      BuildsRun(cfg, k - 1);
      OneMoreBreach(cfg, Builds(cfg, k - 1), k);
    }
  }

  /** Evaluation 0 still waits for its reset, and all others are over. */
  ghost predicate Raised(cfg: Config, tr: Trace, n: nat) {
    && Valid(cfg, tr)
    && var s := After(cfg, tr);
    && 0 in s.evals && s.evals[0] == Eval(Low(cfg), Seen(0))
    && (forall i :: i in s.evals && i != 0 ==> s.evals[i].pc == Done)
    && Increments(tr, HOST) == n && Attempts(tr, HOST) == [Attempt(AlertRecord(cfg, High(cfg), Sent, 0), true)]
  }

  /** The last breach raises the P0. */
  lemma Raises(cfg: Config, tr: Trace, n: nat) returns (tr': Trace)
    requires 0 < n && n >= cfg.triggerCount && Built(cfg, tr, n)
    ensures Raised(cfg, tr', n)
  {
    var row := AlertRecord(cfg, High(cfg), Sent, 0);
    var acquire, notify := Event(n, HOST, Acquire(0, true)), Event(n, HOST, Notify(0, Sent));
    var save := Event(n, HOST, Save(row, true));
    var s := After(cfg, tr);
    Extend(cfg, tr, acquire);
    Extend(cfg, tr + [acquire], notify);
    Extend(cfg, tr + [acquire] + [notify], save);
    tr' := tr + [acquire] + [notify] + [save];
    assert After(cfg, tr').evals == s.evals[n := Eval(High(cfg), Done)];
  }

  /** Only then does evaluation 0 reset. */
  lemma Resets(cfg: Config, tr: Trace, n: nat) returns (tr': Trace)
    requires Raised(cfg, tr, n)
    ensures Valid(cfg, tr') && After(cfg, tr').Idle(HOST) && After(cfg, tr').store.Count(HOST) == 0
    ensures Increments(tr', HOST) == n && Attempts(tr', HOST) == Attempts(tr, HOST)
  {
    Extend(cfg, tr, Event(0, HOST, Reset));
    tr' := tr + [Event(0, HOST, Reset)];
  }

  /** Overlap loses runs: an evaluation that read an empty run before it began can delete the
      whole run after it raised its P0. Nothing is left to report it, and no RECOVERY follows. */
  lemma OverlapLosesRuns(cfg: Config, n: nat)
    requires n == if cfg.triggerCount > 1 then cfg.triggerCount else 1
    ensures exists tr :: && Valid(cfg, tr) && After(cfg, tr).Idle(HOST)
                         && Increments(tr, HOST) == n == Safety.Deleted(cfg, tr, HOST)
                         && Attempts(tr, HOST) == [Attempt(AlertRecord(cfg, High(cfg), Sent, 0), true)]
  {
    BuildsRun(cfg, n);
    var tr := Raises(cfg, Builds(cfg, n), n);
    tr := Resets(cfg, tr, n);
    Safety.BreachesAreConserved(cfg, tr, HOST);
  }
}
