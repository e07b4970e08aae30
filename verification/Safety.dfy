// What holds under every interleaving.

module Safety {
  import opened AlertModel
  import opened AlertStore
  import opened Interleaving
  import Cooldown

  // ---- Conservation of breaches ---------------------------------------------------------------

  /** The sum of the counter values m's resets deleted. */
  function Deleted(cfg: Config, tr: Trace, m: MachineId): nat
    requires Valid(cfg, tr)
  {
    if tr == [] then 0
    else
      var front := tr[..|tr|-1];
      Deleted(cfg, front, m) +
      if tr[|tr|-1].machine == m && tr[|tr|-1].op.Reset? then After(cfg, front).store.Count(m) else 0
  }

  /** Every increment of m is either still counted or was deleted by exactly one reset. */
  lemma {:induction false} BreachesAreConserved(cfg: Config, tr: Trace, m: MachineId)
    requires Valid(cfg, tr)
    ensures Increments(tr, m) == After(cfg, tr).store.Count(m) + Deleted(cfg, tr, m)
  {
    if tr != [] {
      BreachesAreConserved(cfg, tr[..|tr|-1], m);
    }
  }

  // ---- The cooldown ---------------------------------------------------------------------------

  /** m's attempts carry non-decreasing times: the clock is read inside the store's lock. */
  lemma {:induction false} AttemptsAscend(cfg: Config, tr: Trace, m: MachineId)
    requires Valid(cfg, tr)
    ensures Cooldown.Ascending(AcquireTimes(tr, m))
    ensures AcquireTimes(tr, m) != [] ==> Cooldown.Last(AcquireTimes(tr, m)) <= After(cfg, tr).clock
  {
    if tr != [] {
      AttemptsAscend(cfg, tr[..|tr|-1], m);
    }
  }

  /** The end of the cooldown that the latest of the grants started. */
  function Deadline(grants: seq<int>, c: int): Option<int> {
    if grants == [] then None else Some(Cooldown.Last(grants) + c)
  }

  /** One more attempt on a store that holds the deadline of the grants so far. */
  lemma AttemptStep(st: Mem, m: MachineId, ts: seq<int>, now: int, c: int)
    requires st.Deadline(m) == Deadline(Cooldown.Granted(ts, c), c)
    ensures var g := Cooldown.Granted(ts + [now], c);
            && g == (if st.Open(m, now) then Cooldown.Granted(ts, c) + [now] else Cooldown.Granted(ts, c))
            && st.Acquire(m, now, c).Deadline(m) == Deadline(g, c)
  {
  }

  /** The grants of m are the greedy choice among its attempts, whatever runs in between. */
  lemma {:induction false} GrantsAreGreedy(cfg: Config, tr: Trace, m: MachineId)
    requires Valid(cfg, tr)
    ensures GrantTimes(tr, m) == Cooldown.Granted(AcquireTimes(tr, m), cfg.cooldownSec * 1_000_000_000)
    ensures After(cfg, tr).store.Deadline(m) == Deadline(GrantTimes(tr, m), cfg.cooldownSec * 1_000_000_000)
  {
    if tr != [] {
      var front, e := tr[..|tr|-1], tr[|tr|-1];
      GrantsAreGreedy(cfg, front, m);
      if e.machine == m && e.op.Acquire? {
        AttemptStep(After(cfg, front).store, m, AcquireTimes(front, m), e.op.now, cfg.Cooldown());
      }
    }
  }

  /** Two P0 grants of one machine are at least the cooldown apart. */
  lemma CooldownSafety(cfg: Config, tr: Trace, m: MachineId, i: nat, j: nat)
    requires Valid(cfg, tr) && i < j < |GrantTimes(tr, m)| && cfg.cooldownSec > 0
    ensures GrantTimes(tr, m)[j] - GrantTimes(tr, m)[i] >= cfg.cooldownSec * 1_000_000_000
  {
    GrantsAreGreedy(cfg, tr, m);
    AttemptsAscend(cfg, tr, m);
    Cooldown.GrantedIsSpaced(AcquireTimes(tr, m), cfg.Cooldown());
    Cooldown.SpacedApart(GrantTimes(tr, m), cfg.Cooldown(), i, j);
  }

  /** Greedy optimality: no set of attempts of m that are pairwise a cooldown apart is larger
      than the set of grants. */
  lemma GrantsAreMaximum(cfg: Config, tr: Trace, m: MachineId, choice: set<nat>)
    requires Valid(cfg, tr)
    requires Cooldown.Apart(AcquireTimes(tr, m), choice, cfg.cooldownSec * 1_000_000_000)
    ensures |choice| <= |GrantTimes(tr, m)|
  {
    GrantsAreGreedy(cfg, tr, m);
    AttemptsAscend(cfg, tr, m);
    Cooldown.GreedyIsMaximum(AcquireTimes(tr, m), choice, cfg.Cooldown());
  }

  /** A refused attempt lies less than one cooldown after some earlier grant of its machine. */
  lemma RefusalsAreCovered(cfg: Config, tr: Trace, k: nat)
    requires Valid(cfg, tr) && k < |tr| && tr[k].op.Acquire? && !tr[k].op.granted
    ensures exists g :: g in GrantTimes(tr[..k], tr[k].machine)
                     && g <= tr[k].op.now < g + cfg.cooldownSec * 1_000_000_000
  {
    var m := tr[k].machine;
    StepAt(cfg, tr, k);
    RefusedAttempt(cfg, tr[..k], tr[k]);
  }

  /** The same for the last event of a trace. */
  lemma RefusedAttempt(cfg: Config, tr: Trace, e: Event)
    requires Valid(cfg, tr) && Enabled(cfg, After(cfg, tr), e)
    requires e.op.Acquire? && !e.op.granted
    ensures exists g :: g in GrantTimes(tr, e.machine) && g <= e.op.now < g + cfg.cooldownSec * 1_000_000_000
  {
    GrantsAreGreedy(cfg, tr, e.machine);
    AttemptsAscend(cfg, tr, e.machine);
    Cooldown.GrantedIsSpaced(AcquireTimes(tr, e.machine), cfg.Cooldown());
    assert Cooldown.Last(GrantTimes(tr, e.machine)) in GrantTimes(tr, e.machine);
  }

  /** A window of length w holds at most w / cooldown + 1 grants of m. */
  lemma GrantRate(cfg: Config, tr: Trace, m: MachineId, lo: int, w: nat)
    requires Valid(cfg, tr) && cfg.cooldownSec > 0
    ensures |Cooldown.Within(GrantTimes(tr, m), lo, w)| <= w / (cfg.cooldownSec * 1_000_000_000) + 1
  {
    GrantsAreGreedy(cfg, tr, m);
    AttemptsAscend(cfg, tr, m);
    Cooldown.GrantedIsSpaced(AcquireTimes(tr, m), cfg.Cooldown());
    Cooldown.WindowBound(GrantTimes(tr, m), cfg.Cooldown(), lo, w);
  }

  /** The grants of m in a window, over replicas that each fell back to a store of their own. */
  function ReplicaGrants(replicas: seq<Trace>, m: MachineId, lo: int, w: nat): nat {
    if replicas == [] then 0
    else |Cooldown.Within(GrantTimes(replicas[0], m), lo, w)| + ReplicaGrants(replicas[1..], m, lo, w)
  }

  lemma {:induction false} ReplicaRate(cfg: Config, replicas: seq<Trace>, m: MachineId, lo: int, w: nat)
    requires cfg.cooldownSec > 0 && forall tr :: tr in replicas ==> Valid(cfg, tr)
    ensures ReplicaGrants(replicas, m, lo, w) <= |replicas| * (w / (cfg.cooldownSec * 1_000_000_000) + 1)
  {
    if replicas != [] {
      GrantRate(cfg, replicas[0], m, lo, w);
      ReplicaRate(cfg, replicas[1..], m, lo, w);
      var bound := w / cfg.Cooldown() + 1;
      assert |replicas| * bound == bound + |replicas[1..]| * bound;
    }
  }

  /** While m's attempts are never more than gap apart, its P0s come at least one cooldown and
      less than a cooldown plus gap apart. */
  lemma Cadence(cfg: Config, tr: Trace, m: MachineId, gap: nat, k: nat)
    requires Valid(cfg, tr) && cfg.cooldownSec > 0
    requires Cooldown.Paced(AcquireTimes(tr, m), gap)
    requires 0 < k < |GrantTimes(tr, m)|
    ensures cfg.cooldownSec * 1_000_000_000 <= GrantTimes(tr, m)[k] - GrantTimes(tr, m)[k-1]
            < cfg.cooldownSec * 1_000_000_000 + gap
  {
    GrantsAreGreedy(cfg, tr, m);
    assert [] + AcquireTimes(tr, m) == AcquireTimes(tr, m);
    Cooldown.GrantCadence([], AcquireTimes(tr, m), cfg.Cooldown(), gap, k);
  }
}
