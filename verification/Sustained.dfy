// How often a machine that stays in breach is alerted.

module Sustained {
  import opened AlertModel
  import opened Evaluation
  import Cooldown

  /** The last sample of the history tries the cooldown. */
  predicate Tries(cfg: Config, jobs: seq<Job>)
    requires jobs != []
  {
    jobs[|jobs|-1].sample.cpu > cfg.threshold && TrailingRun(cfg, jobs) >= cfg.triggerCount
  }

  function TryTimes(cfg: Config, jobs: seq<Job>): seq<int> {
    if jobs == [] then []
    else TryTimes(cfg, jobs[..|jobs|-1]) + if Tries(cfg, jobs) then [jobs[|jobs|-1].env.now] else []
  }

  function P0Times(cfg: Config, jobs: seq<Job>): seq<int> {
    if jobs == [] then []
    else P0Times(cfg, jobs[..|jobs|-1]) + if RaisesP0(cfg, jobs) then [jobs[|jobs|-1].env.now] else []
  }

  /** The P0s of any history are the greedy choice among its tries. */
  lemma {:induction false} P0sAreGreedy(cfg: Config, jobs: seq<Job>)
    ensures P0Times(cfg, jobs) == Cooldown.Granted(TryTimes(cfg, jobs), cfg.cooldownSec * 1_000_000_000)
    ensures PreviousP0(cfg, jobs) == var p := P0Times(cfg, jobs); if p == [] then None else Some(Cooldown.Last(p))
  {
    if jobs != [] {
      P0sAreGreedy(cfg, jobs[..|jobs|-1]);
      var ts := TryTimes(cfg, jobs);
      if Tries(cfg, jobs) {
        assert ts[..|ts|-1] == TryTimes(cfg, jobs[..|jobs|-1]);
      } else {
        assert ts == TryTimes(cfg, jobs[..|jobs|-1]);
      }
    }
  }

  function Nows(jobs: seq<Job>): seq<int> { seq(|jobs|, i requires 0 <= i < |jobs| => jobs[i].env.now) }

  /** The samples of a breach before the trigger count is reached, after a run of length run. */
  function Warmup(cfg: Config, run: nat, samples: nat): nat {
    if cfg.triggerCount - 1 <= run then 0
    else if cfg.triggerCount - 1 - run <= samples then cfg.triggerCount - 1 - run
    else samples
  }

  lemma {:induction false} UnbrokenRun(cfg: Config, before: seq<Job>, jobs: seq<Job>)
    requires forall j :: j in jobs ==> j.sample.cpu > cfg.threshold
    ensures TrailingRun(cfg, before + jobs) == TrailingRun(cfg, before) + |jobs|
  {
    if jobs == [] {
      assert before + jobs == before;
    } else {
      assert jobs[|jobs|-1] in jobs;
      assert (before + jobs)[..|before + jobs|-1] == before + jobs[..|jobs|-1];
      UnbrokenRun(cfg, before, jobs[..|jobs|-1]);
    }
  }

  /** One more sample adds its time exactly when the run then reaches the trigger. */
  lemma WarmupStep(cfg: Config, run: nat, jobs: seq<Job>)
    requires jobs != []
    ensures var front, now := jobs[..|jobs|-1], jobs[|jobs|-1].env.now;
            Nows(jobs)[Warmup(cfg, run, |jobs|)..] ==
            Nows(front)[Warmup(cfg, run, |front|)..] + if run + |jobs| >= cfg.triggerCount then [now] else []
  {
    assert Nows(jobs) == Nows(jobs[..|jobs|-1]) + [jobs[|jobs|-1].env.now];
  }

  /** While a breach lasts, every sample past the trigger tries, whatever came before it. */
  lemma {:induction false} UnbrokenTries(cfg: Config, before: seq<Job>, jobs: seq<Job>)
    requires forall j :: j in jobs ==> j.sample.cpu > cfg.threshold
    ensures TrailingRun(cfg, before + jobs) == TrailingRun(cfg, before) + |jobs|
    ensures TryTimes(cfg, before + jobs) ==
            TryTimes(cfg, before) + Nows(jobs)[Warmup(cfg, TrailingRun(cfg, before), |jobs|)..]
  {
    UnbrokenRun(cfg, before, jobs);
    if jobs == [] {
      assert before + jobs == before;
    } else {
      var front := jobs[..|jobs|-1];
      assert jobs[|jobs|-1] in jobs;
      assert (before + jobs)[..|before + jobs|-1] == before + front;
      assert (before + jobs)[|before + jobs|-1] == jobs[|jobs|-1];
      UnbrokenTries(cfg, before, front);
      WarmupStep(cfg, TrailingRun(cfg, before), jobs);
    }
  }

  /** The P0s of a history stay the first P0s of whatever continues it. */
  lemma {:induction false} P0sContinue(cfg: Config, before: seq<Job>, jobs: seq<Job>)
    ensures P0Times(cfg, before) <= P0Times(cfg, before + jobs)
  {
    if jobs == [] {
      assert before + jobs == before;
    } else {
      assert (before + jobs)[..|before + jobs|-1] == before + jobs[..|jobs|-1];
      P0sContinue(cfg, before, jobs[..|jobs|-1]);
    }
  }

  lemma PacedSuffix(ts: seq<int>, gap: nat, w: nat)
    requires Cooldown.Paced(ts, gap) && w <= |ts|
    ensures Cooldown.Paced(ts[w..], gap)
  {
  }

  /** While a machine stays in breach, with samples never more than gap apart, it is alerted at
      least one cooldown and less than a cooldown plus gap after its previous P0 of that breach,
      whatever its history before. */
  lemma SustainedCadence(cfg: Config, before: seq<Job>, jobs: seq<Job>, gap: nat, k: nat)
    requires cfg.cooldownSec > 0
    requires forall j :: j in jobs ==> j.sample.cpu > cfg.threshold
    requires Cooldown.Paced(Nows(jobs), gap)
    requires |P0Times(cfg, before)| < k < |P0Times(cfg, before + jobs)|
    ensures var p0s := P0Times(cfg, before + jobs);
            P0Times(cfg, before) <= p0s
            && cfg.cooldownSec * 1_000_000_000 <= p0s[k] - p0s[k-1] < cfg.cooldownSec * 1_000_000_000 + gap
  {
    UnbrokenTries(cfg, before, jobs);
    P0sAreGreedy(cfg, before);
    P0sAreGreedy(cfg, before + jobs);
    P0sContinue(cfg, before, jobs);
    var w := Warmup(cfg, TrailingRun(cfg, before), |jobs|);
    PacedSuffix(Nows(jobs), gap, w);
    Cooldown.GrantCadence(TryTimes(cfg, before), Nows(jobs)[w..], cfg.Cooldown(), gap, k);
  }
}
