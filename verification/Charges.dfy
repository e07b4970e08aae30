// Which earlier events justify a P0 or a RECOVERY, under every interleaving.

module Charges {
  import opened AlertModel
  import opened Interleaving

  // ---- One evaluation does each of its steps once, in order -----------------------------------

  function Stage(op: Op): nat {
    match op
    case Begin(_) => 0
    case Inc(_) => 1
    case Get(_) => 1
    case Acquire(_, _) => 2
    case Reset => 2
    case Notify(_, _) => 3
    case Save(_, _) => 4
  }

  function Reached(pc: Pc): nat {
    match pc
    case Started => 1
    case Counted => 2
    case Seen(_) => 2
    case Granted => 3
    case Cleared(_) => 3
    case Saving(_) => 4
    case Done => 5
  }

  lemma {:induction false} StagesPassed(cfg: Config, tr: Trace, i: nat)
    requires Valid(cfg, tr) && i < |tr|
    ensures var s := After(cfg, tr);
            && tr[i].eid in s.evals
            && s.evals[tr[i].eid].sample.machine == tr[i].machine
            && Stage(tr[i].op) < Reached(s.evals[tr[i].eid].pc)
  {
    if i < |tr| - 1 {
      StagesPassed(cfg, tr[..|tr|-1], i);
    }
  }

  lemma StagesAscend(cfg: Config, tr: Trace, i: nat, j: nat)
    requires Valid(cfg, tr) && i < j < |tr| && tr[i].eid == tr[j].eid
    ensures Stage(tr[i].op) < Stage(tr[j].op)
  {
    StepAt(cfg, tr, j);
    StagesPassed(cfg, tr[..j], i);
  }

  // ---- No unjustified P0 ----------------------------------------------------------------------

  lemma {:induction false} FindInc(cfg: Config, tr: Trace, eid: nat) returns (i: nat)
    requires Valid(cfg, tr) && eid in After(cfg, tr).evals && After(cfg, tr).evals[eid].pc == Counted
    ensures i < |tr| && tr[i].op.Inc? && tr[i].op.count >= cfg.triggerCount
    ensures tr[i].eid == eid && tr[i].machine == After(cfg, tr).evals[eid].sample.machine
  {
    if tr[|tr|-1].eid == eid {
      i := |tr| - 1;
    } else {
      i := FindInc(cfg, tr[..|tr|-1], eid);
    }
  }

  predicate HoldsGrant(pc: Pc) { pc == Granted || (pc.Saving? && pc.record.level == P0) }

  lemma {:induction false} FindGrant(cfg: Config, tr: Trace, eid: nat) returns (i: nat, a: nat)
    requires Valid(cfg, tr) && eid in After(cfg, tr).evals && HoldsGrant(After(cfg, tr).evals[eid].pc)
    ensures i < a < |tr| && tr[i].eid == tr[a].eid == eid
    ensures tr[i].machine == tr[a].machine == After(cfg, tr).evals[eid].sample.machine
    ensures tr[i].op.Inc? && tr[i].op.count >= cfg.triggerCount
    ensures tr[a].op.Acquire? && tr[a].op.granted
  {
    if tr[|tr|-1].eid == eid && tr[|tr|-1].op.Acquire? {
      a := |tr| - 1;
      i := FindInc(cfg, tr[..a], eid);
    } else {
      i, a := FindGrant(cfg, tr[..|tr|-1], eid);
    }
  }

  /** No reset of m happens at the positions from lo up to hi. */
  ghost predicate NoReset(tr: Trace, m: MachineId, lo: nat, hi: nat)
    requires lo <= hi <= |tr|
  {
    forall k :: lo <= k < hi && tr[k].machine == m ==> !tr[k].op.Reset?
  }

  /** The position behind m's latest reset, or the beginning. */
  function RunStart(tr: Trace, m: MachineId): (lo: nat)
    ensures lo <= |tr| && NoReset(tr, m, lo, |tr|)
    ensures lo > 0 ==> tr[lo-1].machine == m && tr[lo-1].op.Reset?
  {
    if tr == [] then 0
    else if tr[|tr|-1].machine == m && tr[|tr|-1].op.Reset? then |tr|
    else RunStart(tr[..|tr|-1], m)
  }

  lemma {:induction false} OpenRunCounts(tr: Trace, m: MachineId)
    ensures OpenRun(tr, m) == Increments(tr, m) - Increments(tr[..RunStart(tr, m)], m)
  {
    if tr == [] {
    } else if tr[|tr|-1].machine == m && tr[|tr|-1].op.Reset? {
      assert tr[..|tr|] == tr;
    } else {
      var front := tr[..|tr|-1];
      OpenRunCounts(front, m);
      assert front[..RunStart(front, m)] == tr[..RunStart(tr, m)];
    }
  }

  /** The P0 row saved at p is paid for by the increment at i, made by the same evaluation: it
      closed at least trigger-count increments of the machine since lo with no reset among
      them, and the evaluation was granted the cooldown at a. */
  ghost predicate Justifies(cfg: Config, tr: Trace, p: nat, lo: nat, i: nat, a: nat) {
    && lo <= i < a < p < |tr|
    && tr[i].eid == tr[a].eid == tr[p].eid
    && tr[i].machine == tr[a].machine == tr[p].machine
    && tr[i].op.Inc?
    && tr[a].op.Acquire? && tr[a].op.granted
    && NoReset(tr, tr[p].machine, lo, i + 1)
    && Increments(tr[..i+1], tr[p].machine) - Increments(tr[..lo], tr[p].machine) >= cfg.triggerCount
  }

  predicate SavesP0(e: Event) { e.op.Save? && e.op.record.level == P0 }

  /** The increment at i has counted every increment since the latest reset before it. */
  lemma CountsItsRun(cfg: Config, tr: Trace, i: nat) returns (lo: nat)
    requires Valid(cfg, tr) && i < |tr| && tr[i].op.Inc?
    ensures lo <= i && NoReset(tr, tr[i].machine, lo, i + 1)
    ensures Increments(tr[..i+1], tr[i].machine) - Increments(tr[..lo], tr[i].machine) == tr[i].op.count
  {
    var m, run := tr[i].machine, tr[..i+1];
    StepAt(cfg, tr, i);
    CounterIsOpenRun(cfg, run, m);
    OpenRunCounts(run, m);
    lo := RunStart(run, m);
    assert run[|run|-1] == tr[i] && run[..lo] == tr[..lo];
    forall k | lo <= k < i + 1 && tr[k].machine == m ensures !tr[k].op.Reset? {
      assert run[k] == tr[k];
    }
  }

  lemma EveryP0IsJustified(cfg: Config, tr: Trace, p: nat)
    requires Valid(cfg, tr) && p < |tr| && SavesP0(tr[p])
    ensures exists lo, i, a :: Justifies(cfg, tr, p, lo, i, a)
  {
    StepAt(cfg, tr, p);
    var i, a := FindGrant(cfg, tr[..p], tr[p].eid);
    var lo := CountsItsRun(cfg, tr, i);
    assert Justifies(cfg, tr, p, lo, i, a);
  }

  /** Two P0 rows are never charged to the same increment. */
  lemma ChargesAreOneToOne(cfg: Config, tr: Trace, p: nat, lo: nat, i: nat, a: nat,
                           p': nat, lo': nat, i': nat, a': nat)
    requires Valid(cfg, tr) && p != p' && p < |tr| && p' < |tr| && SavesP0(tr[p]) && SavesP0(tr[p'])
    requires Justifies(cfg, tr, p, lo, i, a) && Justifies(cfg, tr, p', lo', i', a')
    ensures i != i' && a != a'
  {
    if tr[p].eid == tr[p'].eid {
      StagesAscend(cfg, tr, if p < p' then p else p', if p < p' then p' else p);
    }
  }

  // ---- Duplicate recoveries -------------------------------------------------------------------

  /** The evaluations of m between their read and their reset. */
  function Window(s: State, m: MachineId): set<nat> {
    set eid | eid in s.evals && s.evals[eid].sample.machine == m && s.evals[eid].pc.Seen?
  }

  /** The largest number of evaluations of m that were ever between read and reset at once. */
  function Peak(cfg: Config, tr: Trace, m: MachineId): nat
    requires Valid(cfg, tr)
  {
    var here := |Window(After(cfg, tr), m)|;
    if tr == [] then here
    else
      var before := Peak(cfg, tr[..|tr|-1], m);
      if before > here then before else here
  }

  lemma {:induction false} PeakCovers(cfg: Config, tr: Trace, m: MachineId, k: nat)
    requires Valid(cfg, tr) && k <= |tr|
    ensures Valid(cfg, tr[..k]) && |Window(After(cfg, tr[..k]), m)| <= Peak(cfg, tr, m)
  {
    if k < |tr| {
      PeakCovers(cfg, tr[..|tr|-1], m, k);
      assert tr[..|tr|-1][..k] == tr[..k];
    } else {
      assert tr[..k] == tr;
    }
  }

  predicate ReadsRun(e: Event, m: MachineId) { e.machine == m && e.op.Get? && e.op.prev > 0 }

  predicate SavesRecovery(e: Event, m: MachineId) {
    e.machine == m && e.op.Save? && e.op.record.level == Recovery
  }

  /** The evaluations of m that read a non-empty run between lo and hi. */
  function Readers(tr: Trace, m: MachineId, lo: nat, hi: nat): set<nat>
    requires lo <= hi <= |tr|
  {
    set i | lo <= i < hi && ReadsRun(tr[i], m) :: tr[i].eid
  }

  /** The positions of the RECOVERY rows those evaluations saved, however late. */
  function Recoveries(tr: Trace, m: MachineId, lo: nat, hi: nat): set<nat>
    requires lo <= hi <= |tr|
  {
    set p | 0 <= p < |tr| && SavesRecovery(tr[p], m) && tr[p].eid in Readers(tr, m, lo, hi)
  }

  /** As long as nobody resets m, who has read it is still waiting to reset it. */
  lemma {:induction false} ReaderWaits(cfg: Config, tr: Trace, m: MachineId, i: nat, hi: nat)
    requires i < hi <= |tr| && Valid(cfg, tr) && Valid(cfg, tr[..hi])
    requires ReadsRun(tr[i], m) && NoReset(tr, m, i, hi)
    ensures tr[i].eid in Window(After(cfg, tr[..hi]), m)
    ensures After(cfg, tr[..hi]).evals[tr[i].eid].pc.prev == tr[i].op.prev
    decreases hi
  {
    StepAt(cfg, tr, hi - 1);
    if i < hi - 1 {
      ReaderWaits(cfg, tr, m, i, hi - 1);
    }
  }

  lemma {:induction false} FewerThanTheirOwners(tr: Trace, ps: set<nat>, owners: set<nat>)
    requires forall p :: p in ps ==> p < |tr| && tr[p].eid in owners
    requires forall p, q :: p in ps && q in ps && p != q ==> tr[p].eid != tr[q].eid
    ensures |ps| <= |owners|
    decreases ps
  {
    if ps != {} {
      var p :| p in ps;
      FewerThanTheirOwners(tr, ps - {p}, owners - {tr[p].eid});
    }
  }

  lemma SubsetSize(a: set<nat>, b: set<nat>)
    requires a <= b
    ensures |a| <= |b|
  {
    if a != {} {
      var x :| x in a;
      SubsetSize(a - {x}, b - {x});
    }
  }

  /** No evaluation saves two recoveries. */
  lemma OneRecoveryEach(cfg: Config, tr: Trace, m: MachineId, p: nat, q: nat)
    requires Valid(cfg, tr) && p < |tr| && q < |tr| && p != q
    requires SavesRecovery(tr[p], m) && SavesRecovery(tr[q], m)
    ensures tr[p].eid != tr[q].eid
  {
    if tr[p].eid == tr[q].eid {
      StagesAscend(cfg, tr, if p < q then p else q, if p < q then q else p);
    }
  }

  /** One breach run, the positions between two consecutive resets of m, is reported as
      recovered at most as often as evaluations of m were at once between read and reset. */
  lemma DuplicateRecoveryBound(cfg: Config, tr: Trace, m: MachineId, lo: nat, hi: nat)
    requires Valid(cfg, tr) && lo <= hi <= |tr| && NoReset(tr, m, lo, hi)
    ensures Valid(cfg, tr[..hi])
    ensures |Recoveries(tr, m, lo, hi)| <= |Window(After(cfg, tr[..hi]), m)| <= Peak(cfg, tr, m)
  {
    PeakCovers(cfg, tr, m, hi);
    var readers := Readers(tr, m, lo, hi);
    forall eid | eid in readers ensures eid in Window(After(cfg, tr[..hi]), m) {
      var i :| lo <= i < hi && ReadsRun(tr[i], m) && tr[i].eid == eid;
      ReaderWaits(cfg, tr, m, i, hi);
    }
    SubsetSize(readers, Window(After(cfg, tr[..hi]), m));
    var ps := Recoveries(tr, m, lo, hi);
    forall p, q | p in ps && q in ps && p != q ensures tr[p].eid != tr[q].eid {
      OneRecoveryEach(cfg, tr, m, p, q);
    }
    FewerThanTheirOwners(tr, ps, readers);
  }

  // ---- Exactly when a run is reported once ------------------------------------------------------

  /** Where an evaluation stands that has read a non-empty run, and the row it has saved. */
  lemma {:induction false} FindReport(cfg: Config, tr: Trace, i: nat) returns (p: nat)
    requires Valid(cfg, tr) && i < |tr| && tr[i].op.Get? && tr[i].op.prev > 0
    ensures tr[i].eid in After(cfg, tr).evals
    ensures match After(cfg, tr).evals[tr[i].eid].pc
            case Seen(n) => n == tr[i].op.prev
            case Cleared(n) => n == tr[i].op.prev
            case Saving(record) => record.level == Recovery && record.triggerCount == tr[i].op.prev
            case Done => i < p < |tr| && tr[p].eid == tr[i].eid && SavesRecovery(tr[p], tr[i].machine)
                         && tr[p].op.record.triggerCount == tr[i].op.prev
            case _ => false
  {
    p := 0;
    if i < |tr| - 1 {
      var front := tr[..|tr|-1];
      StagesPassed(cfg, front, i);
      p := FindReport(cfg, front, i);
      if tr[|tr|-1].eid == tr[i].eid && tr[|tr|-1].op.Save? {
        p := |tr| - 1;
      }
    }
  }

  lemma {:induction false} OwnersHaveTheirs(tr: Trace, ps: set<nat>, owners: set<nat>)
    requires forall p :: p in ps ==> p < |tr|
    requires forall o :: o in owners ==> exists p :: p in ps && tr[p].eid == o
    ensures |owners| <= |ps|
    decreases owners
  {
    if owners != {} {
      var o :| o in owners;
      var p :| p in ps && tr[p].eid == o;
      forall q | q in owners - {o} ensures exists r :: r in ps - {p} && tr[r].eid == q {
        var r :| r in ps && tr[r].eid == q;
        assert r in ps - {p};
      }
      OwnersHaveTheirs(tr, ps - {p}, owners - {o});
    }
  }

  /** Under every interleaving, once m's evaluations are over, a stretch of the trace has exactly
      as many RECOVERY rows as evaluations that read a non-empty run in it. */
  lemma EveryReaderReports(cfg: Config, tr: Trace, m: MachineId, lo: nat, hi: nat)
    requires Valid(cfg, tr) && lo <= hi <= |tr| && After(cfg, tr).Idle(m)
    ensures |Recoveries(tr, m, lo, hi)| == |Readers(tr, m, lo, hi)|
  {
    var readers, ps := Readers(tr, m, lo, hi), Recoveries(tr, m, lo, hi);
    forall p, q | p in ps && q in ps && p != q ensures tr[p].eid != tr[q].eid {
      OneRecoveryEach(cfg, tr, m, p, q);
    }
    FewerThanTheirOwners(tr, ps, readers);
    forall o | o in readers ensures exists p :: p in ps && tr[p].eid == o {
      var i :| lo <= i < hi && ReadsRun(tr[i], m) && tr[i].eid == o;
      var p := ReaderReports(cfg, tr, m, i);
      assert p in ps;
    }
    OwnersHaveTheirs(tr, ps, readers);
  }

  /** The row a reader saves carries what it has read. */
  lemma ReaderReports(cfg: Config, tr: Trace, m: MachineId, i: nat) returns (p: nat)
    requires Valid(cfg, tr) && i < |tr| && ReadsRun(tr[i], m) && !After(cfg, tr).Active(tr[i].eid, m)
    ensures i < p < |tr| && tr[p].eid == tr[i].eid && SavesRecovery(tr[p], m)
    ensures tr[p].op.record.triggerCount == tr[i].op.prev
  {
    StagesPassed(cfg, tr, i);
    p := FindReport(cfg, tr, i);
  }

  lemma {:induction false} IncrementsGrow(tr: Trace, m: MachineId, i: nat, h: nat)
    requires i <= h <= |tr|
    ensures Increments(tr[..i], m) <= Increments(tr[..h], m)
    ensures Increments(tr[..i], m) == Increments(tr[..h], m) <==>
            forall k :: i <= k < h && tr[k].machine == m ==> !tr[k].op.Inc?
    decreases h
  {
    if i < h {
      IncrementsGrow(tr, m, i, h - 1);
      assert tr[..h][..h-1] == tr[..h-1];
    }
  }

  lemma {:induction false} RunGrows(tr: Trace, m: MachineId, i: nat, h: nat)
    requires i <= h <= |tr| && NoReset(tr, m, i, h)
    ensures OpenRun(tr[..h], m) - OpenRun(tr[..i], m) == Increments(tr[..h], m) - Increments(tr[..i], m)
    decreases h
  {
    if i < h {
      RunGrows(tr, m, i, h - 1);
      assert tr[..h][..h-1] == tr[..h-1];
    }
  }

  /** The evaluation that reads at i is the only one that reads a non-empty run between lo and
      h, and m is not incremented between the read and h. */
  ghost predicate ReadOnceAndWhole(tr: Trace, m: MachineId, lo: nat, h: nat, i: nat)
    requires lo <= h <= |tr|
  {
    && lo <= i < h && ReadsRun(tr[i], m) && Readers(tr, m, lo, h) == {tr[i].eid}
    && forall k :: i < k < h && tr[k].machine == m ==> !tr[k].op.Inc?
  }

  /** A reader has read the whole run exactly when no increment follows. */
  lemma ReadsWhole(cfg: Config, tr: Trace, m: MachineId, i: nat, h: nat)
    requires Valid(cfg, tr) && i < h <= |tr| && ReadsRun(tr[i], m) && NoReset(tr, m, i, h)
    ensures tr[i].op.prev == OpenRun(tr[..h], m) <==> forall k :: i < k < h && tr[k].machine == m ==> !tr[k].op.Inc?
  {
    StepAt(cfg, tr, i);
    CounterIsOpenRun(cfg, tr[..i], m);
    assert tr[..i+1][..i] == tr[..i];
    RunGrows(tr, m, i + 1, h);
    IncrementsGrow(tr, m, i + 1, h);
  }

  /** Exactly when a run is reported once and in full, under every interleaving: m's evaluations
      are over and its run was open between lo and h. */
  lemma ReportedOnceIff(cfg: Config, tr: Trace, m: MachineId, lo: nat, h: nat)
    requires Valid(cfg, tr) && lo <= h <= |tr| && NoReset(tr, m, lo, h) && After(cfg, tr).Idle(m)
    ensures (exists p :: Recoveries(tr, m, lo, h) == {p} && tr[p].op.record.triggerCount == OpenRun(tr[..h], m))
       <==> (exists i: nat :: ReadOnceAndWhole(tr, m, lo, h, i))
  {
    var rows, readers, run := Recoveries(tr, m, lo, h), Readers(tr, m, lo, h), OpenRun(tr[..h], m);
    EveryReaderReports(cfg, tr, m, lo, h);
    if p :| rows == {p} && tr[p].op.record.triggerCount == run {
      assert p in rows;
      var i :| lo <= i < h && ReadsRun(tr[i], m) && tr[i].eid == tr[p].eid;
      var q := ReaderReports(cfg, tr, m, i);
      assert q in rows;
      OnlyOne(readers, tr[i].eid);
      ReadsWhole(cfg, tr, m, i, h);
      assert ReadOnceAndWhole(tr, m, lo, h, i);
    }
    if i: nat :| ReadOnceAndWhole(tr, m, lo, h, i) {
      var p := ReaderReports(cfg, tr, m, i);
      assert tr[i].eid in readers;
      assert p in rows;
      OnlyOne(rows, p);
      ReadsWhole(cfg, tr, m, i, h);
    }
  }

  lemma OnlyOne(s: set<nat>, x: nat)
    requires |s| == 1 && x in s
    ensures s == {x}
  {
    assert |s - {x}| == 0;
  }

  // ---- When evaluations of m do not overlap ---------------------------------------------------

  /** At most one evaluation of m is active. */
  lemma {:induction false} OneActive(cfg: Config, tr: Trace, m: MachineId, a: nat, b: nat)
    requires Valid(cfg, tr) && Disjoint(cfg, tr, m)
    requires After(cfg, tr).Active(a, m) && After(cfg, tr).Active(b, m)
    ensures a == b
  {
    var front := tr[..|tr|-1];
    var e := tr[|tr|-1];
    var s := After(cfg, front);
    if e.op.Begin? && e.machine == m {
      assert !s.Active(a, m) && !s.Active(b, m);
    } else {
      OneActive(cfg, front, m, a, b);
    }
  }

  /** What an evaluation has read is still the counter when it comes to reset it. */
  lemma {:induction false} ReadIsCurrent(cfg: Config, tr: Trace, m: MachineId, eid: nat)
    requires Valid(cfg, tr) && Disjoint(cfg, tr, m) && eid in Window(After(cfg, tr), m)
    ensures After(cfg, tr).evals[eid].pc.prev == After(cfg, tr).store.Count(m)
  {
    var front := tr[..|tr|-1];
    var e := tr[|tr|-1];
    var s := After(cfg, front);
    if e.eid != eid {
      assert s.Active(eid, m);
      if e.machine == m && !e.op.Begin? {
        OneActive(cfg, front, m, eid, e.eid);
        assert false;
      }
      ReadIsCurrent(cfg, front, m, eid);
    }
  }

  lemma {:induction false} FindRead(cfg: Config, tr: Trace, eid: nat) returns (i: nat)
    requires Valid(cfg, tr) && eid in After(cfg, tr).evals && After(cfg, tr).evals[eid].pc.Seen?
    ensures i < |tr|
    ensures var ev := After(cfg, tr).evals[eid]; tr[i] == Event(eid, ev.sample.machine, Get(ev.pc.prev))
  {
    if tr[|tr|-1].eid == eid {
      i := |tr| - 1;
    } else {
      i := FindRead(cfg, tr[..|tr|-1], eid);
    }
  }

  /** An evaluation that has something left to do is active. */
  lemma {:induction false} ActiveBetween(cfg: Config, tr: Trace, i: nat, k: nat, j: nat)
    requires Valid(cfg, tr) && i < k <= j < |tr| && tr[i].eid == tr[j].eid && tr[i].machine == tr[j].machine
    ensures Valid(cfg, tr[..k]) && After(cfg, tr[..k]).Active(tr[i].eid, tr[i].machine)
    decreases j - k
  {
    StepAt(cfg, tr, k);
    StagesPassed(cfg, tr[..k], i);
    if k < j && tr[k].eid != tr[i].eid {
      ActiveBetween(cfg, tr, i, k + 1, j);
    }
  }

  /** An evaluation that resets at h has read m after the reset before lo. */
  lemma ReadAfterReset(cfg: Config, tr: Trace, m: MachineId, i: nat, lo: nat, h: nat)
    requires Valid(cfg, tr) && Disjoint(cfg, tr, m) && i < h < |tr|
    requires tr[i].eid == tr[h].eid && tr[i].machine == tr[h].machine == m && tr[i].op.Get? && tr[h].op.Reset?
    requires 0 < lo <= h && tr[lo-1].machine == m && tr[lo-1].op.Reset?
    ensures lo <= i
  {
    if i < lo - 1 {
      StepAt(cfg, tr, lo - 1);
      DisjointPrefix(cfg, tr, m, lo - 1);
      ActiveBetween(cfg, tr, i, lo - 1, h);
      OneActive(cfg, tr[..lo-1], m, tr[h].eid, tr[lo-1].eid);
      StagesAscend(cfg, tr, lo - 1, h);
      assert false;
    }
  }

  /** The evaluation that ends a non-empty run is the only one that read it, and it read the
      whole run. */
  lemma OneReader(cfg: Config, tr: Trace, m: MachineId, lo: nat, h: nat)
    requires Valid(cfg, tr) && Disjoint(cfg, tr, m)
    requires lo <= h < |tr| && tr[h].machine == m && tr[h].op.Reset? && NoReset(tr, m, lo, h)
    requires lo > 0 ==> tr[lo-1].machine == m && tr[lo-1].op.Reset?
    requires OpenRun(tr[..h], m) > 0
    ensures Readers(tr, m, lo, h) == {tr[h].eid}
    ensures Valid(cfg, tr[..h]) && tr[h].eid in After(cfg, tr[..h]).evals
    ensures After(cfg, tr[..h]).evals[tr[h].eid].pc == Seen(OpenRun(tr[..h], m))
  {
    var r := tr[h].eid;
    StepAt(cfg, tr, h);
    DisjointPrefix(cfg, tr, m, h);
    ReadIsCurrent(cfg, tr[..h], m, r);
    CounterIsOpenRun(cfg, tr[..h], m);
    var i := FindRead(cfg, tr[..h], r);
    if lo > 0 {
      ReadAfterReset(cfg, tr, m, i, lo, h);
    }
    assert ReadsRun(tr[i], m);
    assert r in Readers(tr, m, lo, h);
    forall eid | eid in Readers(tr, m, lo, h) ensures eid == r {
      var j :| lo <= j < h && ReadsRun(tr[j], m) && tr[j].eid == eid;
      ReaderWaits(cfg, tr, m, j, h);
      OneActive(cfg, tr[..h], m, eid, r);
    }
  }

  lemma {:induction false} DisjointPrefix(cfg: Config, tr: Trace, m: MachineId, k: nat)
    requires Valid(cfg, tr) && Disjoint(cfg, tr, m) && k <= |tr|
    ensures Valid(cfg, tr[..k]) && Disjoint(cfg, tr[..k], m)
  {
    if k == |tr| {
      assert tr[..k] == tr;
    } else {
      assert tr[..|tr|-1][..k] == tr[..k];
      DisjointPrefix(cfg, tr[..|tr|-1], m, k);
    }
  }

  /** When evaluations of m do not overlap, a non-empty run that a finished evaluation ended at
      h has exactly one RECOVERY row, and the row carries the length of the run. */
  lemma ExactlyOneRecovery(cfg: Config, tr: Trace, m: MachineId, lo: nat, h: nat)
    requires Valid(cfg, tr) && Disjoint(cfg, tr, m)
    requires lo <= h < |tr| && tr[h].machine == m && tr[h].op.Reset? && NoReset(tr, m, lo, h)
    requires lo > 0 ==> tr[lo-1].machine == m && tr[lo-1].op.Reset?
    requires OpenRun(tr[..h], m) > 0 && !After(cfg, tr).Active(tr[h].eid, m)
    ensures exists p :: Recoveries(tr, m, lo, h) == {p} && tr[p].op.record.triggerCount == OpenRun(tr[..h], m)
  {
    OneReader(cfg, tr, m, lo, h);
    var i :| lo <= i < h && ReadsRun(tr[i], m) && tr[i].eid == tr[h].eid;
    var p := ReaderReports(cfg, tr, m, i);
    ReaderWaits(cfg, tr, m, i, h);
    forall q | q in Recoveries(tr, m, lo, h) ensures q == p {
      if q != p {
        OneRecoveryEach(cfg, tr, m, p, q);
      }
    }
    assert p in Recoveries(tr, m, lo, h);
    assert Recoveries(tr, m, lo, h) == {p};
  }
}
