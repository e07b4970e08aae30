// Any number of evaluations of any number of machines, interleaved at the store calls.
//
// Every request runs in its own goroutine and the store locks one call at a time, so a run is a
// sequence of events, each one atomic effect of one evaluation. Events carry what they observed.

module Interleaving {
  import opened AlertModel
  import opened AlertStore

  /** Where an evaluation stands: the next thing it does is named by its state.
      Started  -> increment (breach) or read (no breach)
      Counted  -> try the cooldown          Seen    -> reset the counter
      Granted  -> notify a P0               Cleared -> notify a recovery
      Saving   -> save the row */
  datatype Pc = Started | Counted | Granted | Seen(prev: nat) | Cleared(prev: nat) | Saving(record: Record) | Done

  datatype Eval = Eval(sample: Sample, pc: Pc)

  datatype Op =
    | Begin(sample: Sample)
    | Inc(count: nat)
    | Acquire(now: int, granted: bool)
    | Get(prev: nat)
    | Reset
    | Notify(at: int, result: Notified)
    | Save(record: Record, saved: bool)

  datatype Event = Event(eid: nat, machine: MachineId, op: Op)

  datatype State = State(store: Mem, clock: int, evals: map<nat, Eval>) {
    predicate Active(eid: nat, m: MachineId) {
      eid in evals && evals[eid].sample.machine == m && evals[eid].pc != Done
    }

    ghost predicate Idle(m: MachineId) { forall eid :: !Active(eid, m) }
  }

  const INIT: State := State(EMPTY, 0, map[])

  /** Event e may happen in state s and observes what it says. */
  predicate Enabled(cfg: Config, s: State, e: Event) {
    if e.op.Begin? then e.eid !in s.evals && e.op.sample.machine == e.machine
    else
      && e.eid in s.evals
      && var Eval(sample, pc) := s.evals[e.eid];
      && sample.machine == e.machine
      && match e.op
         case Begin(_) => false
         case Inc(count) => pc == Started && sample.Breach(cfg) && count == s.store.Count(e.machine) + 1
         case Acquire(now, granted) => pc == Counted && now >= s.clock && granted == s.store.Open(e.machine, now)
         case Get(prev) => pc == Started && !sample.Breach(cfg) && prev == s.store.Count(e.machine)
         case Reset => pc.Seen?
         case Notify(at, _) => (pc == Granted || pc.Cleared?) && at >= s.clock
         case Save(record, _) => pc == Saving(record)
  }

  /** Where the evaluation stands after its event. */
  function Advance(cfg: Config, ev: Eval, op: Op): Pc {
    match op
    case Begin(_) => Started
    case Inc(count) => if count >= cfg.triggerCount then Counted else Done
    case Acquire(_, granted) => if granted then Granted else Done
    case Get(prev) => Seen(prev)
    case Reset => if ev.pc.Seen? && ev.pc.prev > 0 then Cleared(ev.pc.prev) else Done
    case Notify(at, result) =>
      if ev.pc.Cleared? then Saving(RecoveryRecord(cfg, ev.sample, ev.pc.prev, at))
      else Saving(AlertRecord(cfg, ev.sample, result, at))
    case Save(_, _) => Done
  }

  /** What the event does to the shared store. */
  function StoreStep(cfg: Config, st: Mem, e: Event): Mem {
    match e.op
    case Inc(_) => st.Inc(e.machine)
    case Acquire(now, _) => st.Acquire(e.machine, now, cfg.Cooldown())
    case Reset => st.Clear(e.machine)
    case _ => st
  }

  function ClockStep(clock: int, op: Op): int {
    match op
    case Acquire(now, _) => now
    case Notify(at, _) => at
    case _ => clock
  }

  function Apply(cfg: Config, s: State, e: Event): State
    requires Enabled(cfg, s, e)
  {
    var ev := if e.op.Begin? then Eval(e.op.sample, Started)
              else Eval(s.evals[e.eid].sample, Advance(cfg, s.evals[e.eid], e.op));
    State(StoreStep(cfg, s.store, e), ClockStep(s.clock, e.op), s.evals[e.eid := ev])
  }

  type Trace = seq<Event>

  /** The state a trace leads to; None when some event of it could not happen. */
  function Exec(cfg: Config, tr: Trace): Option<State> {
    if tr == [] then Some(INIT)
    else
      var before := Exec(cfg, tr[..|tr|-1]);
      var e := tr[|tr|-1];
      if before.Some? && Enabled(cfg, before.value, e) then Some(Apply(cfg, before.value, e)) else None
  }

  ghost predicate Valid(cfg: Config, tr: Trace) { Exec(cfg, tr).Some? }

  function After(cfg: Config, tr: Trace): State
    requires Valid(cfg, tr)
  {
    Exec(cfg, tr).value
  }

  lemma {:induction false} ValidPrefix(cfg: Config, tr: Trace, k: nat)
    requires Valid(cfg, tr) && k <= |tr|
    ensures Valid(cfg, tr[..k])
  {
    if k == |tr| {
      assert tr[..k] == tr;
    } else {
      assert tr[..|tr|-1][..k] == tr[..k];
      ValidPrefix(cfg, tr[..|tr|-1], k);
    }
  }

  /** The event at position k was enabled, and the state behind it is its effect. */
  lemma StepAt(cfg: Config, tr: Trace, k: nat)
    requires Valid(cfg, tr) && k < |tr|
    ensures Valid(cfg, tr[..k]) && Valid(cfg, tr[..k+1])
    ensures Enabled(cfg, After(cfg, tr[..k]), tr[k])
    ensures After(cfg, tr[..k+1]) == Apply(cfg, After(cfg, tr[..k]), tr[k])
  {
    ValidPrefix(cfg, tr, k + 1);
    assert tr[..k+1][..k] == tr[..k];
  }

  /** Evaluations of one machine do not overlap: one begins only when no other is active. */
  ghost predicate Disjoint(cfg: Config, tr: Trace, m: MachineId)
    requires Valid(cfg, tr)
  {
    tr != [] ==>
      && Disjoint(cfg, tr[..|tr|-1], m)
      && (tr[|tr|-1].machine == m && tr[|tr|-1].op.Begin? ==> After(cfg, tr[..|tr|-1]).Idle(m))
  }

  // ---- What a trace shows of machine m -------------------------------------------------------

  function Proj(tr: Trace, m: MachineId): Trace {
    if tr == [] then []
    else
      var p := Proj(tr[..|tr|-1], m);
      if tr[|tr|-1].machine == m then p + [tr[|tr|-1]] else p
  }

  /** The samples of m in the order in which their evaluations begin. */
  function Arrivals(tr: Trace, m: MachineId): seq<Sample> {
    if tr == [] then []
    else
      var e := tr[|tr|-1];
      var a := Arrivals(tr[..|tr|-1], m);
      if e.machine == m && e.op.Begin? then a + [e.op.sample] else a
  }

  /** The rows evaluations of m tried to save. */
  function Attempts(tr: Trace, m: MachineId): seq<Attempt> {
    if tr == [] then []
    else
      var e := tr[|tr|-1];
      var a := Attempts(tr[..|tr|-1], m);
      if e.machine == m && e.op.Save? then a + [Attempt(e.op.record, e.op.saved)] else a
  }

  /** The number of increments of m. */
  function Increments(tr: Trace, m: MachineId): nat {
    if tr == [] then 0
    else Increments(tr[..|tr|-1], m) + if tr[|tr|-1].machine == m && tr[|tr|-1].op.Inc? then 1 else 0
  }

  /** The increments of m since its latest reset. */
  function OpenRun(tr: Trace, m: MachineId): nat {
    if tr == [] then 0
    else
      var e := tr[|tr|-1];
      if e.machine == m && e.op.Reset? then 0
      else OpenRun(tr[..|tr|-1], m) + if e.machine == m && e.op.Inc? then 1 else 0
  }

  /** The clock readings of m's cooldown attempts, and those of the granted ones. */
  function AcquireTimes(tr: Trace, m: MachineId): seq<int> {
    if tr == [] then []
    else
      var e := tr[|tr|-1];
      var a := AcquireTimes(tr[..|tr|-1], m);
      if e.machine == m && e.op.Acquire? then a + [e.op.now] else a
  }

  function GrantTimes(tr: Trace, m: MachineId): seq<int> {
    if tr == [] then []
    else
      var e := tr[|tr|-1];
      var a := GrantTimes(tr[..|tr|-1], m);
      if e.machine == m && e.op.Acquire? && e.op.granted then a + [e.op.now] else a
  }

  /** In every reachable state the counter of m is its number of increments since the last reset. */
  lemma {:induction false} CounterIsOpenRun(cfg: Config, tr: Trace, m: MachineId)
    requires Valid(cfg, tr)
    ensures After(cfg, tr).store.Count(m) == OpenRun(tr, m)
  {
    if tr != [] {
      CounterIsOpenRun(cfg, tr[..|tr|-1], m);
    }
  }
}
