// The Redis alert state store as a map of expiring keys, compared with the memory store.

module RedisStore {
  import opened AlertModel
  import opened AlertStore

  const HOUR: int := 3600 * 1_000_000_000

  /** A key's integer value and the time at which the key is gone, if it was given one. */
  datatype Entry = Entry(value: nat, expireAt: Option<int>)

  function CountKey(m: MachineId): string { "alert:cpu:count:" + m }

  function CooldownKey(m: MachineId): string { "alert:cpu:cooldown:" + m }

  lemma KeysNeverCollide(a: MachineId, b: MachineId)
    ensures CountKey(a) != CooldownKey(b)
    ensures CountKey(a) == CountKey(b) ==> a == b
    ensures CooldownKey(a) == CooldownKey(b) ==> a == b
  {
    assert CountKey(a)[12] == 'u' && CooldownKey(b)[12] == 'o';
    assert CountKey(a)[16..] == a && CountKey(b)[16..] == b;
    assert CooldownKey(a)[19..] == a && CooldownKey(b)[19..] == b;
  }

  /** The server's key space. Expired keys are not removed; they merely stop being alive. */
  datatype Redis = Redis(keys: map<string, Entry>) {

    predicate Alive(k: string, now: int) {
      k in keys && (keys[k].expireAt.Some? ==> now < keys[k].expireAt.value)
    }

    /** GET of an integer key; an absent key reads as zero. */
    function Value(k: string, now: int): nat { if Alive(k, now) then keys[k].value else 0 }

    /** INCR keeps the expiry of a live key and creates a key without one. */
    function Incr(k: string, now: int): Redis {
      Redis(keys[k := if Alive(k, now) then keys[k].(value := keys[k].value + 1) else Entry(1, None)])
    }

    function Expire(k: string, now: int, ttl: int): Redis {
      if Alive(k, now) then Redis(keys[k := keys[k].(expireAt := Some(now + ttl))]) else this
    }

    function Del(k: string): Redis { Redis(keys - {k}) }

    function SetNX(k: string, now: int, ttl: int): Redis {
      if Alive(k, now) then this else Redis(keys[k := Entry(1, Some(now + ttl))])
    }

    function SetNXForever(k: string, now: int): Redis {
      if Alive(k, now) then this else Redis(keys[k := Entry(1, None)])
    }
  }

  datatype Reply<T> = Replied(value: T) | CallError

  /** What became of one command: answered, not executed, or executed with the reply lost. */
  datatype Command = Answered | NotExecuted | ReplyLost

  /** What the client library makes of a time-to-live of zero or below. */
  datatype NonPositiveTtl = Refused | NoExpiry

  class RedisAlertStateStore {
    var keys: map<string, Entry>

    ghost function Model(): Redis
      reads this
    {
      Redis(keys)
    }

    constructor ()
      ensures Model() == Redis(map[])
    {
      keys := map[];
    }

    /** An error of INCR ends the call before EXPIRE; an error of EXPIRE is ignored. */
    method IncrementCPUBreach(m: MachineId, now: int, incr: Command, expire: Command) returns (r: Reply<nat>)
      modifies this
      ensures incr == NotExecuted ==> Model() == old(Model()) && r == CallError
      ensures incr == ReplyLost ==> Model() == old(Model()).Incr("alert:cpu:count:" + m, now) && r == CallError
      ensures incr == Answered ==> r == Replied(old(Model()).Value("alert:cpu:count:" + m, now) + 1)
      ensures incr == Answered ==>
                Model() == var s := old(Model()).Incr("alert:cpu:count:" + m, now);
                           if expire == NotExecuted then s
                           else s.Expire("alert:cpu:count:" + m, now, 60 * 60 * 1_000_000_000)
    {
      var key := CountKey(m);
      if incr == NotExecuted {
        return CallError;
      }
      keys := Redis(keys).Incr(key, now).keys;
      if incr == ReplyLost {
        return CallError;
      }
      var count := keys[key].value;
      if expire != NotExecuted {
        keys := Redis(keys).Expire(key, now, HOUR).keys;
      }
      return Replied(count);
    }

    method GetCPUBreachCount(m: MachineId, now: int, get: Command) returns (r: Reply<nat>)
      ensures r == if get == Answered then Replied(Model().Value("alert:cpu:count:" + m, now)) else CallError
    {
      if get != Answered {
        return CallError;
      }
      return Replied(Redis(keys).Value(CountKey(m), now));
    }

    method ResetCPUBreach(m: MachineId, del: Command) returns (ok: bool)
      modifies this
      ensures ok == (del == Answered)
      ensures Model() == if del == NotExecuted then old(Model()) else old(Model()).Del("alert:cpu:count:" + m)
    {
      if del != NotExecuted {
        keys := keys - {CountKey(m)};
      }
      return del == Answered;
    }

    /** A time-to-live of zero or below goes to the client library as it is, which either sends
        a command without expiry or gets an error. */
    method TryAcquireCooldown(m: MachineId, ttl: int, now: int, setnx: Command, odd: NonPositiveTtl)
      returns (r: Reply<bool>)
      modifies this
      ensures ttl <= 0 && odd == Refused ==> r == CallError && Model() == old(Model())
      ensures ttl > 0 || odd == NoExpiry ==>
                var key := "alert:cpu:cooldown:" + m;
                && r == (if setnx == Answered then Replied(!old(Model()).Alive(key, now)) else CallError)
                && Model() == if setnx == NotExecuted then old(Model())
                              else if ttl > 0 then old(Model()).SetNX(key, now, ttl)
                              else old(Model()).SetNXForever(key, now)
    {
      if ttl <= 0 && odd == Refused {
        return CallError;
      }
      var key := CooldownKey(m);
      var taken := Redis(keys).Alive(key, now);
      if setnx != NotExecuted && !taken {
        keys := keys[key := Entry(1, if ttl > 0 then Some(now + ttl) else None)];
      }
      return if setnx == Answered then Replied(!taken) else CallError;
    }
  }

  // ---- Both stores under the same operations ---------------------------------------------------

  datatype StoreOp = Inc(expired: bool) | Get | Reset | Acquire(ttl: int)

  /** An operation, when it runs, and for which machine. Inc says whether its EXPIRE worked. */
  datatype Timed = Timed(machine: MachineId, now: int, op: StoreOp)

  datatype Answer = Number(n: nat) | Flag(b: bool) | Nothing

  function MemAnswer(st: Mem, t: Timed): Answer {
    match t.op
    case Inc(_) => Number(st.Count(t.machine) + 1)
    case Get => Number(st.Count(t.machine))
    case Reset => Nothing
    case Acquire(_) => Flag(st.Open(t.machine, t.now))
  }

  function MemStep(st: Mem, t: Timed): Mem {
    match t.op
    case Inc(_) => st.Inc(t.machine)
    case Get => st
    case Reset => st.Clear(t.machine)
    case Acquire(ttl) => st.Acquire(t.machine, t.now, ttl)
  }

  function RedisAnswer(r: Redis, t: Timed): Answer {
    match t.op
    case Inc(_) => Number(r.Value(CountKey(t.machine), t.now) + 1)
    case Get => Number(r.Value(CountKey(t.machine), t.now))
    case Reset => Nothing
    case Acquire(_) => Flag(!r.Alive(CooldownKey(t.machine), t.now))
  }

  function RedisStep(r: Redis, t: Timed): Redis {
    match t.op
    case Inc(expired) =>
      var s := r.Incr(CountKey(t.machine), t.now);
      if expired then s.Expire(CountKey(t.machine), t.now, HOUR) else s
    case Get => r
    case Reset => r.Del(CountKey(t.machine))
    case Acquire(ttl) => r.SetNX(CooldownKey(t.machine), t.now, ttl)
  }

  function MemAfter(ops: seq<Timed>): Mem {
    if ops == [] then EMPTY else MemStep(MemAfter(ops[..|ops|-1]), ops[|ops|-1])
  }

  function RedisAfter(ops: seq<Timed>): Redis {
    if ops == [] then Redis(map[]) else RedisStep(RedisAfter(ops[..|ops|-1]), ops[|ops|-1])
  }

  function MemAnswers(ops: seq<Timed>): seq<Answer> {
    if ops == [] then []
    else MemAnswers(ops[..|ops|-1]) + [MemAnswer(MemAfter(ops[..|ops|-1]), ops[|ops|-1])]
  }

  function RedisAnswers(ops: seq<Timed>): seq<Answer> {
    if ops == [] then []
    else RedisAnswers(ops[..|ops|-1]) + [RedisAnswer(RedisAfter(ops[..|ops|-1]), ops[|ops|-1])]
  }

  /** When m was last incremented with a working EXPIRE since its last reset. */
  function LastExpire(ops: seq<Timed>, m: MachineId): Option<int> {
    if ops == [] then None
    else
      var t := ops[|ops|-1];
      if t.machine != m then LastExpire(ops[..|ops|-1], m)
      else match t.op
           case Inc(expired) => if expired then Some(t.now) else LastExpire(ops[..|ops|-1], m)
           case Reset => None
           case _ => LastExpire(ops[..|ops|-1], m)
  }

  /** The last operation reads or extends an open run an hour or more after its last working
      EXPIRE. A run without a working EXPIRE never goes stale. */
  predicate EndsStale(ops: seq<Timed>)
    requires ops != []
  {
    var t := ops[|ops|-1];
    var last := LastExpire(ops[..|ops|-1], t.machine);
    (t.op.Inc? || t.op.Get?) && last.Some? && t.now >= last.value + 60 * 60 * 1_000_000_000
  }

  /** No operation of the sequence is stale. */
  ghost predicate Timely(ops: seq<Timed>) {
    ops != [] ==> Timely(ops[..|ops|-1]) && !EndsStale(ops)
  }

  /** Every cooldown is positive; EXPIREs may fail and gaps may be arbitrary. */
  ghost predicate PositiveCooldowns(ops: seq<Timed>) {
    forall t :: t in ops ==> t.op.Acquire? ==> t.op.ttl > 0
  }

  /** The key space holds exactly m's counter and cooldown. */
  ghost predicate Simulates(ops: seq<Timed>, r: Redis, st: Mem, m: MachineId) {
    && (if st.Count(m) == 0 then CountKey(m) !in r.keys && LastExpire(ops, m) == None
        else CountKey(m) in r.keys && r.keys[CountKey(m)] ==
             Entry(st.Count(m), match LastExpire(ops, m) case None => None case Some(t) => Some(t + HOUR)))
    && (match st.Deadline(m)
        case None => CooldownKey(m) !in r.keys
        case Some(d) => CooldownKey(m) in r.keys && r.keys[CooldownKey(m)] == Entry(1, Some(d)))
  }

  /** An operation of another machine leaves m's keys alone. */
  lemma OtherKeysStay(r: Redis, t: Timed, m: MachineId)
    requires t.machine != m
    ensures var r' := RedisStep(r, t);
            && (CountKey(m) in r'.keys <==> CountKey(m) in r.keys)
            && (CountKey(m) in r.keys ==> r'.keys[CountKey(m)] == r.keys[CountKey(m)])
            && (CooldownKey(m) in r'.keys <==> CooldownKey(m) in r.keys)
            && (CooldownKey(m) in r.keys ==> r'.keys[CooldownKey(m)] == r.keys[CooldownKey(m)])
  {
    KeysNeverCollide(m, t.machine);
    KeysNeverCollide(t.machine, m);
  }

  /** A timely operation of m does the same to m's keys as to m's entries. */
  lemma OwnStep(ops: seq<Timed>, r: Redis, st: Mem, m: MachineId)
    requires ops != [] && ops[|ops|-1].machine == m && Simulates(ops[..|ops|-1], r, st, m) && !EndsStale(ops)
    requires ops[|ops|-1].op.Acquire? ==> ops[|ops|-1].op.ttl > 0
    ensures Simulates(ops, RedisStep(r, ops[|ops|-1]), MemStep(st, ops[|ops|-1]), m)
  {
    KeysNeverCollide(m, m);
  }

  /** An operation of another machine leaves m's keys and entries alone. */
  lemma OtherStep(ops: seq<Timed>, r: Redis, st: Mem, m: MachineId)
    requires ops != [] && ops[|ops|-1].machine != m && Simulates(ops[..|ops|-1], r, st, m)
    ensures Simulates(ops, RedisStep(r, ops[|ops|-1]), MemStep(st, ops[|ops|-1]), m)
  {
    OtherKeysStay(r, ops[|ops|-1], m);
  }

  lemma {:induction false} SimulationHolds(ops: seq<Timed>, m: MachineId)
    requires PositiveCooldowns(ops) && Timely(ops)
    ensures Simulates(ops, RedisAfter(ops), MemAfter(ops), m)
  {
    if ops != [] {
      var front, t := ops[..|ops|-1], ops[|ops|-1];
      assert t in ops;
      SimulationHolds(front, m);
      if t.machine == m {
        OwnStep(ops, RedisAfter(front), MemAfter(front), m);
      } else {
        OtherStep(ops, RedisAfter(front), MemAfter(front), m);
      }
    }
  }

  lemma {:induction false} TimelyAgrees(ops: seq<Timed>)
    requires PositiveCooldowns(ops) && Timely(ops)
    ensures RedisAnswers(ops) == MemAnswers(ops)
  {
    if ops != [] {
      TimelyAgrees(ops[..|ops|-1]);
      SimulationHolds(ops[..|ops|-1], ops[|ops|-1].machine);
    }
  }

  lemma {:induction false} StaleDiffers(ops: seq<Timed>)
    requires PositiveCooldowns(ops) && !Timely(ops)
    ensures RedisAnswers(ops) != MemAnswers(ops)
  {
    var front, t := ops[..|ops|-1], ops[|ops|-1];
    var r, m := RedisAnswers(ops), MemAnswers(ops);
    AnswerCounts(front);
    assert r[..|front|] == RedisAnswers(front) && m[..|front|] == MemAnswers(front);
    if Timely(front) {
      SimulationHolds(front, t.machine);
      assert r[|front|] != m[|front|];
    } else {
      StaleDiffers(front);
    }
  }

  lemma {:induction false} AnswerCounts(ops: seq<Timed>)
    ensures |RedisAnswers(ops)| == |MemAnswers(ops)| == |ops|
  {
    if ops != [] {
      AnswerCounts(ops[..|ops|-1]);
    }
  }

  /** Whichever EXPIREs fail, the two stores are indistinguishable exactly as long as no open run is
      read or extended an hour or more after its last working EXPIRE. Late resets are harmless. */
  lemma RedisSimulatesMemory(ops: seq<Timed>)
    requires PositiveCooldowns(ops)
    ensures RedisAnswers(ops) == MemAnswers(ops) <==> Timely(ops)
  {
    if Timely(ops) {
      TimelyAgrees(ops);
    } else {
      StaleDiffers(ops);
    }
  }

  // ---- Redis never counts more ------------------------------------------------------------------

  lemma {:induction false} CountsStayBelow(ops: seq<Timed>, m: MachineId)
    requires PositiveCooldowns(ops)
    ensures CountKey(m) in RedisAfter(ops).keys ==> RedisAfter(ops).keys[CountKey(m)].value <= MemAfter(ops).Count(m)
    ensures match MemAfter(ops).Deadline(m)
            case None => CooldownKey(m) !in RedisAfter(ops).keys
            case Some(d) => CooldownKey(m) in RedisAfter(ops).keys
                            && RedisAfter(ops).keys[CooldownKey(m)] == Entry(1, Some(d))
  {
    if ops != [] {
      var t := ops[|ops|-1];
      CountsStayBelow(ops[..|ops|-1], m);
      if t.machine == m {
        KeysNeverCollide(m, m);
      } else {
        OtherKeysStay(RedisAfter(ops[..|ops|-1]), t, m);
      }
    }
  }

  /** Whatever expires and whichever EXPIRE fails, Redis answers no larger count than memory, so
      a breach that reaches the trigger under Redis reaches it under memory; cooldowns agree. */
  lemma RedisNeverOvercounts(ops: seq<Timed>, k: nat)
    requires PositiveCooldowns(ops) && k < |ops|
    ensures |RedisAnswers(ops)| == |MemAnswers(ops)| == |ops|
    ensures var r, a := RedisAnswers(ops)[k], MemAnswers(ops)[k];
            match ops[k].op
            case Inc(_) => r.Number? && a.Number? && r.n <= a.n
            case Get => r.Number? && a.Number? && r.n <= a.n
            case _ => r == a
    decreases |ops|
  {
    var front := ops[..|ops|-1];
    AnswerCounts(ops);
    AnswerCounts(front);
    if k < |front| {
      RedisNeverOvercounts(front, k);
      assert RedisAnswers(ops)[k] == RedisAnswers(front)[k] && MemAnswers(ops)[k] == MemAnswers(front)[k];
    } else {
      CountsStayBelow(front, ops[k].machine);
    }
  }
}
