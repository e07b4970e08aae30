// The in-memory alert state store: breach counters and cooldown deadlines per machine.

module AlertStore {
  import opened AlertModel

  /** The contents of the store as a value. */
  datatype Mem = Mem(counts: map<MachineId, nat>, cooldowns: map<MachineId, int>) {

    function Count(m: MachineId): nat { if m in counts then counts[m] else 0 }

    function Inc(m: MachineId): Mem { this.(counts := counts[m := Count(m) + 1]) }

    /** Clearing a counter leaves the cooldown of the machine in place. */
    function Clear(m: MachineId): Mem { this.(counts := counts - {m}) }

    /** No cooldown is running; a cooldown that ends exactly now is over. */
    predicate Open(m: MachineId, now: int) { m in cooldowns ==> now >= cooldowns[m] }

    function Acquire(m: MachineId, now: int, ttl: int): Mem {
      if Open(m, now) then this.(cooldowns := cooldowns[m := now + ttl]) else this
    }

    function Deadline(m: MachineId): Option<int> { if m in cooldowns then Some(cooldowns[m]) else None }

    /** Both stores say the same about machine m. */
    ghost predicate SameAt(other: Mem, m: MachineId) {
      Count(m) == other.Count(m) && Deadline(m) == other.Deadline(m)
    }
  }

  const EMPTY: Mem := Mem(map[], map[])

  /** Every method below is one critical section of the store's mutex. */
  class MemoryAlertStateStore {
    var counts: map<MachineId, nat>
    var cooldowns: map<MachineId, int>

    ghost function Model(): Mem
      reads this
    {
      Mem(counts, cooldowns)
    }

    constructor ()
      ensures Model() == EMPTY
    {
      counts := map[];
      cooldowns := map[];
    }

    method IncrementCPUBreach(m: MachineId) returns (count: nat)
      modifies this`counts
      ensures Model() == old(Model()).Inc(m)
      ensures count == old(Model()).Count(m) + 1
    {
      counts := counts[m := (if m in counts then counts[m] else 0) + 1];
      count := counts[m];
    }

    method GetCPUBreachCount(m: MachineId) returns (count: nat)
      ensures count == Model().Count(m)
    {
      count := if m in counts then counts[m] else 0;
    }

    method ResetCPUBreach(m: MachineId)
      modifies this`counts
      ensures Model() == old(Model()).Clear(m)
      ensures Model().Count(m) == 0
    {
      counts := counts - {m};
    }

    /** The clock is read inside the critical section: now is that reading. */
    method TryAcquireCooldown(m: MachineId, ttl: int, now: int) returns (ok: bool)
      modifies this`cooldowns
      ensures ok == old(Model()).Open(m, now)
      ensures Model() == old(Model()).Acquire(m, now, ttl)
      ensures ok ==> Model().Deadline(m) == Some(now + ttl)
    {
      if m in cooldowns && now < cooldowns[m] {
        return false;
      }
      cooldowns := cooldowns[m := now + ttl];
      return true;
    }
  }
}
