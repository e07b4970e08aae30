// The values the alert path works on: configuration, samples and stored alert events.

module AlertModel {

  datatype Option<+T> = None | Some(value: T)

  type MachineId = string

  /** The alert settings of the server. Nothing bounds them: a trigger count or a
      cooldown of zero or below is accepted by the configuration loader. */
  datatype Config = Config(threshold: real, triggerCount: int, cooldownSec: int) {
    /** The cooldown as a duration in nanoseconds, the unit of every clock here. */
    function Cooldown(): int { cooldownSec * 1_000_000_000 }
  }

  datatype Sample = Sample(machine: MachineId, ip: string, cpu: real, mem: real, disk: real, timestamp: int) {
    /** A breach is strictly above the threshold. */
    predicate Breach(cfg: Config) { cpu > cfg.threshold }
  }

  datatype Level = P0 | Recovery

  /** The stored notify status together with the stored notify error. */
  datatype Notified = Sent | Failed(error: string)

  /** One row of the alert event table. */
  datatype Record = Record(
    machine: MachineId, ip: string, level: Level, threshold: real, current: real,
    triggerCount: int, cooldownSec: int, status: Notified, triggeredAt: int)

  /** A P0 row carries the configured trigger count and what the notifier answered. */
  function AlertRecord(cfg: Config, s: Sample, notified: Notified, at: int): Record {
    Record(s.machine, s.ip, P0, cfg.threshold, s.cpu, cfg.triggerCount, cfg.cooldownSec, notified, at)
  }

  /** A RECOVERY row carries the length of the run it ends and is always marked sent. */
  function RecoveryRecord(cfg: Config, s: Sample, prev: nat, at: int): Record {
    Record(s.machine, s.ip, Recovery, cfg.threshold, s.cpu, prev, cfg.cooldownSec, Sent, at)
  }

  /** A row handed to the database, and whether the database took it. */
  datatype Attempt = Attempt(record: Record, saved: bool)
}
