// What one request, one round of the worker's loop and sequences of them do, one at a time.

module Deployment {
  import opened AlertModel
  import opened AlertStore
  import opened Evaluation
  import opened Wire
  import opened Pipeline
  import Text

  /** What became of a publish: acknowledged, or an error before or after the topic took it. */
  datatype PublishResult = Acknowledged | Errored(appended: bool)

  /** A request together with everything its handler reads from outside. */
  datatype Request = Request(body: Body, now: int, write: VmWrite, env: Env)

  /** The alert state of a server: its store and its table. */
  datatype AlertState = AlertState(store: Mem, rows: seq<Record>)

  function SavedRows(attempt: Option<Attempt>): seq<Record> {
    if attempt.Some? && attempt.value.saved then [attempt.value.record] else []
  }

  /** Writing comes first; only a written sample is evaluated. */
  function Processed(cfg: Config, a: AlertState, s: Sample, write: VmWrite, env: Env): AlertState {
    if write != Written then a
    else
      var v := Evaluate(cfg, a.store, s, env);
      AlertState(v.store, a.rows + SavedRows(v.attempt))
  }

  /** One request handled directly. */
  function Served(cfg: Config, a: AlertState, r: Request): AlertState {
    match Admit(r.body, r.now)
    case None => a
    case Some(s) => Processed(cfg, a, s, r.write, r.env)
  }

  /** One processed request in plain terms, from the keys of its body to the row in the table. */
  lemma ServedInPlainTerms(cfg: Config, a: AlertState, r: Request, said: Sample)
    requires BodySays(r.body, said) && r.write == Written && r.env.Faultless()
    requires exists i :: 0 <= i < |said.machine| && said.machine[i] as int !in Text.WHITE_SPACE
    ensures var a' := Served(cfg, a, r);
            InPlainTerms(cfg, a.store, a.rows, Stamped(said, r.now), r.env, a'.store, a'.rows)
  {
    AdmittedIff(r.body, r.now, Stamped(said, r.now));
  }

  /** A Direct-mode server handling the requests one after the other. */
  function ServedAll(cfg: Config, a: AlertState, rs: seq<Request>): AlertState {
    if rs == [] then a else Served(cfg, ServedAll(cfg, a, rs[..|rs|-1]), rs[|rs|-1])
  }

  /** The alert counters one evaluation increments: a P0 counts its notification and its save, a
      recovery only its save. */
  function Tally(c: Counters, attempt: Option<Attempt>): Counters {
    match attempt
    case None => c
    case Some(Attempt(r, saved)) =>
      match r.level
      case P0 =>
        var c := if r.status.Sent? then c.(p0Sent := c.p0Sent + 1) else c.(p0Failed := c.p0Failed + 1);
        if saved then c.(p0Saved := c.p0Saved + 1) else c.(p0SaveFailed := c.p0SaveFailed + 1)
      case Recovery =>
        if saved then c.(recoverySaved := c.recoverySaved + 1) else c.(recoverySaveFailed := c.recoverySaveFailed + 1)
  }

  /** The counters after processing an admitted sample. */
  function Counted(cfg: Config, c: Counters, st: Mem, s: Sample, write: VmWrite, env: Env): Counters {
    var c := CountWrite(c, write);
    if write != Written then c else Tally(c, Evaluate(cfg, st, s, env).attempt)
  }

  // ---- The worker ------------------------------------------------------------------------------

  /** Whether a forwarded request reached the server, and whether its answer came back. */
  datatype Transport = NotSent | SentUnanswered | SentAnswered

  /** What one round of the worker's loop meets. */
  datatype Round =
    | ReadFails
    | Reads(buildFails: bool, transport: Transport, now: int, write: VmWrite, env: Env)

  /** The offset after the rounds: every successful read moves on by one, whatever follows. */
  function Position(log: seq<Body>, offset: nat, rounds: seq<Round>): nat {
    if rounds == [] then offset
    else
      var before := Position(log, offset, rounds[..|rounds|-1]);
      if rounds[|rounds|-1].Reads? && before < |log| then before + 1 else before
  }

  /** A message read in this round reaches the process handler. */
  predicate IsSent(message: Body, r: Round) {
    r.Reads? && !r.buildFails && r.transport != NotSent && Forwarded(message).Some?
  }

  predicate Reaches(log: seq<Body>, at: nat, r: Round) { at < |log| && IsSent(log[at], r) }

  function RequestOf(message: Body, r: Round): Request
    requires IsSent(message, r)
  {
    Request(Forwarded(message).value, r.now, r.write, r.env)
  }

  /** How a round ends. */
  datatype RoundEnd = NoRead | NoMessage | Undecodable | Unbuildable | NotForwarded | Non2xxAnswer | Success

  /** What becomes of a message that was read. */
  function OutcomeOf(message: Body, r: Round): RoundEnd
    requires r.Reads?
  {
    match Forwarded(message)
    case None => Undecodable
    case Some(body) =>
      if r.buildFails then Unbuildable
      else if r.transport != SentAnswered then NotForwarded
      else if r.write == Written && Admit(body, r.now).Some? then Success
      else Non2xxAnswer
  }

  function EndOf(log: seq<Body>, at: nat, r: Round): RoundEnd {
    if r.ReadFails? then NoRead else if at >= |log| then NoMessage else OutcomeOf(log[at], r)
  }

  /** The requests the process handler receives, and the offsets they come from. */
  function Requests(log: seq<Body>, offset: nat, rounds: seq<Round>): seq<Request> {
    if rounds == [] then []
    else
      var before := Requests(log, offset, rounds[..|rounds|-1]);
      var at := Position(log, offset, rounds[..|rounds|-1]);
      var r := rounds[|rounds|-1];
      if Reaches(log, at, r) then before + [RequestOf(log[at], r)] else before
  }

  function RequestOffsets(log: seq<Body>, offset: nat, rounds: seq<Round>): seq<nat> {
    if rounds == [] then []
    else
      var before := RequestOffsets(log, offset, rounds[..|rounds|-1]);
      var at := Position(log, offset, rounds[..|rounds|-1]);
      if Reaches(log, at, rounds[|rounds|-1]) then before + [at] else before
  }

  /** The requests come from an ordered subsequence of the topic. */
  lemma {:induction false} RequestsAreSubsequence(log: seq<Body>, offset: nat, rounds: seq<Round>)
    ensures var offs, rs := RequestOffsets(log, offset, rounds), Requests(log, offset, rounds);
            && |offs| == |rs|
            && (forall i, j :: 0 <= i < j < |offs| ==> offs[i] < offs[j])
            && (forall k :: 0 <= k < |offs| ==>
                  offset <= offs[k] < Position(log, offset, rounds) && offs[k] < |log|
                  && Forwarded(log[offs[k]]) == Some(rs[k].body))
    ensures Position(log, offset, rounds) >= offset
  {
    if rounds != [] {
      RequestsAreSubsequence(log, offset, rounds[..|rounds|-1]);
    }
  }

  // ---- Server, topic and worker together ------------------------------------------------------

  /** What the objects of a deployment hold between two calls. */
  datatype Snapshot = Snapshot(log: seq<Body>, offset: nat, alerts: AlertState, work: WorkerCounters, ctr: Counters)

  const FRESH := Snapshot([], 0, AlertState(EMPTY, []), NO_WORK, ZERO)

  /** The server's part after processing an admitted sample and answering. */
  function Handled(cfg: Config, d: Snapshot, origin: Origin, s: Sample, write: VmWrite, env: Env): Snapshot {
    d.(alerts := Processed(cfg, d.alerts, s, write, env),
       ctr := CountAnswer(Counted(cfg, d.ctr, d.alerts.store, s, write, env), origin, write == Written))
  }

  /** The counters after a request at the process entrance. */
  function CountProcess(cfg: Config, c: Counters, st: Mem, r: Request): Counters {
    match Admit(r.body, r.now)
    case None => c.(processBad := c.processBad + 1)
    case Some(s) => CountAnswer(Counted(cfg, c, st, s, r.write, r.env), Topic(0), r.write == Written)
  }

  /** One request at the process entrance. */
  function AfterProcess(cfg: Config, d: Snapshot, r: Request): Snapshot {
    d.(alerts := Served(cfg, d.alerts, r), ctr := CountProcess(cfg, d.ctr, d.alerts.store, r))
  }

  /** One request at the clients' entrance. */
  function AfterMetrics(cfg: Config, mode: Mode, d: Snapshot, r: Request, publish: PublishResult): Snapshot {
    match Admit(r.body, r.now)
    case None => d.(ctr := d.ctr.(directBad := d.ctr.directBad + 1))
    case Some(s) =>
      if mode == Direct then Handled(cfg, d, Client, s, r.write, r.env)
      else
        d.(log := d.log + AppendedBy(s, publish), ctr := CountPublish(d.ctr, publish))
  }

  /** The message reaches the topic also when its acknowledgement is lost. */
  function AppendedBy(s: Sample, publish: PublishResult): seq<Body> {
    if publish.Acknowledged? || publish.appended then [Encode(EVENT_NAMES, s)] else []
  }

  function CountPublish(c: Counters, publish: PublishResult): Counters {
    if publish.Acknowledged? then c.(publishOk := c.publishOk + 1, accepted := c.accepted + 1)
    else c.(publishErrors := c.publishErrors + 1, kafkaErrors := c.kafkaErrors + 1)
  }

  /** The worker's counter of an outcome. */
  function CountOutcome(w: WorkerCounters, end: RoundEnd): WorkerCounters {
    match end
    case NoRead => w.(readErrors := w.readErrors + 1)
    case NoMessage => w
    case Undecodable => w.(decodeErrors := w.decodeErrors + 1)
    case Unbuildable => w.(buildErrors := w.buildErrors + 1)
    case NotForwarded => w.(forwardErrors := w.forwardErrors + 1)
    case Non2xxAnswer => w.(non2xx := w.non2xx + 1)
    case Success => w.(forwardOk := w.forwardOk + 1)
  }

  /** The worker's counters after a round: a message read has exactly one outcome. */
  function CountRound(w: WorkerCounters, end: RoundEnd): WorkerCounters {
    CountOutcome(if end == NoRead || end == NoMessage then w else w.(readOk := w.readOk + 1), end)
  }

  /** One round of the worker's loop. */
  function AfterRound(cfg: Config, d: Snapshot, r: Round): Snapshot {
    var served := if Reaches(d.log, d.offset, r) then AfterProcess(cfg, d, RequestOf(d.log[d.offset], r)) else d;
    served.(offset := if r.Reads? && d.offset < |d.log| then d.offset + 1 else d.offset,
            work := CountRound(d.work, EndOf(d.log, d.offset, r)))
  }

  function AfterRounds(cfg: Config, d: Snapshot, rounds: seq<Round>): Snapshot {
    if rounds == [] then d else AfterRound(cfg, AfterRounds(cfg, d, rounds[..|rounds|-1]), rounds[|rounds|-1])
  }

  /** After any number of rounds the worker has moved to its position, the topic is as it was, and
      the alert state is what a Direct-mode server makes of the delivered requests. */
  lemma {:induction false} RoundsServeRequests(cfg: Config, d: Snapshot, rounds: seq<Round>)
    ensures var d' := AfterRounds(cfg, d, rounds);
            && d'.log == d.log && d'.offset == Position(d.log, d.offset, rounds)
            && d'.alerts == ServedAll(cfg, d.alerts, Requests(d.log, d.offset, rounds))
  {
    if rounds != [] {
      RoundsServeRequests(cfg, d, rounds[..|rounds|-1]);
    }
  }

  /** Between two rounds every message read has exactly one outcome. */
  ghost predicate Balanced(d: Snapshot) {
    var w := d.work;
    w.readOk == d.offset && w.readOk == w.decodeErrors + w.buildErrors + w.forwardErrors + w.non2xx + w.forwardOk
  }

  /** Whatever the rounds meet, store errors included: the worker's books stay balanced, it counts
      no more successes than the server does, and the server as many as it has written samples. */
  lemma {:induction false} RoundsReconcile(cfg: Config, d: Snapshot, rounds: seq<Round>)
    ensures var d' := AfterRounds(cfg, d, rounds);
            && (Balanced(d) ==> Balanced(d'))
            && d'.work.forwardOk - d.work.forwardOk <= d'.ctr.processOk - d.ctr.processOk
            && d'.ctr.processOk - d.ctr.processOk == d'.ctr.writesOk - d.ctr.writesOk
  {
    if rounds != [] {
      var front := rounds[..|rounds|-1];
      RoundsReconcile(cfg, d, front);
      RoundReconciles(cfg, AfterRounds(cfg, d, front), rounds[|rounds|-1]);
    }
  }

  lemma RoundReconciles(cfg: Config, d: Snapshot, r: Round)
    ensures var d' := AfterRound(cfg, d, r);
            && (Balanced(d) ==> Balanced(d'))
            && d'.work.forwardOk - d.work.forwardOk <= d'.ctr.processOk - d.ctr.processOk
            && d'.ctr.processOk - d.ctr.processOk == d'.ctr.writesOk - d.ctr.writesOk
  {
    if Reaches(d.log, d.offset, r) {
      ProcessReconciles(cfg, d, RequestOf(d.log[d.offset], r));
    }
  }

  /** A success is counted exactly for a written sample. */
  lemma ProcessReconciles(cfg: Config, d: Snapshot, r: Request)
    ensures var served := r.write == Written && Admit(r.body, r.now).Some?;
            var d' := AfterProcess(cfg, d, r);
            && d'.ctr.processOk == d.ctr.processOk + (if served then 1 else 0)
            && d'.ctr.writesOk == d.ctr.writesOk + (if served then 1 else 0)
  {
  }
}
