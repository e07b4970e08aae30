// A whole pass: the reconcile method against the call-by-call machine, and what one pass and
// one repeated pass achieve.

module OperatorPass {
  import opened AlertModel
  import opened Operator
  import opened OperatorRuns

  /** Which of a pass's ten answers a call gets: reading the resource, reading and writing each of
      the four objects, and patching the status. */
  function CallIndex(pc: Pc): (i: nat)
    ensures i < 10
  {
    match pc
    case Idle => 0
    case Fetching(t, _, _) => 1 + 2 * Rank(t)
    case Storing(t, _, _, _) => 2 + 2 * Rank(t)
    case PatchingReady(_, _) => 9
    case PatchingError(_) => 9
  }

  /** The calls a pass may still make. */
  function Remaining(pc: Pc): nat {
    match pc
    case Idle => 0
    case Fetching(t, _, _) => 9 - 2 * Rank(t)
    case Storing(t, _, _, _) => 8 - 2 * Rank(t)
    case PatchingReady(_, _) => 1
    case PatchingError(_) => 1
  }

  /** The rest of a pass. */
  function Finish(s: State, answers: seq<Outcome>): State
    requires |answers| == 10
    decreases Remaining(s.pc)
  {
    if s.pc == Idle then s else Finish(Step(s, Call(answers[CallIndex(s.pc)])), answers)
  }

  function Pass(s: State, answers: seq<Outcome>): State
    requires |answers| == 10 && s.pc == Idle
  {
    Finish(Step(s, Call(answers[0])), answers)
  }

  /** The calls of the rest of a pass. */
  function Calls(s: State, answers: seq<Outcome>): (events: seq<Event>)
    requires |answers| == 10
    ensures SpecUnchanged(events)
    decreases Remaining(s.pc)
  {
    if s.pc == Idle then []
    else
      var call := Call(answers[CallIndex(s.pc)]);
      [call] + Calls(Step(s, call), answers)
  }

  lemma {:induction false} FirstCall(s: State, e: Event, events: seq<Event>)
    ensures After(s, [e] + events) == After(Step(s, e), events)
    decreases |events|
  {
    if events == [] {
      assert [e] + events == [e] && After(s, [e][..0]) == s;
    } else {
      var front := events[..|events|-1];
      assert ([e] + events)[..|[e] + events|-1] == [e] + front;
      FirstCall(s, e, front);
    }
  }

  lemma {:induction false} FinishIsRun(s: State, answers: seq<Outcome>)
    requires |answers| == 10
    ensures After(s, Calls(s, answers)) == Finish(s, answers)
    decreases Remaining(s.pc)
  {
    if s.pc != Idle {
      var call := Call(answers[CallIndex(s.pc)]);
      var next := Step(s, call);
      FirstCall(s, call, Calls(next, answers));
      FinishIsRun(next, answers);
    }
  }

  /** A pass is a run of the call-by-call machine, so everything that holds over runs holds over
      sequences of passes. */
  lemma PassIsRun(s: State, answers: seq<Outcome>)
    requires |answers| == 10 && s.pc == Idle
    ensures exists events :: SpecUnchanged(events) && After(s, events) == Pass(s, answers)
  {
    var call := Call(answers[0]);
    var next := Step(s, call);
    FirstCall(s, call, Calls(next, answers));
    FinishIsRun(next, answers);
    var events := [call] + Calls(next, answers);
    assert After(s, events) == Pass(s, answers);
  }

  // ---- One stage at a time --------------------------------------------------------------------

  predicate StageWorks(objects: Objects, t: Stage, answers: seq<Outcome>)
    requires |answers| == 10
  {
    answers[1 + 2 * Rank(t)] == Done && Present(objects, t) && answers[2 + 2 * Rank(t)] == Done
  }

  /** The objects after a stage; an update whose answer was lost has still taken effect. */
  function Stored(objects: Objects, t: Stage, want: Spec, fetch: Outcome, store: Outcome): Objects {
    if fetch == Done && Present(objects, t) && store != Rejected
    then objects[KeyOf(t) := Reconciled(t, want, objects[KeyOf(t)])]
    else objects
  }

  function StageDone(s: State, answers: seq<Outcome>): State
    requires |answers| == 10 && s.pc.Fetching?
  {
    var Fetching(t, gen, want) := s.pc;
    s.(objects := Stored(s.objects, t, want, answers[1 + 2 * Rank(t)], answers[2 + 2 * Rank(t)]),
       pc := if StageWorks(s.objects, t, answers) then AfterStage(t, gen, want) else PatchingError(gen))
  }

  lemma StageIsTwoCalls(s: State, answers: seq<Outcome>)
    requires |answers| == 10 && s.pc.Fetching?
    ensures Finish(s, answers) == Finish(StageDone(s, answers), answers)
    ensures PassInvariant(s) ==> PassInvariant(StageDone(s, answers))
  {
    var a := Step(s, Call(answers[1 + 2 * Rank(s.pc.t)]));
    assert Finish(s, answers) == Finish(a, answers);
    PassInvariantKept(s, answers[1 + 2 * Rank(s.pc.t)]);
    if a.pc.Storing? {
      assert Finish(a, answers) == Finish(Step(a, Call(answers[2 + 2 * Rank(s.pc.t)])), answers);
      PassInvariantKept(a, answers[2 + 2 * Rank(s.pc.t)]);
    }
  }

  lemma PassInvariantKept(s: State, o: Outcome)
    ensures PassInvariant(s) ==> PassInvariant(Step(s, Call(o)))
  {
    if PassInvariant(s) {
      PassStep(s, Call(o));
    }
  }

  // ---- The pass as the program runs it --------------------------------------------------------

  /** The images are set in place, container by container. */
  method SetImages(cs: array<Container>, name: string, image: string)
    requires image != ""
    modifies cs
    ensures cs[..] == WithImage(old(cs[..]), name, image)
  {
    for i := 0 to cs.Length
      invariant forall k :: 0 <= k < i ==> cs[k] == WithImage(old(cs[..]), name, image)[k]
      invariant forall k :: i <= k < cs.Length ==> cs[k] == old(cs[k])
    {
      if cs[i].name == name {
        cs[i] := cs[i].(image := image);
      }
    }
  }

  /** Only the object under key changed: its replicas, if any are given, and the image of its
      containers with the name, unless the image is empty. */
  ghost predicate WorkloadSet(key: Key, name: string, image: string, replicas: Option<int>,
                              before: Objects, after: Objects) {
    && key in before && key in after && !before[key].ConfigMap? && !after[key].ConfigMap?
    && after == before[key := after[key]]
    && (if replicas.Some? then after[key].Deployment? && after[key].replicas == replicas else after[key].DaemonSet?)
    && var was, now := before[key].containers, after[key].containers;
    && |now| == |was|
    && forall i :: 0 <= i < |was| ==>
         now[i] == if image != "" && was[i].name == name then Container(name, image) else was[i]
  }

  /** Only the ConfigMap under key changed: the managed keys are set, all others are as before. */
  ghost predicate ConfigMapSet(key: Key, want: Spec, before: Objects, after: Objects) {
    && key in before && key in after && before[key].ConfigMap? && after == before[key := after[key]]
    && after[key].ConfigMap? && after[key].data.Some?
    && var data := after[key].data.value;
    && var was := if before[key].data.Some? then before[key].data.value else map[];
    && var managed := was["INGEST_MODE" := want.ingestMode]["KAFKA_BROKERS" := want.kafkaBrokers]
                      ["REDIS_ADDR" := want.redisAddr]["VICTORIA_METRICS_URL" := want.victoriaURL];
    data == if Text.Blank(want.otelEndpoint) then managed
            else managed["OTEL_EXPORTER_OTLP_ENDPOINT" := want.otelEndpoint]
  }

  /** The status message of a pass without errors. */
  const RECONCILED := "workloads reconciled"

  /** The API server with the custom resource, and the operator's methods on it. */
  class Cluster {
    var raw: RawSpec
    var generation: nat
    var status: Option<Status>
    var message: string
    var objects: Objects

    ghost function Snapshot(): State
      reads this
    {
      State(raw, generation, status, objects, Idle)
    }

    constructor (raw: RawSpec, generation: nat, objects: Objects)
      ensures Initial(Snapshot()) && this.raw == raw && this.generation == generation && this.objects == objects
    {
      this.raw, this.generation, this.status, this.message, this.objects := raw, generation, None, "", objects;
    }

    /** Sets the managed keys one by one on the data read, then writes it back. */
    method ReconcileConfigMap(want: Spec, fetch: Outcome, store: Outcome) returns (ok: bool)
      modifies this`objects
      ensures ok == (fetch == Done && Present(old(objects), Settings) && store == Done)
      ensures objects == Stored(old(objects), Settings, want, fetch, store)
      ensures ok ==> ConfigMapSet(Key(ConfigMaps, "cloudops-config"), want, old(objects), objects)
    {
      var key := KeyOf(Settings);
      if fetch != Done || key !in objects || !objects[key].ConfigMap? {
        return false;
      }
      var read := objects[key].data;
      var data := if read.Some? then read.value else map[];
      data := data["INGEST_MODE" := want.ingestMode];
      data := data["KAFKA_BROKERS" := want.kafkaBrokers];
      data := data["REDIS_ADDR" := want.redisAddr];
      data := data["VICTORIA_METRICS_URL" := want.victoriaURL];
      if !Text.Blank(want.otelEndpoint) {
        data := data["OTEL_EXPORTER_OTLP_ENDPOINT" := want.otelEndpoint];
      }
      if store == Rejected {
        return false;
      }
      objects := objects[key := ConfigMap(Some(data))];
      return store == Done;
    }

    method ReconcileDeployment(t: Stage, want: Spec, fetch: Outcome, store: Outcome) returns (ok: bool)
      requires t == Server || t == Worker
      modifies this`objects
      ensures ok == (fetch == Done && Present(old(objects), t) && store == Done)
      ensures objects == Stored(old(objects), t, want, fetch, store)
      ensures ok && t == Server ==>
                WorkloadSet(Key(Deployments, "cloudops-server"), "server", want.server.image,
                            Some(want.server.replicas), old(objects), objects)
      ensures ok && t == Worker ==>
                WorkloadSet(Key(Deployments, "cloudops-worker"), "worker", want.worker.image,
                            Some(want.worker.replicas), old(objects), objects)
    {
      var key := KeyOf(t);
      if fetch != Done || key !in objects || !objects[key].Deployment? {
        return false;
      }
      var read := objects[key].containers;
      var containers := new Container[|read|](i requires 0 <= i < |read| => read[i]);
      assert containers[..] == read;
      if ImageOf(t, want) != "" {
        SetImages(containers, ContainerOf(t), ImageOf(t, want));
      }
      if store == Rejected {
        return false;
      }
      objects := objects[key := Deployment(Some(ReplicasOf(t, want)), containers[..])];
      return store == Done;
    }

    method ReconcileDaemonSet(want: Spec, fetch: Outcome, store: Outcome) returns (ok: bool)
      modifies this`objects
      ensures ok == (fetch == Done && Present(old(objects), Agent) && store == Done)
      ensures objects == Stored(old(objects), Agent, want, fetch, store)
      ensures ok ==>
                WorkloadSet(Key(DaemonSets, "cloudops-agent"), "agent", want.agentImage, None, old(objects), objects)
    {
      var key := KeyOf(Agent);
      if fetch != Done || key !in objects || !objects[key].DaemonSet? {
        return false;
      }
      var read := objects[key].containers;
      var containers := new Container[|read|](i requires 0 <= i < |read| => read[i]);
      assert containers[..] == read;
      if want.agentImage != "" {
        SetImages(containers, "agent", want.agentImage);
      }
      if store == Rejected {
        return false;
      }
      objects := objects[key := DaemonSet(containers[..])];
      return store == Done;
    }

    method PatchStatus(phase: Phase, gen: nat, text: string, answer: Outcome) returns (ok: bool)
      modifies this`status, this`message
      ensures ok == (answer == Done)
      ensures if answer == Rejected then status == old(status) && message == old(message)
              else status == Some(Status(phase, gen)) && message == text
    {
      if answer != Rejected {
        status, message := Some(Status(phase, gen)), text;
      }
      return answer == Done;
    }

    /** One pass is one run of the call-by-call machine. Its status is patched with the text of
        the error that ended it, or with a fixed text. */
    method Reconcile(answers: seq<Outcome>, errorText: string) returns (ok: bool)
      requires |answers| == 10
      modifies this`objects, this`status, this`message
      ensures Snapshot() == Pass(old(Snapshot()), answers)
      ensures ok ==> status == Some(Status(Ready, generation)) && message == "workloads reconciled"
      ensures ok ==> raw.Raw? && AsSpecified(raw.spec, objects)
      ensures if answers[0] != Done || answers[9] == Rejected then message == old(message)
              else status.Some? && message == if status.value.phase == Ready then "workloads reconciled" else errorText
    {
      if answers[0] != Done {
        return false;
      }
      var gen, parsed := generation, ParseSpec(raw);
      if parsed.None? {
        ghost var e := Snapshot().(pc := PatchingError(gen));
        assert Finish(e, answers) == Step(e, Call(answers[9]));
        var _ := PatchStatus(Error, gen, errorText, answers[9]);
        return false;
      }
      var want := parsed.value;
      ghost var s := Snapshot().(pc := Fetching(Settings, gen, want));
      var done := ReconcileAll(gen, want, answers);
      ghost var e := State(raw, generation, status, objects,
                           if done then PatchingReady(gen, want) else PatchingError(gen));
      assert Finish(e, answers) == Step(e, Call(answers[9]));
      if done {
        ok := PatchStatus(Ready, gen, RECONCILED, answers[9]);
        if ok {
          ReadyPassReconciles(old(Snapshot()), answers);
        }
      } else {
        var _ := PatchStatus(Error, gen, errorText, answers[9]);
        ok := false;
      }
    }

    /** One stage: the object is read, changed and written back. */
    method RunStage(t: Stage, gen: nat, want: Spec, answers: seq<Outcome>) returns (done: bool)
      requires |answers| == 10
      modifies this`objects
      ensures Finish(State(raw, generation, status, old(objects), Fetching(t, gen, want)), answers)
           == Finish(State(raw, generation, status, objects,
                           if done then AfterStage(t, gen, want) else PatchingError(gen)), answers)
    {
      StageIsTwoCalls(State(raw, generation, status, objects, Fetching(t, gen, want)), answers);
      var fetch, store := answers[1 + 2 * Rank(t)], answers[2 + 2 * Rank(t)];
      match t
      case Settings => done := ReconcileConfigMap(want, fetch, store);
      case Agent => done := ReconcileDaemonSet(want, fetch, store);
      case _ => done := ReconcileDeployment(t, want, fetch, store);
    }

    /** The workloads; the first one that fails ends the pass. */
    method ReconcileWorkloads(gen: nat, want: Spec, answers: seq<Outcome>) returns (done: bool)
      requires |answers| == 10
      modifies this`objects
      ensures Finish(State(raw, generation, status, old(objects), Fetching(Server, gen, want)), answers)
           == Finish(State(raw, generation, status, objects,
                           if done then PatchingReady(gen, want) else PatchingError(gen)), answers)
    {
      done := RunStage(Server, gen, want, answers);
      if !done {
        return;
      }
      done := RunStage(Worker, gen, want, answers);
      if !done {
        return;
      }
      done := RunStage(Agent, gen, want, answers);
    }

    /** The four stages; the first one that fails ends the pass. */
    method ReconcileAll(gen: nat, want: Spec, answers: seq<Outcome>) returns (done: bool)
      requires |answers| == 10
      modifies this`objects
      ensures Finish(State(raw, generation, status, old(objects), Fetching(Settings, gen, want)), answers)
           == Finish(State(raw, generation, status, objects,
                           if done then PatchingReady(gen, want) else PatchingError(gen)), answers)
    {
      done := RunStage(Settings, gen, want, answers);
      if !done {
        return;
      }
      done := ReconcileWorkloads(gen, want, answers);
    }
  }

  // ---- What a pass achieves -------------------------------------------------------------------

  /** The rank of the first stage from t on that does not succeed, 4 if all do. */
  function FirstFailure(objects: Objects, t: Stage, answers: seq<Outcome>): nat
    requires |answers| == 10
    decreases 4 - Rank(t)
  {
    if !StageWorks(objects, t, answers) then Rank(t)
    else match t
         case Settings => FirstFailure(objects, Server, answers)
         case Server => FirstFailure(objects, Worker, answers)
         case Worker => FirstFailure(objects, Agent, answers)
         case Agent => 4
  }

  /** Which stages fail does not depend on what the earlier ones wrote. */
  lemma {:induction false} FailureIsIndependent(objects: Objects, want: Spec, done: Stage, t: Stage,
                                                answers: seq<Outcome>)
    requires |answers| == 10 && Present(objects, done)
    ensures FirstFailure(objects[KeyOf(done) := Reconciled(done, want, objects[KeyOf(done)])], t, answers)
            == FirstFailure(objects, t, answers)
    decreases 4 - Rank(t)
  {
    KeysDiffer(done, t);
    match t
    case Settings => FailureIsIndependent(objects, want, done, Server, answers);
    case Server => FailureIsIndependent(objects, want, done, Worker, answers);
    case Worker => FailureIsIndependent(objects, want, done, Agent, answers);
    case Agent =>
  }

  ghost predicate MatchedBelow(objects: Objects, want: Spec, rank: nat) {
    forall t: Stage :: Rank(t) < rank ==> Matched(objects, t, want)
  }

  lemma {:induction false} RestOfPass(s: State, answers: seq<Outcome>)
    requires |answers| == 10 && s.pc.Fetching? && PassInvariant(s)
    ensures var s' := Finish(s, answers); var failed := FirstFailure(s.objects, s.pc.t, answers);
            && MatchedBelow(s'.objects, s.pc.want, failed)
            && s'.pc == Idle && s'.raw == s.raw && s'.generation == s.generation
            && s'.status == if answers[9] == Rejected then s.status
                            else Some(Status(if failed == 4 then Ready else Error, s.pc.gen))
    decreases Remaining(s.pc)
  {
    var t, want := s.pc.t, s.pc.want;
    var d := StageDone(s, answers);
    StageIsTwoCalls(s, answers);
    if !StageWorks(s.objects, t, answers) {
      FailedStageKeeps(s, answers);
      assert Finish(d, answers) == Step(d, Call(answers[9]));
    } else if t == Agent {
      assert Finish(d, answers) == Step(d, Call(answers[9]));
    } else {
      FailureIsIndependent(s.objects, want, t, d.pc.t, answers);
      RestOfPass(d, answers);
    }
  }

  /** A stage that fails, even after its update took effect, unmatches no stage before it. */
  lemma FailedStageKeeps(s: State, answers: seq<Outcome>)
    requires |answers| == 10 && s.pc.Fetching? && PassInvariant(s)
    ensures MatchedBelow(StageDone(s, answers).objects, s.pc.want, Rank(s.pc.t))
  {
  }

  /** A pass brings every stage before its first failing one to match, whatever happens at that
      stage; it reports Ready exactly when no stage failed, if the patch goes through. */
  lemma PassBringsPrefix(s: State, answers: seq<Outcome>, want: Spec)
    requires |answers| == 10 && s.pc == Idle && answers[0] == Done && ParseSpec(s.raw) == Some(want)
    ensures var s' := Pass(s, answers); var failed := FirstFailure(s.objects, Settings, answers);
            && MatchedBelow(s'.objects, want, failed)
            && s'.status == if answers[9] == Rejected then s.status
                            else Some(Status(if failed == 4 then Ready else Error, s.generation))
  {
    var start := s.(pc := Fetching(Settings, s.generation, want));
    assert Step(s, Call(answers[0])) == start;
    RestOfPass(start, answers);
  }

  /** All calls of a pass succeed. */
  ghost predicate FaultFree(answers: seq<Outcome>) { |answers| == 10 && forall i :: 0 <= i < 10 ==> answers[i] == Done }

  ghost predicate AllPresent(objects: Objects) { forall t: Stage :: Present(objects, t) }

  lemma NothingFails(objects: Objects, answers: seq<Outcome>)
    requires FaultFree(answers) && AllPresent(objects)
    ensures FirstFailure(objects, Settings, answers) == 4
  {
  }

  lemma {:induction false} NothingLeftToDo(s: State, answers: seq<Outcome>)
    requires |answers| == 10 && s.pc.Fetching? && MatchedBelow(s.objects, s.pc.want, 4)
    ensures Finish(s, answers).objects == s.objects
    decreases Remaining(s.pc)
  {
    var t := s.pc.t;
    var d := StageDone(s, answers);
    StageIsTwoCalls(s, answers);
    MatchingIsFixed(t, s.pc.want, s.objects[KeyOf(t)]);
    assert d.objects == s.objects;
    if d.pc.Fetching? {
      NothingLeftToDo(d, answers);
    } else {
      assert Finish(d, answers) == Step(d, Call(answers[9]));
    }
  }

  /** A pass over a cluster that matches changes no object, whatever its calls answer. */
  lemma MatchingClusterIsFixed(s: State, answers: seq<Outcome>, want: Spec)
    requires |answers| == 10 && s.pc == Idle && ParseSpec(s.raw) == Some(want) && MatchedBelow(s.objects, want, 4)
    ensures Pass(s, answers).objects == s.objects
  {
    if answers[0] == Done {
      var start := s.(pc := Fetching(Settings, s.generation, want));
      NothingLeftToDo(start, answers);
    }
  }

  /** A pass that reports Ready for the resource's generation has brought every object to be as
      the custom resource says. */
  lemma ReadyPassReconciles(s: State, answers: seq<Outcome>)
    requires |answers| == 10 && s.pc == Idle && answers[0] == Done && answers[9] == Done
    requires Pass(s, answers).status == Some(Status(Ready, s.generation)) && ParseSpec(s.raw).Some?
    ensures s.raw.Raw? && AsSpecified(s.raw.spec, Pass(s, answers).objects)
  {
    var want := ParseSpec(s.raw).value;
    PassBringsPrefix(s, answers, want);
    MatchedIffAsSpecified(s.raw.spec, want, Pass(s, answers).objects);
  }

  /** What one fault-free pass reaches. */
  lemma FaultFreePass(s: State, answers: seq<Outcome>, want: Spec)
    requires s.pc == Idle && ParseSpec(s.raw) == Some(want) && AllPresent(s.objects) && FaultFree(answers)
    ensures var s' := Pass(s, answers);
            && MatchedBelow(s'.objects, want, 4) && AllPresent(s'.objects)
            && s'.pc == Idle && s'.raw == s.raw && s'.generation == s.generation
            && s'.status == Some(Status(Ready, s.generation))
  {
    var s' := Pass(s, answers);
    NothingFails(s.objects, answers);
    RestOfPass(s.(pc := Fetching(Settings, s.generation, want)), answers);
    forall t: Stage ensures Present(s'.objects, t) {
      assert Matched(s'.objects, t, want);
    }
  }

  /** One fault-free pass from any cluster that contains the objects makes all of them as the
      custom resource says and reports Ready for the current generation; a second one changes
      nothing at all. */
  lemma OnePassConverges(s: State, answers: seq<Outcome>)
    requires s.pc == Idle && s.raw.Raw? && AllPresent(s.objects) && FaultFree(answers)
    requires -0x8000_0000 <= s.raw.spec.server.replicas <= 0x7fff_ffff
    requires -0x8000_0000 <= s.raw.spec.worker.replicas <= 0x7fff_ffff
    ensures var s' := Pass(s, answers);
            && AsSpecified(s.raw.spec, s'.objects)
            && s'.raw == s.raw && s'.status == Some(Status(Ready, s.generation))
            && s'.pc == Idle && Pass(s', answers) == s'
  {
    var want := ParseSpec(s.raw).value;
    var s' := Pass(s, answers);
    FaultFreePass(s, answers, want);
    FaultFreePass(s', answers, want);
    MatchingClusterIsFixed(s', answers, want);
    MatchedIffAsSpecified(s.raw.spec, want, s'.objects);
  }

  /** However a pass goes, it unmatches no object that matched the current spec. */
  lemma PassKeepsMatches(s: State, answers: seq<Outcome>, want: Spec, t: Stage)
    requires |answers| == 10 && s.pc == Idle && ParseSpec(s.raw) == Some(want) && Matched(s.objects, t, want)
    ensures Matched(Pass(s, answers).objects, t, want)
  {
    PassIsRun(s, answers);
    var events :| SpecUnchanged(events) && After(s, events) == Pass(s, answers);
    MatchedStaysMatched(s, events, want, t);
  }
}
