// The operator: a custom resource, the objects it manages, and one API call at a time.

module Operator {
  import opened AlertModel
  import Text

  // ---- The custom resource --------------------------------------------------------------------

  datatype Workload = Workload(image: string, replicas: int)

  datatype Spec = Spec(ingestMode: string, server: Workload, worker: Workload, agentImage: string,
                       redisAddr: string, kafkaBrokers: string, victoriaURL: string, otelEndpoint: string)

  /** The spec field as stored: absent, of the wrong shape, or with all fields readable. */
  datatype RawSpec = Missing | Malformed | Raw(spec: Spec)

  predicate IsInt32(n: int) { -0x8000_0000 <= n <= 0x7fff_ffff }

  /** Replica counts must fit 32 bits; then they are raised to their minimum. */
  function ParseSpec(raw: RawSpec): Option<Spec> {
    match raw
    case Raw(s) =>
      if !IsInt32(s.server.replicas) || !IsInt32(s.worker.replicas) then None
      else Some(s.(server := s.server.(replicas := if s.server.replicas < 1 then 1 else s.server.replicas),
                   worker := s.worker.(replicas := if s.worker.replicas < 0 then 0 else s.worker.replicas)))
    case _ => None
  }

  /** Which specs parse, and what the normalised spec is. */
  lemma ParsedIff(raw: RawSpec, want: Spec)
    ensures ParseSpec(raw) == Some(want) <==>
            && raw.Raw?
            && -0x8000_0000 <= raw.spec.server.replicas <= 0x7fff_ffff
            && -0x8000_0000 <= raw.spec.worker.replicas <= 0x7fff_ffff
            && want.server.replicas == (if raw.spec.server.replicas > 1 then raw.spec.server.replicas else 1)
            && want.worker.replicas == (if raw.spec.worker.replicas > 0 then raw.spec.worker.replicas else 0)
            && want.server.image == raw.spec.server.image && want.worker.image == raw.spec.worker.image
            && want.agentImage == raw.spec.agentImage && want.ingestMode == raw.spec.ingestMode
            && want.redisAddr == raw.spec.redisAddr && want.kafkaBrokers == raw.spec.kafkaBrokers
            && want.victoriaURL == raw.spec.victoriaURL && want.otelEndpoint == raw.spec.otelEndpoint
  {
    if raw.Raw? {
      var s := raw.spec;
      assert want == Spec(want.ingestMode, Workload(want.server.image, want.server.replicas),
                          Workload(want.worker.image, want.worker.replicas), want.agentImage,
                          want.redisAddr, want.kafkaBrokers, want.victoriaURL, want.otelEndpoint);
    }
  }

  datatype Phase = Ready | Error

  datatype Status = Status(phase: Phase, observedGeneration: nat)

  // ---- The managed objects --------------------------------------------------------------------

  datatype Container = Container(name: string, image: string)

  /** A ConfigMap may come without any data. */
  datatype Object =
    | ConfigMap(data: Option<map<string, string>>)
    | Deployment(replicas: Option<int>, containers: seq<Container>)
    | DaemonSet(containers: seq<Container>)

  datatype Kind = ConfigMaps | Deployments | DaemonSets

  datatype Key = Key(kind: Kind, name: string)

  /** The four stages of a pass, in order. */
  datatype Stage = Settings | Server | Worker | Agent

  const STAGES: seq<Stage> := [Settings, Server, Worker, Agent]

  function Rank(t: Stage): nat {
    match t case Settings => 0 case Server => 1 case Worker => 2 case Agent => 3
  }

  function KeyOf(t: Stage): Key {
    match t
    case Settings => Key(ConfigMaps, "cloudops-config")
    case Server => Key(Deployments, "cloudops-server")
    case Worker => Key(Deployments, "cloudops-worker")
    case Agent => Key(DaemonSets, "cloudops-agent")
  }

  /** The container whose image a stage sets. */
  function ContainerOf(t: Stage): string {
    match t case Settings => "" case Server => "server" case Worker => "worker" case Agent => "agent"
  }

  function ImageOf(t: Stage, want: Spec): string {
    match t
    case Settings => ""
    case Server => want.server.image
    case Worker => want.worker.image
    case Agent => want.agentImage
  }

  function ReplicasOf(t: Stage, want: Spec): int {
    match t case Server => want.server.replicas case Worker => want.worker.replicas case _ => 0
  }

  predicate HasKind(t: Stage, o: Object) {
    match t
    case Settings => o.ConfigMap?
    case Agent => o.DaemonSet?
    case _ => o.Deployment?
  }

  /** An empty image leaves every container alone. */
  function WithImage(cs: seq<Container>, name: string, image: string): (r: seq<Container>)
    ensures |r| == |cs|
    ensures forall i :: 0 <= i < |cs| ==>
              r[i] == if image != "" && cs[i].name == name then Container(name, image) else cs[i]
  {
    if image == "" then cs
    else seq(|cs|, i requires 0 <= i < |cs| => if cs[i].name == name then cs[i].(image := image) else cs[i])
  }

  function WithData(data: map<string, string>, want: Spec): map<string, string> {
    var d := data["INGEST_MODE" := want.ingestMode]["KAFKA_BROKERS" := want.kafkaBrokers]
                 ["REDIS_ADDR" := want.redisAddr]["VICTORIA_METRICS_URL" := want.victoriaURL];
    if Text.Blank(want.otelEndpoint) then d else d["OTEL_EXPORTER_OTLP_ENDPOINT" := want.otelEndpoint]
  }

  /** What the operator writes back for an object it has read. */
  function Reconciled(t: Stage, want: Spec, o: Object): Object {
    match o
    case ConfigMap(data) => ConfigMap(Some(WithData(if data.Some? then data.value else map[], want)))
    case Deployment(_, cs) => Deployment(Some(ReplicasOf(t, want)), WithImage(cs, ContainerOf(t), ImageOf(t, want)))
    case DaemonSet(cs) => DaemonSet(WithImage(cs, ContainerOf(t), ImageOf(t, want)))
  }

  // ---- What it means to match a spec ----------------------------------------------------------

  predicate Entry(data: map<string, string>, key: string, value: string) { key in data && data[key] == value }

  /** An empty image constrains no container. */
  predicate ImageMatches(cs: seq<Container>, name: string, image: string) {
    image != "" ==> forall i :: 0 <= i < |cs| && cs[i].name == name ==> cs[i].image == image
  }

  /** The object is as the normalised spec wants it; a blank endpoint constrains nothing. */
  predicate Matches(t: Stage, want: Spec, o: Object) {
    HasKind(t, o) &&
    match o
    case ConfigMap(data) =>
      && data.Some?
      && Entry(data.value, "INGEST_MODE", want.ingestMode)
      && Entry(data.value, "KAFKA_BROKERS", want.kafkaBrokers)
      && Entry(data.value, "REDIS_ADDR", want.redisAddr)
      && Entry(data.value, "VICTORIA_METRICS_URL", want.victoriaURL)
      && (!Text.Blank(want.otelEndpoint) ==> Entry(data.value, "OTEL_EXPORTER_OTLP_ENDPOINT", want.otelEndpoint))
    case Deployment(replicas, cs) =>
      replicas == Some(ReplicasOf(t, want)) && ImageMatches(cs, ContainerOf(t), ImageOf(t, want))
    case DaemonSet(cs) => ImageMatches(cs, ContainerOf(t), ImageOf(t, want))
  }

  type Objects = map<Key, Object>

  /** Every container of that name runs the image; an empty image demands nothing. */
  predicate Runs(cs: seq<Container>, name: string, image: string) {
    forall c :: c in cs && c.name == name && image != "" ==> c.image == image
  }

  /** The cluster is as the spec in the custom resource says, object by object. */
  ghost predicate AsSpecified(s: Spec, objects: Objects) {
    && var settings, server := Key(ConfigMaps, "cloudops-config"), Key(Deployments, "cloudops-server");
    && var worker, agent := Key(Deployments, "cloudops-worker"), Key(DaemonSets, "cloudops-agent");
    && settings in objects && objects[settings].ConfigMap? && objects[settings].data.Some?
    && var data := objects[settings].data.value;
    && "INGEST_MODE" in data && data["INGEST_MODE"] == s.ingestMode
    && "KAFKA_BROKERS" in data && data["KAFKA_BROKERS"] == s.kafkaBrokers
    && "REDIS_ADDR" in data && data["REDIS_ADDR"] == s.redisAddr
    && "VICTORIA_METRICS_URL" in data && data["VICTORIA_METRICS_URL"] == s.victoriaURL
    && ((exists i :: 0 <= i < |s.otelEndpoint| && s.otelEndpoint[i] as int !in Text.WHITE_SPACE) ==>
          "OTEL_EXPORTER_OTLP_ENDPOINT" in data && data["OTEL_EXPORTER_OTLP_ENDPOINT"] == s.otelEndpoint)
    && server in objects && objects[server].Deployment?
    && objects[server].replicas == Some(if s.server.replicas > 1 then s.server.replicas else 1)
    && Runs(objects[server].containers, "server", s.server.image)
    && worker in objects && objects[worker].Deployment?
    && objects[worker].replicas == Some(if s.worker.replicas > 0 then s.worker.replicas else 0)
    && Runs(objects[worker].containers, "worker", s.worker.image)
    && agent in objects && objects[agent].DaemonSet?
    && Runs(objects[agent].containers, "agent", s.agentImage)
  }

  predicate Matched(objects: Objects, t: Stage, want: Spec) {
    KeyOf(t) in objects && Matches(t, want, objects[KeyOf(t)])
  }

  predicate AllMatched(objects: Objects, want: Spec) { forall t :: t in STAGES ==> Matched(objects, t, want) }

  /** The stage's object exists; an object under a key has the kind of the key. */
  predicate Present(objects: Objects, t: Stage) {
    KeyOf(t) in objects && HasKind(t, objects[KeyOf(t)])
  }

  /** Matching the normalised spec at every stage is being as the custom resource says. */
  lemma MatchedIffAsSpecified(s: Spec, want: Spec, objects: Objects)
    requires ParseSpec(Raw(s)) == Some(want)
    ensures (forall t: Stage :: Matched(objects, t, want)) <==> AsSpecified(s, objects)
  {
    ParsedIff(Raw(s), want);
    Text.NotBlankIff(s.otelEndpoint);
    if AsSpecified(s, objects) {
      forall t: Stage ensures Matched(objects, t, want) {}
    }
    if forall t: Stage :: Matched(objects, t, want) {
      assert Matched(objects, Settings, want) && Matched(objects, Server, want);
      assert Matched(objects, Worker, want) && Matched(objects, Agent, want);
    }
  }

  lemma ReconciledMatches(t: Stage, want: Spec, o: Object)
    requires HasKind(t, o)
    ensures Matches(t, want, Reconciled(t, want, o))
  {
  }

  lemma MatchingIsFixed(t: Stage, want: Spec, o: Object)
    requires Matches(t, want, o)
    ensures Reconciled(t, want, o) == o
  {
    match o
    case ConfigMap(data) => assert WithData(data.value, want) == data.value;
    case Deployment(_, cs) => assert WithImage(cs, ContainerOf(t), ImageOf(t, want)) == cs;
    case DaemonSet(cs) => assert WithImage(cs, ContainerOf(t), ImageOf(t, want)) == cs;
  }

  // ---- One API call at a time -----------------------------------------------------------------

  /** An answer, an error without effect, or an error although the call took effect. */
  datatype Outcome = Done | Rejected | Lost

  /** The operator between two calls. A pass keeps the generation and the spec it has read. */
  datatype Pc =
    | Idle
    | Fetching(t: Stage, gen: nat, want: Spec)
    | Storing(t: Stage, gen: nat, want: Spec, desired: Object)
    | PatchingReady(gen: nat, want: Spec)
    | PatchingError(gen: nat)

  datatype State = State(raw: RawSpec, generation: nat, status: Option<Status>, objects: Objects, pc: Pc)

  /** The user edits the spec, the operator's next call comes back, or the operator restarts and
      forgets the pass it was in. */
  datatype Event = Edit(raw: RawSpec) | Call(outcome: Outcome) | Restart

  function AfterStage(t: Stage, gen: nat, want: Spec): Pc {
    match t
    case Settings => Fetching(Server, gen, want)
    case Server => Fetching(Worker, gen, want)
    case Worker => Fetching(Agent, gen, want)
    case Agent => PatchingReady(gen, want)
  }

  function Patched(s: State, status: Status, outcome: Outcome): State {
    s.(pc := Idle, status := if outcome == Rejected then s.status else Some(status))
  }

  function Step(s: State, e: Event): State {
    match e
    case Edit(raw) => if raw == s.raw then s else s.(raw := raw, generation := s.generation + 1)
    case Restart => s.(pc := Idle)
    case Call(outcome) =>
      match s.pc
      case Idle =>
        if outcome != Done then s
        else (match ParseSpec(s.raw)
              case None => s.(pc := PatchingError(s.generation))
              case Some(want) => s.(pc := Fetching(Settings, s.generation, want)))
      case Fetching(t, gen, want) =>
        if outcome != Done || !Present(s.objects, t) then s.(pc := PatchingError(gen))
        else s.(pc := Storing(t, gen, want, Reconciled(t, want, s.objects[KeyOf(t)])))
      case Storing(t, gen, want, desired) =>
        if outcome == Rejected then s.(pc := PatchingError(gen))
        else s.(objects := s.objects[KeyOf(t) := desired],
                pc := if outcome == Done then AfterStage(t, gen, want) else PatchingError(gen))
      case PatchingReady(gen, _) => Patched(s, Status(Ready, gen), outcome)
      case PatchingError(gen) => Patched(s, Status(Error, gen), outcome)
  }

  function After(s: State, events: seq<Event>): State {
    if events == [] then s else Step(After(s, events[..|events|-1]), events[|events|-1])
  }

  /** The operator starts on any cluster and any spec, before any status was written. */
  predicate Initial(s: State) { s.pc == Idle && s.status == None }
}
