// What holds over whole runs of the operator, with faults and with edits at any time.

module OperatorRuns {
  import opened AlertModel
  import opened Operator

  function Captured(pc: Pc): Option<nat> {
    match pc
    case Idle => None
    case Fetching(_, gen, _) => Some(gen)
    case Storing(_, gen, _, _) => Some(gen)
    case PatchingReady(gen, _) => Some(gen)
    case PatchingError(gen) => Some(gen)
  }

  /** The spec a pass still works towards. */
  function Wanted(pc: Pc): Option<Spec> {
    match pc
    case Fetching(_, _, want) => Some(want)
    case Storing(_, _, want, _) => Some(want)
    case PatchingReady(_, want) => Some(want)
    case _ => None
  }

  /** How many stages the pass has behind it. */
  function StagesBehind(pc: Pc): nat {
    match pc
    case Fetching(t, _, _) => Rank(t)
    case Storing(t, _, _, _) => Rank(t)
    case PatchingReady(_, _) => 4
    case _ => 0
  }

  /** The pass works for its generation's spec, and has brought the stages behind it to match. */
  ghost predicate PassInvariant(s: State) {
    && (Captured(s.pc).Some? ==> Captured(s.pc).value <= s.generation)
    && (Wanted(s.pc).Some? && Captured(s.pc) == Some(s.generation) ==> ParseSpec(s.raw) == Wanted(s.pc))
    && (Wanted(s.pc).Some? ==>
          forall t: Stage :: Rank(t) < StagesBehind(s.pc) ==> Matched(s.objects, t, Wanted(s.pc).value))
    && (s.pc.Storing? ==>
          && Present(s.objects, s.pc.t)
          && s.pc.desired == Reconciled(s.pc.t, s.pc.want, s.objects[KeyOf(s.pc.t)]))
  }

  /** No status is newer than the pass under way or the resource. */
  ghost predicate StatusInvariant(s: State) {
    s.status.Some? ==>
      && s.status.value.observedGeneration <= s.generation
      && (Captured(s.pc).Some? ==> s.status.value.observedGeneration <= Captured(s.pc).value)
  }

  predicate SaysReady(s: State) { s.status == Some(Status(Ready, s.generation)) }

  /** Ready for the current generation means that the spec parses and that the ConfigMap, both
      Deployments and the DaemonSet match it. */
  ghost predicate ReadyIsReconciled(s: State) {
    SaysReady(s) ==> ParseSpec(s.raw).Some? && AllMatched(s.objects, ParseSpec(s.raw).value)
  }

  lemma KeysDiffer(t: Stage, u: Stage)
    ensures KeyOf(t) == KeyOf(u) <==> t == u
  {
  }

  /** Storing one stage's object for a spec unmatches nothing of that spec. */
  lemma StoreKeepsMatches(s: State, want: Spec, u: Stage)
    requires s.pc.Storing? && PassInvariant(s) && s.pc.want == want && Matched(s.objects, u, want)
    ensures Matched(s.objects[KeyOf(s.pc.t) := s.pc.desired], u, want)
  {
    KeysDiffer(s.pc.t, u);
    ReconciledMatches(s.pc.t, want, s.objects[KeyOf(s.pc.t)]);
  }

  lemma PassStep(s: State, e: Event)
    requires PassInvariant(s)
    ensures PassInvariant(Step(s, e))
  {
    var s' := Step(s, e);
    if e.Call? && s.pc.Storing? {
      ReconciledMatches(s.pc.t, s.pc.want, s.objects[KeyOf(s.pc.t)]);
      forall u: Stage | Wanted(s'.pc).Some? && Rank(u) < StagesBehind(s'.pc)
        ensures Matched(s'.objects, u, s.pc.want)
      {
        if u != s.pc.t {
          StoreKeepsMatches(s, s.pc.want, u);
        }
      }
    }
  }

  lemma StatusStep(s: State, e: Event)
    requires PassInvariant(s) && StatusInvariant(s)
    ensures StatusInvariant(Step(s, e))
  {
  }

  lemma ReadyStep(s: State, e: Event)
    requires PassInvariant(s) && StatusInvariant(s) && ReadyIsReconciled(s)
    ensures ReadyIsReconciled(Step(s, e))
  {
    var s' := Step(s, e);
    if SaysReady(s') && e.Call? && s.pc.Storing? && s'.objects != s.objects {
      forall u | u in STAGES ensures Matched(s'.objects, u, s.pc.want) {
        StoreKeepsMatches(s, s.pc.want, u);
      }
    }
  }

  lemma {:induction false} InvariantsHold(s: State, events: seq<Event>)
    requires Initial(s)
    ensures var s' := After(s, events); PassInvariant(s') && StatusInvariant(s') && ReadyIsReconciled(s')
  {
    if events != [] {
      var front, e := events[..|events|-1], events[|events|-1];
      InvariantsHold(s, front);
      PassStep(After(s, front), e);
      StatusStep(After(s, front), e);
      ReadyStep(After(s, front), e);
    }
  }

  /** Ready means reconciled: whatever calls fail or lose their answer, whatever status patches
      fail, and whenever the spec is edited, phase Ready with the current generation implies that
      every managed object is as the current custom resource says. */
  lemma ReadyMeansReconciled(s: State, events: seq<Event>)
    requires Initial(s) && After(s, events).status == Some(Status(Ready, After(s, events).generation))
    ensures After(s, events).raw.Raw? && ParseSpec(After(s, events).raw).Some?
    ensures AsSpecified(After(s, events).raw.spec, After(s, events).objects)
  {
    var s' := After(s, events);
    InvariantsHold(s, events);
    forall t: Stage ensures Matched(s'.objects, t, ParseSpec(s'.raw).value) {
      assert STAGES[Rank(t)] == t;
    }
    MatchedIffAsSpecified(s'.raw.spec, ParseSpec(s'.raw).value, s'.objects);
  }

  // ---- Progress is never undone ---------------------------------------------------------------

  /** Between passes, or in a pass that works for the current spec. */
  ghost predicate Current(s: State) { Wanted(s.pc).Some? ==> ParseSpec(s.raw) == Wanted(s.pc) }

  /** The spec is not edited. */
  ghost predicate SpecUnchanged(events: seq<Event>) { forall e: Event :: e in events ==> !e.Edit? }

  lemma MatchedStep(s: State, e: Event, want: Spec, t: Stage)
    requires PassInvariant(s) && Current(s) && ParseSpec(s.raw) == Some(want) && Matched(s.objects, t, want) && !e.Edit?
    ensures var s' := Step(s, e); Current(s') && s'.raw == s.raw && Matched(s'.objects, t, want)
  {
    if e.Call? && s.pc.Storing? {
      StoreKeepsMatches(s, want, t);
    }
  }

  /** For a fixed spec, through any calls, faults and restarts, an object that matches keeps matching. */
  lemma {:induction false} MatchedStaysMatched(s: State, events: seq<Event>, want: Spec, t: Stage)
    requires PassInvariant(s) && Current(s) && ParseSpec(s.raw) == Some(want) && Matched(s.objects, t, want)
    requires SpecUnchanged(events)
    ensures var s' := After(s, events);
            PassInvariant(s') && Current(s') && s'.raw == s.raw && Matched(s'.objects, t, want)
  {
    if events != [] {
      var front, e := events[..|events|-1], events[|events|-1];
      assert e in events;
      MatchedStaysMatched(s, front, want, t);
      PassStep(After(s, front), e);
      MatchedStep(After(s, front), e, want, t);
    }
  }

  // ---- What the operator never touches --------------------------------------------------------

  function Lookup(data: Option<map<string, string>>, key: string): Option<string> {
    if data.Some? && key in data.value then Some(data.value[key]) else None
  }

  /** Same containers in the same order; only those called name may have another image. */
  predicate SameContainers(a: seq<Container>, b: seq<Container>, name: string) {
    && |a| == |b|
    && forall i :: 0 <= i < |a| ==> a[i].name == b[i].name && (a[i].name != name ==> a[i].image == b[i].image)
  }

  ghost predicate SameElsewhere(name: string, a: Object, b: Object) {
    match (a, b)
    case (ConfigMap(x), ConfigMap(y)) =>
      var managed := {"INGEST_MODE", "KAFKA_BROKERS", "REDIS_ADDR", "VICTORIA_METRICS_URL",
                      "OTEL_EXPORTER_OTLP_ENDPOINT"};
      forall key :: key !in managed ==> Lookup(x, key) == Lookup(y, key)
    case (Deployment(_, x), Deployment(_, y)) => SameContainers(x, y, name)
    case (DaemonSet(x), DaemonSet(y)) => SameContainers(x, y, name)
    case _ => false
  }

  /** Other objects, other containers and other ConfigMap keys are as they were. */
  ghost predicate Untouched(a: Objects, b: Objects) {
    && var settings, server := Key(ConfigMaps, "cloudops-config"), Key(Deployments, "cloudops-server");
    && var worker, agent := Key(Deployments, "cloudops-worker"), Key(DaemonSets, "cloudops-agent");
    && a.Keys == b.Keys
    && (forall k :: k in a && k !in {settings, server, worker, agent} ==> a[k] == b[k])
    && (settings in a ==> SameElsewhere("", a[settings], b[settings]))
    && (server in a ==> SameElsewhere("server", a[server], b[server]))
    && (worker in a ==> SameElsewhere("worker", a[worker], b[worker]))
    && (agent in a ==> SameElsewhere("agent", a[agent], b[agent]))
  }

  lemma StoreTouchesLittle(t: Stage, want: Spec, o: Object)
    ensures SameElsewhere(ContainerOf(t), o, Reconciled(t, want, o))
  {
  }

  lemma SameElsewhereTransitive(name: string, a: Object, b: Object, c: Object)
    requires SameElsewhere(name, a, b) && SameElsewhere(name, b, c)
    ensures SameElsewhere(name, a, c)
  {
  }

  lemma UntouchedStep(start: Objects, s: State, e: Event)
    requires Untouched(start, s.objects) && PassInvariant(s)
    ensures Untouched(start, Step(s, e).objects)
  {
    if e.Call? && s.pc.Storing? && Step(s, e).objects != s.objects {
      var t, k := s.pc.t, KeyOf(s.pc.t);
      StoreTouchesLittle(t, s.pc.want, s.objects[k]);
      if k in start {
        SameElsewhereTransitive(ContainerOf(t), start[k], s.objects[k], s.pc.desired);
      }
    }
  }

  lemma SameAsItself(name: string, a: Object)
    ensures SameElsewhere(name, a, a)
  {
  }

  /** Through any run, with any edits and faults, objects under other keys, containers with other
      names and other ConfigMap keys never change. */
  lemma {:induction false} OthersNeverChange(s: State, events: seq<Event>)
    requires Initial(s)
    ensures Untouched(s.objects, After(s, events).objects)
  {
    if events == [] {
      forall name, k | k in s.objects ensures SameElsewhere(name, s.objects[k], s.objects[k]) {
        SameAsItself(name, s.objects[k]);
      }
    } else {
      var front := events[..|events|-1];
      OthersNeverChange(s, front);
      InvariantsHold(s, front);
      UntouchedStep(s.objects, After(s, front), events[|events|-1]);
    }
  }
}
