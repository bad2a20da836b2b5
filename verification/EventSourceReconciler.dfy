/** The event source reconciler (pkg/reconciler/eventsource/resource.go; pkg/reconciler/common/util.go,
    SetObjectMeta): what its runs do to the Deployments and Services of a namespace when API calls may
    fail and the event source may be edited between runs. */
module EventSourceReconciler {
  import opened DeploymentVolumes
  import opened Wrappers

  type Labels = map<string, string>

  const HASH := "resource-spec-hash"

  // ----- cluster objects -----

  /** Everything in a pod template but its volumes and mounts is one opaque text. */
  datatype DeploymentSpec = DeploymentSpec(pod: string, volumes: seq<Volume>, mounts: seq<Mount>)

  datatype Deployment = Deployment(owner: string, labels: Labels, annotations: Option<Labels>, spec: DeploymentSpec)

  datatype Service = Service(owner: string, labels: Labels, annotations: Option<Labels>, spec: string)

  datatype ServiceConfig = ServiceConfig(ports: seq<string>, clusterIP: string, labels: Option<Labels>, annotations: Option<Labels>)

  /** An event source. The views are its specification as reflection sees it when it looks for selectors
      of secrets and of config maps. */
  datatype EventSource = EventSource(uid: string, name: string, labels: Labels, service: Option<ServiceConfig>,
                                     secretView: Value, configMapView: Value, rest: string)

  datatype Tls = Tls(ca: Option<Selector>, cert: Option<Selector>, key: Option<Selector>)

  datatype BusConfig = Nats(access: Option<Selector>) | JetStream(access: Option<Selector>, tls: Option<Tls>)
                     | Kafka(secretView: Value) | Unsupported

  datatype BusLookup = NotFound | LookupFailed | NotReady | Ready(config: BusConfig, rest: string)

  /** What is computed outside: names made DNS labels, the opaque texts of the specifications, and the
      hashes of objects as JSON. */
  datatype Env = Env(dns: Label, pod: (EventSource, BusLookup) -> string, ports: EventSource -> string,
                     hashDeployment: Deployment -> string, hashService: Service -> string)

  /** The namespace. `writes` and `faults` count the write calls made to it and the calls that failed. */
  datatype World = World(deployments: map<nat, Deployment>, services: map<string, Service>, writes: nat, faults: nat)

  // ----- what is expected -----

  /** The labels by which the reconciler finds its objects. */
  function Selection(es: EventSource): Labels {
    map["controller" := "eventsource-controller", "eventsource-name" := es.name, "owner-name" := es.name]
  }

  predicate Matches(labels: Labels, selection: Labels) {
    forall k :: k in selection ==> k in labels && labels[k] == selection[k]
  }

  function MergeLabels(base: Labels, given: Labels): Labels { base + given }

  function InputsOf(es: EventSource, config: BusConfig): Option<Inputs> {
    match config
    case Nats(access) => Some(Inputs(access, [None, None, None], [es.secretView], [es.configMapView]))
    case JetStream(access, tls) =>
      var certs := if tls.Some? then [tls.value.ca, tls.value.cert, tls.value.key] else [None, None, None];
      Some(Inputs(access, certs, [es.secretView], [es.configMapView]))
    case Kafka(busView) => Some(Inputs(None, [None, None, None], [es.secretView, busView], [es.configMapView]))
    case Unsupported => None
  }

  /** SetObjectMeta: the hash of the object becomes one of its annotations. */
  function SealDeployment(env: Env, d: Deployment): Deployment {
    var annotations := if d.annotations.Some? then d.annotations.value else map[];
    d.(annotations := Some(annotations[HASH := env.hashDeployment(d)]))
  }

  function SealService(env: Env, s: Service): Service {
    var annotations := if s.annotations.Some? then s.annotations.value else map[];
    s.(annotations := Some(annotations[HASH := env.hashService(s)]))
  }

  predicate Usable(bus: BusLookup) { bus.Ready? && !bus.config.Unsupported? }

  /** The Deployment around given volumes and mounts. */
  function Assembled(env: Env, es: EventSource, bus: BusLookup, vols: seq<Volume>, mounts: seq<Mount>): Deployment {
    SealDeployment(env, Deployment(es.uid, MergeLabels(es.labels, Selection(es)), None,
                                   DeploymentSpec(env.pod(es, bus), vols, mounts)))
  }

  /** `d` is a Deployment that one build may come to. */
  ghost predicate IsExpected(env: Env, es: EventSource, bus: BusLookup, d: Deployment) {
    && Usable(bus) && IsBuild(InputsOf(es, bus.config).value, env.dns, d.spec.volumes, d.spec.mounts)
    && d == Assembled(env, es, bus, d.spec.volumes, d.spec.mounts)
  }

  function ServiceName(es: EventSource): string { es.name + "-eventsource-svc" }

  /** The Service asked for, if any. */
  function ExpectedService(env: Env, es: EventSource): Option<Service> {
    if es.service.None? || es.service.value.ports == [] then None
    else
      var config := es.service.value;
      var labels := MergeLabels(es.labels, Selection(es));
      Some(SealService(env, Service(es.uid,
        if config.labels.Some? then MergeLabels(config.labels.value, labels) else labels,
        Some(if config.annotations.Some? then config.annotations.value else map[]),
        env.ports(es))))
  }

  /** A Service is asked for exactly when ports are configured. A label the reconciler finds its objects by wins
      over the event source's, and that over the Service's own. */
  lemma ServiceContent(env: Env, es: EventSource, k: string)
    ensures ExpectedService(env, es).Some? <==> es.service.Some? && |es.service.value.ports| > 0
    ensures ExpectedService(env, es).Some? ==>
      var s, config := ExpectedService(env, es).value, es.service.value;
      && s.spec == env.ports(es)
      && LabelAt(s.labels, k) == FirstLabel([Selection(es), es.labels, config.labels.GetOr(map[])], k)
      && (k != HASH ==> LabelAt(s.annotations.GetOr(map[]), k) == LabelAt(config.annotations.GetOr(map[]), k))
  {
    hide Selection;
    if ExpectedService(env, es).Some? {
      var config := es.service.value;
      FirstOfThree(Selection(es), es.labels, config.labels.GetOr(map[]), k);
    }
  }

  /** The Deployment's labels: those it is found by before the event source's. */
  lemma DeploymentLabels(env: Env, es: EventSource, bus: BusLookup, d: Deployment, k: string)
    requires IsExpected(env, es, bus, d)
    ensures LabelAt(d.labels, k) == FirstLabel([Selection(es), es.labels], k)
    ensures d.spec.pod == env.pod(es, bus)
  {
    hide Selection, IsBuild, InputsOf;
    FirstOfThree(Selection(es), es.labels, map[], k);
    assert [Selection(es), es.labels, map[]][..2] == [Selection(es), es.labels];
  }

  function LabelAt(labels: Labels, k: string): Option<string> { if k in labels then Some(labels[k]) else None }

  /** The first value given for a label. */
  function FirstLabel(given: seq<Labels>, k: string): Option<string> {
    if given == [] then None else if k in given[0] then Some(given[0][k]) else FirstLabel(given[1..], k)
  }

  lemma FirstOfThree(a: Labels, b: Labels, c: Labels, k: string)
    ensures FirstLabel([a, b, c], k) == if k in a then Some(a[k]) else if k in b then Some(b[k]) else LabelAt(c, k)
    ensures FirstLabel([a, b], k) == if k in a then Some(a[k]) else LabelAt(b, k)
  {
    assert [a, b, c][1..] == [b, c] && [b, c][1..] == [c] && [c][1..] == [];
    assert [a, b][1..] == [b] && [b][1..] == [];
    assert FirstLabel([], k) == None;
    assert FirstLabel([c], k) == LabelAt(c, k) && FirstLabel([b], k) == LabelAt(b, k);
  }

  // ----- one run, as a relation -----

  function HashOf(annotations: Option<Labels>): string {
    if annotations.Some? && HASH in annotations.value then annotations.value[HASH] else ""
  }

  predicate Outdated(existing: Option<Labels>, expected: Option<Labels>) {
    existing.Some? && HashOf(existing) != HashOf(expected)
  }

  predicate OwnsDeployment(w: World, es: EventSource, id: nat) {
    id in w.deployments && w.deployments[id].owner == es.uid && Matches(w.deployments[id].labels, Selection(es))
  }

  predicate OwnsService(w: World, es: EventSource, name: string) {
    name in w.services && w.services[name].owner == es.uid && Matches(w.services[name].labels, Selection(es))
  }

  function Updated(existing: Deployment, d: Deployment): Deployment
    requires existing.annotations.Some?
  {
    existing.(spec := d.spec, labels := d.labels,
              annotations := Some(existing.annotations.value[HASH := HashOf(d.annotations)]))
  }

  /** What one call did to the counts: whether it was a write and whether it failed. */
  function Called(w: World, write: bool, failed: bool): World {
    w.(writes := w.writes + if write then 1 else 0, faults := w.faults + if failed then 1 else 0)
  }

  /** The Deployment has to be written. */
  ghost predicate DeploymentDue(es: EventSource, d: Deployment, w: World) {
    (forall id :: !OwnsDeployment(w, es, id))
    || exists id :: OwnsDeployment(w, es, id) && Outdated(w.deployments[id].annotations, d.annotations)
  }

  ghost predicate ServiceDue(es: EventSource, expected: Option<Service>, w: World) {
    if expected.None? then exists name :: OwnsService(w, es, name)
    else
      (forall name :: !OwnsService(w, es, name))
      || exists name :: OwnsService(w, es, name) && Outdated(w.services[name].annotations, expected.value.annotations)
  }

  /** From `w` to `v` the Deployment is brought up to date with `d`, or one call fails and nothing changes. */
  ghost predicate DeploymentStage(es: EventSource, d: Deployment, w: World, v: World, ok: bool) {
    if !ok then v == Called(w, false, true) || (DeploymentDue(es, d, w) && v == Called(w, true, true))
    else if exists id :: OwnsDeployment(w, es, id) then
      exists id :: OwnsDeployment(w, es, id) && DeploymentUpToDate(d, w, v, id)
    else exists id: nat :: id !in w.deployments && v == Called(w, true, false).(deployments := w.deployments[id := d])
  }

  ghost predicate DeploymentUpToDate(d: Deployment, w: World, v: World, id: nat)
    requires id in w.deployments
  {
    if Outdated(w.deployments[id].annotations, d.annotations)
    then v == Called(w, true, false).(deployments := w.deployments[id := Updated(w.deployments[id], d)])
    else v == w
  }

  /** `v` is `w` with the Service `s` added under a name nobody has. */
  ghost predicate ServiceAdded(es: EventSource, s: Service, w: World, v: World) {
    ServiceName(es) !in w.services && v == Called(w, true, false).(services := w.services[ServiceName(es) := s])
  }

  function Without(w: World, name: string): World {
    Called(w, true, false).(services := w.services - {name})
  }

  /** From `w` to `v` the Service is brought up to date, or a call fails: then nothing changes except that
      an outdated Service may be gone. */
  ghost predicate ServiceStage(es: EventSource, expected: Option<Service>, w: World, v: World, ok: bool) {
    if ok then
      if exists name :: OwnsService(w, es, name) then
        exists name :: OwnsService(w, es, name) && ServiceUpToDate(es, expected, w, v, name)
      else if expected.Some? then ServiceAdded(es, expected.value, w, v) else v == w
    else
      || v == Called(w, false, true) || (ServiceDue(es, expected, w) && v == Called(w, true, true))
      || (expected.Some? && exists name :: OwnsService(w, es, name) && ServiceLost(expected.value, w, v, name))
  }

  /** The outdated Service is deleted but the new one is not created. */
  ghost predicate ServiceLost(expected: Service, w: World, v: World, name: string)
    requires name in w.services
  {
    Outdated(w.services[name].annotations, expected.annotations) && v == Called(Without(w, name), true, true)
  }

  ghost predicate ServiceUpToDate(es: EventSource, expected: Option<Service>, w: World, v: World, name: string)
    requires name in w.services
  {
    if expected.None? then v == Without(w, name)
    else if Outdated(w.services[name].annotations, expected.value.annotations)
    then ServiceAdded(es, expected.value, Without(w, name), v)
    else v == w
  }

  /** One run of Reconcile, building `d` and reaching `mid` before it turns to the Service. */
  ghost predicate Reconciled(env: Env, es: EventSource, bus: BusLookup, w: World, v: World, ok: bool, d: Deployment, mid: World) {
    if !Usable(bus) then !ok && v == w
    else
      && IsExpected(env, es, bus, d)
      && ((DeploymentStage(es, d, w, mid, true) && ServiceStage(es, ExpectedService(env, es), mid, v, ok))
          || (DeploymentStage(es, d, w, mid, false) && v == mid && !ok))
  }

  // ----- what every step keeps -----

  predicate SameObject(a: EventSource, b: EventSource) { a.uid == b.uid && a.name == b.name }

  predicate ControlsDeployment(w: World, es: EventSource, id: nat) {
    id in w.deployments && w.deployments[id].owner == es.uid
  }

  predicate ControlsService(w: World, es: EventSource, name: string) {
    name in w.services && w.services[name].owner == es.uid
  }

  /** The object can be found by its labels and carries the hash of its own content. */
  predicate GoodDeployment(env: Env, es: EventSource, d: Deployment) {
    && Matches(d.labels, Selection(es))
    && d.annotations.Some? && HashOf(d.annotations) == env.hashDeployment(d.(annotations := None))
  }

  ghost predicate GoodService(env: Env, es: EventSource, s: Service) {
    && Matches(s.labels, Selection(es))
    && s.annotations.Some?
    && exists given: Labels :: HashOf(s.annotations) == env.hashService(s.(annotations := Some(given)))
  }

  ghost predicate DeploymentsInv(env: Env, es: EventSource, w: World) {
    && (forall i, j :: ControlsDeployment(w, es, i) && ControlsDeployment(w, es, j) ==> i == j)
    && (forall i :: ControlsDeployment(w, es, i) ==> GoodDeployment(env, es, w.deployments[i]))
  }

  ghost predicate ServicesInv(env: Env, es: EventSource, w: World) {
    forall n :: ControlsService(w, es, n) ==> n == ServiceName(es) && GoodService(env, es, w.services[n])
  }

  ghost predicate Inv(env: Env, es: EventSource, w: World) { DeploymentsInv(env, es, w) && ServicesInv(env, es, w) }

  lemma ExpectedIsGood(env: Env, es: EventSource, bus: BusLookup, d: Deployment)
    requires IsExpected(env, es, bus, d)
    ensures GoodDeployment(env, es, d) && d.owner == es.uid
  {
    hide IsBuild, InputsOf;
    var bare := Deployment(es.uid, MergeLabels(es.labels, Selection(es)), None,
                           DeploymentSpec(env.pod(es, bus), d.spec.volumes, d.spec.mounts));
    assert d == SealDeployment(env, bare) && d.(annotations := None) == bare;
  }

  lemma ExpectedServiceIsGood(env: Env, es: EventSource)
    requires ExpectedService(env, es).Some?
    ensures GoodService(env, es, ExpectedService(env, es).value) && ExpectedService(env, es).value.owner == es.uid
  {
    var s, config := ExpectedService(env, es).value, es.service.value;
    var given := if config.annotations.Some? then config.annotations.value else map[];
    assert HashOf(s.annotations) == env.hashService(s.(annotations := Some(given)));
  }

  lemma UpdatedIsGood(env: Env, es: EventSource, existing: Deployment, d: Deployment)
    requires GoodDeployment(env, es, d) && d.owner == existing.owner && existing.annotations.Some?
    ensures GoodDeployment(env, es, Updated(existing, d)) && HashOf(Updated(existing, d).annotations) == HashOf(d.annotations)
  {
    assert Updated(existing, d).(annotations := None) == d.(annotations := None);
  }

  lemma DeploymentStageKeepsInv(env: Env, es: EventSource, d: Deployment, w: World, v: World, ok: bool)
    requires DeploymentsInv(env, es, w) && GoodDeployment(env, es, d) && d.owner == es.uid && DeploymentStage(es, d, w, v, ok)
    ensures DeploymentsInv(env, es, v) && v.services == w.services
  {
    if !ok {
      SameDeployments(env, es, w, v);
    } else if exists id :: OwnsDeployment(w, es, id) {
      var id :| OwnsDeployment(w, es, id) && DeploymentUpToDate(d, w, v, id);
      if Outdated(w.deployments[id].annotations, d.annotations) { UpdatedIsGood(env, es, w.deployments[id], d); }
      hide GoodDeployment, Matches, Selection, Outdated, Updated;
      forall i | ControlsDeployment(v, es, i) ensures i == id && GoodDeployment(env, es, v.deployments[i]) {
        assert ControlsDeployment(w, es, i) && ControlsDeployment(w, es, id);
      }
    } else {
      var id: nat :| id !in w.deployments && v == Called(w, true, false).(deployments := w.deployments[id := d]);
      assert forall i :: ControlsDeployment(w, es, i) ==> OwnsDeployment(w, es, i);
      forall i | ControlsDeployment(v, es, i) ensures i == id {
        assert i != id ==> ControlsDeployment(w, es, i);
      }
    }
  }

  lemma SameDeployments(env: Env, es: EventSource, w: World, v: World)
    requires DeploymentsInv(env, es, w) && v.deployments == w.deployments
    ensures DeploymentsInv(env, es, v)
  {
    hide GoodDeployment;
    assert forall i :: ControlsDeployment(v, es, i) ==> ControlsDeployment(w, es, i);
  }

  /** No Service is new except the expected one under its name. */
  predicate OnlyAdds(es: EventSource, expected: Option<Service>, w: World, v: World) {
    forall n :: n in v.services ==>
      (n in w.services && v.services[n] == w.services[n])
      || (n == ServiceName(es) && expected.Some? && v.services[n] == expected.value)
  }

  lemma ServiceStageOnlyAdds(es: EventSource, expected: Option<Service>, w: World, v: World, ok: bool)
    requires ServiceStage(es, expected, w, v, ok)
    ensures OnlyAdds(es, expected, w, v) && v.deployments == w.deployments
  {
    hide OwnsService, Outdated;
  }

  lemma ServiceStageKeepsInv(env: Env, es: EventSource, w: World, v: World, ok: bool)
    requires Inv(env, es, w) && ServiceStage(es, ExpectedService(env, es), w, v, ok)
    ensures Inv(env, es, v)
  {
    hide GoodService, ExpectedService, ServiceName;
    ServiceStageOnlyAdds(es, ExpectedService(env, es), w, v, ok);
    SameDeployments(env, es, w, v);
    if ExpectedService(env, es).Some? { ExpectedServiceIsGood(env, es); }
    hide ServiceStage;
    forall n | ControlsService(v, es, n) ensures n == ServiceName(es) && GoodService(env, es, v.services[n]) {
      assert n in v.services;
      if n in w.services && v.services[n] == w.services[n] { assert ControlsService(w, es, n); }
    }
  }

  /** However a run ends, at most one Deployment is controlled by the event source, it and its Services can
      be found by their labels, and each carries the hash of its own content. */
  lemma ReconcileKeepsInv(env: Env, es: EventSource, bus: BusLookup, w: World, v: World, ok: bool, d: Deployment, mid: World)
    requires Inv(env, es, w) && Reconciled(env, es, bus, w, v, ok, d, mid)
    ensures Inv(env, es, v)
  {
    hide DeploymentStage, ServiceStage, GoodDeployment, GoodService;
    if Usable(bus) {
      ExpectedIsGood(env, es, bus, d);
      if DeploymentStage(es, d, w, mid, true) && ServiceStage(es, ExpectedService(env, es), mid, v, ok) {
        DeploymentStageKeepsInv(env, es, d, w, mid, true);
        SameServices(env, es, w, mid);
        ServiceStageKeepsInv(env, es, mid, v, ok);
      } else {
        DeploymentStageKeepsInv(env, es, d, w, mid, false);
        SameServices(env, es, w, mid);
      }
    }
  }

  lemma SameServices(env: Env, es: EventSource, w: World, v: World)
    requires ServicesInv(env, es, w) && v.services == w.services
    ensures ServicesInv(env, es, v)
  {
    hide GoodService;
    assert forall n :: ControlsService(v, es, n) ==> ControlsService(w, es, n);
  }

  /** Objects the event source does not control come through a run unchanged, and none is made. */
  lemma OthersUntouched(env: Env, es: EventSource, bus: BusLookup, w: World, v: World, ok: bool, d: Deployment, mid: World)
    requires Reconciled(env, es, bus, w, v, ok, d, mid)
    ensures forall i :: i in w.deployments && !ControlsDeployment(w, es, i) ==>
      i in v.deployments && v.deployments[i] == w.deployments[i]
    ensures forall i :: i in v.deployments && !ControlsDeployment(v, es, i) ==> i in w.deployments
    ensures forall n :: n in w.services && !ControlsService(w, es, n) ==> n in v.services && v.services[n] == w.services[n]
    ensures forall n :: n in v.services && !ControlsService(v, es, n) ==> n in w.services
  {
    hide Matches, Selection, Outdated, IsExpected, HashOf, ServiceName;
    if Usable(bus) {
      ExpectedOwner(env, es, bus, d);
      if DeploymentStage(es, d, w, mid, true) && ServiceStage(es, ExpectedService(env, es), mid, v, ok) {
        DeploymentStageForeign(es, d, w, mid, true);
        ServiceStageForeign(env, es, mid, v, ok);
      } else {
        DeploymentStageForeign(es, d, w, mid, false);
      }
    }
  }

  lemma ExpectedOwner(env: Env, es: EventSource, bus: BusLookup, d: Deployment)
    requires IsExpected(env, es, bus, d)
    ensures d.owner == es.uid
  {
    hide GoodDeployment;
    ExpectedIsGood(env, es, bus, d);
  }

  lemma DeploymentStageForeign(es: EventSource, d: Deployment, w: World, v: World, ok: bool)
    requires DeploymentStage(es, d, w, v, ok) && d.owner == es.uid
    ensures forall i :: i in w.deployments && !ControlsDeployment(w, es, i) ==>
      i in v.deployments && v.deployments[i] == w.deployments[i]
    ensures forall i :: i in v.deployments && !ControlsDeployment(v, es, i) ==> i in w.deployments
    ensures v.services == w.services
  {
    hide Matches, Selection, Outdated, HashOf;
  }

  lemma ServiceStageForeign(env: Env, es: EventSource, w: World, v: World, ok: bool)
    requires ServiceStage(es, ExpectedService(env, es), w, v, ok)
    ensures forall n :: n in w.services && !ControlsService(w, es, n) ==> n in v.services && v.services[n] == w.services[n]
    ensures forall n :: n in v.services && !ControlsService(v, es, n) ==> n in w.services
    ensures v.deployments == w.deployments
  {
    if ExpectedService(env, es).Some? { ExpectedServiceIsGood(env, es); }
    hide Matches, Selection, Outdated, HashOf, ExpectedService, GoodService;
  }

  // ----- what a successful run achieves -----

  /** The one Deployment carries the hash of `d`. */
  ghost predicate DeploymentSettled(es: EventSource, d: Deployment, w: World) {
    && (exists i :: OwnsDeployment(w, es, i))
    && (forall i :: ControlsDeployment(w, es, i) ==> HashOf(w.deployments[i].annotations) == HashOf(d.annotations))
  }

  /** A Service is there if and only if ports are asked for, and carries the expected hash. */
  ghost predicate ServiceSettled(es: EventSource, expected: Option<Service>, w: World) {
    if expected.Some? then
      && OwnsService(w, es, ServiceName(es))
      && forall n :: ControlsService(w, es, n) ==> HashOf(w.services[n].annotations) == HashOf(expected.value.annotations)
    else forall n :: !ControlsService(w, es, n)
  }

  lemma DeploymentStageSettles(env: Env, es: EventSource, d: Deployment, w: World, v: World)
    requires DeploymentsInv(env, es, w) && GoodDeployment(env, es, d) && d.owner == es.uid && DeploymentStage(es, d, w, v, true)
    ensures DeploymentSettled(es, d, v)
  {
    DeploymentStageKeepsInv(env, es, d, w, v, true);
    if exists id :: OwnsDeployment(w, es, id) {
      var id :| OwnsDeployment(w, es, id) && DeploymentUpToDate(d, w, v, id);
      assert ControlsDeployment(w, es, id) && GoodDeployment(env, es, w.deployments[id]);
      if Outdated(w.deployments[id].annotations, d.annotations) { UpdatedIsGood(env, es, w.deployments[id], d); }
      assert ControlsDeployment(v, es, id) && HashOf(v.deployments[id].annotations) == HashOf(d.annotations);
      assert OwnsDeployment(v, es, id);
    } else {
      var id: nat :| id !in w.deployments && v == Called(w, true, false).(deployments := w.deployments[id := d]);
      assert OwnsDeployment(v, es, id) && ControlsDeployment(v, es, id);
    }
  }

  lemma ServiceStageSettles(env: Env, es: EventSource, w: World, v: World)
    requires ServicesInv(env, es, w) && ServiceStage(es, ExpectedService(env, es), w, v, true)
    ensures ServiceSettled(es, ExpectedService(env, es), v)
  {
    var expected := ExpectedService(env, es);
    if expected.Some? { ExpectedServiceIsGood(env, es); }
    hide ExpectedService;
    assert forall n :: ControlsService(w, es, n) ==> OwnsService(w, es, n) && w.services[n].annotations.Some?;
    assert forall n :: ControlsService(w, es, n) ==> n == ServiceName(es);
    hide GoodService, Selection, ServiceName;
    if exists name :: OwnsService(w, es, name) {
      var name :| OwnsService(w, es, name) && ServiceUpToDate(es, expected, w, v, name);
      OneServiceSettles(es, expected, w, v, name);
    } else if expected.Some? {
      assert OwnsService(v, es, ServiceName(es));
      assert forall n :: ControlsService(v, es, n) ==> n == ServiceName(es) || ControlsService(w, es, n);
    }
  }

  lemma OneServiceSettles(es: EventSource, expected: Option<Service>, w: World, v: World, name: string)
    requires OwnsService(w, es, name) && ServiceUpToDate(es, expected, w, v, name) && name == ServiceName(es)
    requires forall n :: ControlsService(w, es, n) ==> n == name && w.services[n].annotations.Some?
    requires expected.Some? ==> expected.value.owner == es.uid && Matches(expected.value.labels, Selection(es))
    ensures ServiceSettled(es, expected, v)
  {
    hide Selection, Matches, ServiceName, HashOf;
    assert ControlsService(w, es, name);
    assert forall n :: ControlsService(v, es, n) ==> n == name || ControlsService(w, es, n);
  }

  /** After a successful run everything is as expected. */
  lemma SuccessSettles(env: Env, es: EventSource, bus: BusLookup, w: World, v: World, d: Deployment, mid: World)
    requires Inv(env, es, w) && Reconciled(env, es, bus, w, v, true, d, mid)
    ensures DeploymentSettled(es, d, v) && ServiceSettled(es, ExpectedService(env, es), v)
  {
    ExpectedIsGood(env, es, bus, d);
    hide GoodDeployment, GoodService, IsExpected, DeploymentStage, ServiceStage;
    DeploymentStageSettles(env, es, d, w, mid);
    DeploymentStageKeepsInv(env, es, d, w, mid, true);
    SameServices(env, es, w, mid);
    ServiceStageSettles(env, es, mid, v);
    ServiceStageForeign(env, es, mid, v, true);
    SameDeploymentSettled(es, d, mid, v);
  }

  lemma SameDeploymentSettled(es: EventSource, d: Deployment, w: World, v: World)
    requires DeploymentSettled(es, d, w) && v.deployments == w.deployments
    ensures DeploymentSettled(es, d, v)
  {
    var i :| OwnsDeployment(w, es, i);
    assert OwnsDeployment(v, es, i);
    assert forall j :: ControlsDeployment(v, es, j) ==> ControlsDeployment(w, es, j);
  }

  /** A run succeeds exactly when the bus is usable and no API call fails. */
  lemma SucceedsExactly(env: Env, es: EventSource, bus: BusLookup, w: World, v: World, ok: bool, d: Deployment, mid: World)
    requires Reconciled(env, es, bus, w, v, ok, d, mid)
    ensures ok <==> Usable(bus) && v.faults == w.faults
  {
    hide IsExpected, ExpectedService, OwnsDeployment, OwnsService, Outdated, DeploymentDue, ServiceDue;
    if Usable(bus) {
      if DeploymentStage(es, d, w, mid, true) && ServiceStage(es, ExpectedService(env, es), mid, v, ok) {
        assert mid.faults == w.faults;
        assert ok ==> v.faults == mid.faults;
      }
    }
  }

  /** With everything settled for the hash of what it builds, a run writes nothing, whether or not its
      calls succeed; with another hash, a run whose calls succeed does write. */
  lemma WritesExactly(env: Env, es: EventSource, bus: BusLookup, w: World, v: World, ok: bool, d: Deployment, mid: World, was: Deployment)
    requires Inv(env, es, w) && Usable(bus) && Reconciled(env, es, bus, w, v, ok, d, mid)
    requires DeploymentSettled(es, was, w) && ServiceSettled(es, ExpectedService(env, es), w)
    ensures HashOf(d.annotations) == HashOf(was.annotations) ==>
      v.writes == w.writes && v.deployments == w.deployments && v.services == w.services
    ensures ok && HashOf(d.annotations) != HashOf(was.annotations) ==> v.writes > w.writes
  {
    hide IsExpected, ExpectedService, HashOf;
    assert forall i :: OwnsDeployment(w, es, i) ==> ControlsDeployment(w, es, i) && w.deployments[i].annotations.Some?;
    DeploymentWrites(es, d, w, mid, was);
    hide DeploymentStage, DeploymentSettled;
    if DeploymentStage(es, d, w, mid, true) && ServiceStage(es, ExpectedService(env, es), mid, v, ok) {
      SameServiceSettled(es, ExpectedService(env, es), w, mid);
      ServiceWrites(es, ExpectedService(env, es), mid, v, ok);
    }
  }

  lemma DeploymentWrites(es: EventSource, d: Deployment, w: World, v: World, was: Deployment)
    requires DeploymentSettled(es, was, w)
    requires forall i :: OwnsDeployment(w, es, i) ==> ControlsDeployment(w, es, i) && w.deployments[i].annotations.Some?
    requires DeploymentStage(es, d, w, v, true) || DeploymentStage(es, d, w, v, false)
    ensures v.services == w.services && v.writes >= w.writes
    ensures HashOf(d.annotations) == HashOf(was.annotations) ==> v.writes == w.writes && v.deployments == w.deployments
    ensures DeploymentStage(es, d, w, v, true) && HashOf(d.annotations) != HashOf(was.annotations) ==> v.writes > w.writes
  {
    hide HashOf, Matches;
  }

  lemma ServiceWrites(es: EventSource, expected: Option<Service>, w: World, v: World, ok: bool)
    requires ServiceSettled(es, expected, w) && ServiceStage(es, expected, w, v, ok)
    ensures v.services == w.services && v.deployments == w.deployments && v.writes == w.writes
  {
    hide HashOf, Matches;
    assert forall n :: OwnsService(w, es, n) ==> ControlsService(w, es, n);
  }

  lemma SameServiceSettled(es: EventSource, expected: Option<Service>, w: World, v: World)
    requires ServiceSettled(es, expected, w) && v.services == w.services
    ensures ServiceSettled(es, expected, v)
  {
    assert forall n :: ControlsService(v, es, n) ==> ControlsService(w, es, n);
  }

  /** The order in which maps are visited makes no difference to the Deployment, and so none to its hash,
      exactly when the volumes are determined by the inputs. */
  lemma BuildsAgreeExactly(env: Env, es: EventSource, bus: BusLookup)
    requires Usable(bus)
    ensures (forall d, e :: IsExpected(env, es, bus, d) && IsExpected(env, es, bus, e) ==> d == e)
      <==> Determined(InputsOf(es, bus.config).value, env.dns)
  {
    var inputs := InputsOf(es, bus.config).value;
    BuildIsDeterministicExactly(inputs, env.dns);
    hide IsBuild, Determined, InputsOf;
    if !Determined(inputs, env.dns) {
      var v1, m1, v2, m2 :| IsBuild(inputs, env.dns, v1, m1) && IsBuild(inputs, env.dns, v2, m2) && !(v1 == v2 && m1 == m2);
      var d, e := Assembled(env, es, bus, v1, m1), Assembled(env, es, bus, v2, m2);
      assert IsExpected(env, es, bus, d) && IsExpected(env, es, bus, e) && d.spec != e.spec;
    }
  }

  ghost predicate Injective(env: Env) {
    forall x, y :: env.hashDeployment(x) == env.hashDeployment(y) ==> x == y
  }

  lemma DifferentHashes(env: Env, es: EventSource, bus: BusLookup, d: Deployment, e: Deployment)
    requires IsExpected(env, es, bus, d) && IsExpected(env, es, bus, e) && d != e && Injective(env)
    ensures HashOf(d.annotations) != HashOf(e.annotations)
  {
    hide IsBuild, InputsOf, Selection;
    assert d.spec != e.spec;
    assert d.(annotations := None).spec != e.(annotations := None).spec;
    ExpectedIsGood(env, es, bus, d);
    ExpectedIsGood(env, es, bus, e);
  }

  /** A namespace settled for `d` stays quiet under all runs for the same edition and bus, exactly when the
      volumes are determined by the inputs, if hashing is injective. */
  lemma QuietExactly(env: Env, es: EventSource, bus: BusLookup, d: Deployment, w: World)
    requires Inv(env, es, w) && Injective(env) && IsExpected(env, es, bus, d)
    requires DeploymentSettled(es, d, w) && ServiceSettled(es, ExpectedService(env, es), w)
    ensures (forall v, ok, e, mid :: Reconciled(env, es, bus, w, v, ok, e, mid) ==> v.writes == w.writes)
      <==> Determined(InputsOf(es, bus.config).value, env.dns)
  {
    assert Usable(bus);
    BuildsAgreeExactly(env, es, bus);
    if Determined(InputsOf(es, bus.config).value, env.dns) {
      forall v, ok, e, mid | Reconciled(env, es, bus, w, v, ok, e, mid) ensures v.writes == w.writes {
        assert IsExpected(env, es, bus, e);
        hide Inv, IsExpected, DeploymentStage, ServiceStage, DeploymentSettled, ServiceSettled, ExpectedService, Determined;
        WritesExactly(env, es, bus, w, v, ok, e, mid, d);
      }
    } else {
      hide Inv, IsExpected, Reconciled, DeploymentSettled, ServiceSettled, ExpectedService, Determined;
      var x, y :| IsExpected(env, es, bus, x) && IsExpected(env, es, bus, y) && x != y;
      var e := if x != d then x else y;
      DifferentHashes(env, es, bus, d, e);
      var v := Rewrites(env, es, bus, d, e, w);
    }
  }

  /** A run that builds another hash, none of whose calls fails, writes; its result is settled in turn. */
  lemma Rewrites(env: Env, es: EventSource, bus: BusLookup, d: Deployment, e: Deployment, w: World) returns (v: World)
    requires Inv(env, es, w) && IsExpected(env, es, bus, e)
    requires DeploymentSettled(es, d, w) && ServiceSettled(es, ExpectedService(env, es), w)
    requires HashOf(d.annotations) != HashOf(e.annotations)
    ensures Reconciled(env, es, bus, w, v, true, e, v) && v.writes > w.writes
  {
    assert Usable(bus);
    hide IsExpected, ExpectedService, HashOf, Matches;
    var i :| OwnsDeployment(w, es, i);
    assert ControlsDeployment(w, es, i) && GoodDeployment(env, es, w.deployments[i]);
    v := Called(w, true, false).(deployments := w.deployments[i := Updated(w.deployments[i], e)]);
    assert DeploymentUpToDate(e, w, v, i);
    assert DeploymentStage(es, e, w, v, true);
    SameServiceSettled(es, ExpectedService(env, es), w, v);
    hide DeploymentStage, DeploymentSettled, Inv;
    NothingForService(es, ExpectedService(env, es), v);
  }

  lemma NothingForService(es: EventSource, expected: Option<Service>, w: World)
    requires ServiceSettled(es, expected, w)
    ensures ServiceStage(es, expected, w, w, true)
  {
    hide HashOf, Matches;
    assert forall n :: OwnsService(w, es, n) ==> ControlsService(w, es, n);
    if exists n :: OwnsService(w, es, n) {
      var n :| OwnsService(w, es, n);
      assert ServiceUpToDate(es, expected, w, w, n);
    }
  }

  /** An event source two of whose events name the secrets `a_b` and `a-b`: two builds mount different volumes,
      and their Deployments have different hashes if hashing is injective. */
  lemma UnderscoreClashRebuilds(env: Env, es: EventSource, bus: BusLookup, k: string, l: string)
    returns (d: Deployment, e: Deployment)
    requires es.secretView == EventSourceView([Selector("a_b", k), Selector("a-b", l)]) && Usable(bus)
    ensures IsExpected(env, es, bus, d) && IsExpected(env, es, bus, e)
    ensures multiset(d.spec.volumes) != multiset(e.spec.volumes)
    ensures Injective(env) ==> HashOf(d.annotations) != HashOf(e.annotations)
  {
    var inputs := InputsOf(es, bus.config).value;
    UnderscoreClash(inputs.secretObjs, k, l);
    BuildContentExactly(inputs, env.dns);
    hide IsBuild, OneFirst, InputsOf, EventSourceView;
    var v1, m1, v2, m2 :| IsBuild(inputs, env.dns, v1, m1) && IsBuild(inputs, env.dns, v2, m2) && multiset(v1) != multiset(v2);
    d, e := Assembled(env, es, bus, v1, m1), Assembled(env, es, bus, v2, m2);
    assert d.spec.volumes == v1 && e.spec.volumes == v2;
    if Injective(env) { DifferentHashes(env, es, bus, d, e); }
  }

  /** If different contents have different hashes, the settled Deployment is the one built. */
  lemma SettledContent(env: Env, es: EventSource, d: Deployment, w: World, i: nat)
    requires DeploymentsInv(env, es, w) && GoodDeployment(env, es, d) && DeploymentSettled(es, d, w) && ControlsDeployment(w, es, i)
    requires Injective(env)
    ensures w.deployments[i].(annotations := d.annotations) == d
  {
    hide HashOf, Matches;
    assert env.hashDeployment(w.deployments[i].(annotations := None)) == env.hashDeployment(d.(annotations := None));
  }

  // ----- what a built Deployment mounts -----

  /** The secret a selector of the bus's access is in, if the bus has one. */
  function AccessOf(bus: BusConfig): Option<Selector> { if bus.Nats? || bus.JetStream? then bus.access else None }

  /** The keys of a secret that the bus's certificates are in: of the authority, the client's certificate and
      the client's key, in this order. */
  function TlsKeys(bus: BusConfig, secret: string): seq<string> {
    if bus.JetStream? && bus.tls.Some? then
      KeyOf(bus.tls.value.ca, secret) + KeyOf(bus.tls.value.cert, secret) + KeyOf(bus.tls.value.key, secret)
    else []
  }

  /** The secrets named anywhere in the event source and, for Kafka, in the bus. */
  function SecretsNamed(es: EventSource, bus: BusConfig): multiset<string> {
    Tally(es.secretView) + if bus.Kafka? then Tally(bus.secretView) else multiset{}
  }

  lemma TallyOfOne(a: Value)
    ensures TallyAll([a]) == Tally(a)
  {
    hide Tally;
    assert [a][1..] == [];
  }

  lemma TallyOfTwo(a: Value, b: Value)
    ensures TallyAll([a, b]) == Tally(a) + Tally(b)
  {
    hide Tally;
    TallyOfOne(b);
    assert [a, b][1..] == [b];
  }

  /** The Secret volumes are those of the secrets the event source names, and for Kafka the bus; the ConfigMap
      volumes those of the config maps the event source names. Every volume name they give is covered. */
  lemma SelectorsMounted(env: Env, es: EventSource, bus: BusLookup, d: Deployment)
    requires IsExpected(env, es, bus, d)
    ensures Covers(SecretKind, d.spec.volumes, SecretsNamed(es, bus.config))
    ensures Covers(ConfigMapKind, d.spec.volumes, Tally(es.configMapView))
  {
    var inputs := InputsOf(es, bus.config).value;
    InputSelectors(es, bus.config);
    hide IsBuild, InputsOf, Covers, SecretsNamed;
    BuildSelectors(inputs, env.dns, d.spec.volumes, d.spec.mounts, SecretKind);
    BuildSelectors(inputs, env.dns, d.spec.volumes, d.spec.mounts, ConfigMapKind);
  }

  lemma InputSelectors(es: EventSource, bus: BusConfig)
    requires !bus.Unsupported?
    ensures TallyAll(ObjsOf(InputsOf(es, bus).value, SecretKind)) == SecretsNamed(es, bus)
    ensures TallyAll(ObjsOf(InputsOf(es, bus).value, ConfigMapKind)) == Tally(es.configMapView)
  {
    hide Tally, TallyAll;
    TallyOfOne(es.secretView);
    TallyOfOne(es.configMapView);
    if bus.Kafka? { TallyOfTwo(es.secretView, bus.secretView); }
  }

  /** Besides, a directory for temporary files, the access secret of the bus and its certificate secrets, each
      with the keys wanted of it. */
  lemma BusMounted(env: Env, es: EventSource, bus: BusLookup, d: Deployment, v: Volume)
    requires IsExpected(env, es, bus, d) && !v.source.Secret? && !v.source.ConfigMap?
    ensures v in d.spec.volumes <==>
      || v == Volume("tmp", EmptyDir)
      || (AccessOf(bus.config).Some? && v == Volume("auth-volume", Auth(AccessOf(bus.config).value)))
      || (v.source.Certificates? && v.name == env.dns(v.source.secret) && v.source.keys == TlsKeys(bus.config, v.source.secret)
          && v.source.keys != [])
  {
    var inputs := InputsOf(es, bus.config).value;
    if v.source.Certificates? { KeysOfBus(es, bus.config, v.source.secret); }
    hide IsBuild, KeysOf, TlsKeys, KeyOf;
    BuildOthers(inputs, env.dns, d.spec.volumes, d.spec.mounts, v);
  }

  lemma KeysOfBus(es: EventSource, bus: BusConfig, secret: string)
    requires !bus.Unsupported?
    ensures KeysOf(InputsOf(es, bus).value.certs, secret) == TlsKeys(bus, secret)
  {
    var certs := InputsOf(es, bus).value.certs;
    assert certs == [certs[0], certs[1], certs[2]];
    KeysOfThree(certs[0], certs[1], certs[2], secret);
  }

  lemma KeysOfThree(a: Option<Selector>, b: Option<Selector>, c: Option<Selector>, secret: string)
    ensures KeysOf([a, b, c], secret) == KeyOf(a, secret) + KeyOf(b, secret) + KeyOf(c, secret)
  {
    hide KeyOf;
    assert [c][1..] == [] && KeysOf([], secret) == [];
    assert KeysOf([c], secret) == KeyOf(c, secret);
    assert [b, c][1..] == [c];
    assert KeysOf([b, c], secret) == KeyOf(b, secret) + KeyOf(c, secret);
    assert [a, b, c][1..] == [b, c];
  }

  /** Every volume is mounted where the running pod looks for its files, and nothing else is mounted. */
  lemma AllMounted(env: Env, es: EventSource, bus: BusLookup, d: Deployment)
    requires IsExpected(env, es, bus, d)
    ensures forall v :: v in d.spec.volumes ==> exists m :: m in d.spec.mounts && MountedAt(m, v)
    ensures forall m :: m in d.spec.mounts ==> exists v :: v in d.spec.volumes && MountedAt(m, v)
  {
    var inputs := InputsOf(es, bus.config).value;
    hide IsBuild, MountedAt, InputsOf, MountOf;
    BuildMounts(inputs, env.dns, d.spec.volumes, d.spec.mounts);
  }

  // ----- runs -----

  /** One thing that happens in the namespace: a run of the reconciler for some edition of the event source
      and some state of its bus, or anything anybody else does. */
  datatype Event = Run(es: EventSource, bus: BusLookup, ok: bool, d: Deployment, mid: World) | Elsewhere

  /** Others do as they like with their own objects. Those the event source controls may only get other
      annotations, as the Deployment controller gives them. */
  ghost predicate ElsewhereStep(es: EventSource, w: World, v: World) {
    && v.writes == w.writes && v.faults == w.faults
    && (forall i :: ControlsDeployment(w, es, i) <==> ControlsDeployment(v, es, i))
    && (forall i :: ControlsDeployment(w, es, i) ==> Annotated(w.deployments[i], v.deployments[i]))
    && (forall n :: ControlsService(w, es, n) <==> ControlsService(v, es, n))
    && (forall n :: ControlsService(w, es, n) ==> v.services[n] == w.services[n])
  }

  predicate Annotated(d: Deployment, e: Deployment) {
    && d.(annotations := None) == e.(annotations := None)
    && (d.annotations.Some? <==> e.annotations.Some?) && HashOf(d.annotations) == HashOf(e.annotations)
  }

  ghost predicate Happens(env: Env, es: EventSource, w: World, v: World, e: Event) {
    match e
    case Run(now, bus, ok, d, mid) => SameObject(es, now) && Reconciled(env, now, bus, w, v, ok, d, mid)
    case Elsewhere => ElsewhereStep(es, w, v)
  }

  /** A history of the namespace that starts before the event source controls anything. */
  ghost predicate IsHistory(env: Env, es: EventSource, worlds: seq<World>, events: seq<Event>) {
    && |worlds| == |events| + 1
    && (forall i :: !ControlsDeployment(worlds[0], es, i)) && (forall n :: !ControlsService(worlds[0], es, n))
    && forall k :: 0 <= k < |events| ==> Happens(env, es, worlds[k], worlds[k + 1], events[k])
  }

  lemma InvOfSameObject(env: Env, a: EventSource, b: EventSource, w: World)
    requires SameObject(a, b) && Inv(env, a, w)
    ensures Inv(env, b, w)
  {
    hide Matches, HashOf;
    assert Selection(a) == Selection(b);
    assert forall i :: ControlsDeployment(w, b, i) ==> ControlsDeployment(w, a, i);
    assert forall n :: ControlsService(w, b, n) ==> ControlsService(w, a, n);
  }

  lemma ElsewhereKeepsInv(env: Env, es: EventSource, w: World, v: World)
    requires Inv(env, es, w) && ElsewhereStep(es, w, v)
    ensures Inv(env, es, v)
  {
    hide Matches, HashOf, Selection;
  }

  /** Over every history at most one Deployment is controlled by the event source, it always carries the
      labels it is found by, and its hash annotation is that of its own content. */
  lemma {:induction false} HistoryKeepsInv(env: Env, es: EventSource, worlds: seq<World>, events: seq<Event>, k: nat)
    requires IsHistory(env, es, worlds, events) && k <= |events|
    ensures Inv(env, es, worlds[k])
  {
    hide Reconciled, Inv, ElsewhereStep;
    if k == 0 {
      NothingControlled(env, es, worlds[0]);
    } else {
      HistoryKeepsInv(env, es, worlds, events, k - 1);
      var w, v := worlds[k - 1], worlds[k];
      assert Happens(env, es, w, v, events[k - 1]);
      match events[k - 1]
      case Run(now, bus, ok, d, mid) =>
        InvOfSameObject(env, es, now, w);
        ReconcileKeepsInv(env, now, bus, w, v, ok, d, mid);
        InvOfSameObject(env, now, es, v);
      case Elsewhere => ElsewhereKeepsInv(env, es, w, v);
    }
  }

  lemma NothingControlled(env: Env, es: EventSource, w: World)
    requires (forall i :: !ControlsDeployment(w, es, i)) && (forall n :: !ControlsService(w, es, n))
    ensures Inv(env, es, w)
  {
  }

  /** Whatever came before, a run in which no call fails leaves the namespace as that edition of the
      event source asks. */
  lemma EachSuccessSettles(env: Env, es: EventSource, worlds: seq<World>, events: seq<Event>, k: nat)
    requires IsHistory(env, es, worlds, events) && k < |events| && events[k].Run?
    requires Usable(events[k].bus) && worlds[k + 1].faults == worlds[k].faults
    ensures var e := events[k];
      e.ok && DeploymentSettled(e.es, e.d, worlds[k + 1]) && ServiceSettled(e.es, ExpectedService(env, e.es), worlds[k + 1])
  {
    hide Reconciled, Inv, DeploymentSettled, ServiceSettled, ExpectedService;
    var e := events[k];
    HistoryKeepsInv(env, es, worlds, events, k);
    assert Happens(env, es, worlds[k], worlds[k + 1], e);
    InvOfSameObject(env, es, e.es, worlds[k]);
    SucceedsExactly(env, e.es, e.bus, worlds[k], worlds[k + 1], e.ok, e.d, e.mid);
    SuccessSettles(env, e.es, e.bus, worlds[k], worlds[k + 1], e.d, e.mid);
  }

  lemma {:induction false} StaysSettled(env: Env, es: EventSource, worlds: seq<World>, events: seq<Event>, j: nat, k: nat,
                                       now: EventSource, d: Deployment)
    requires IsHistory(env, es, worlds, events) && j <= k <= |events| && SameObject(es, now)
    requires forall i :: j <= i < k ==> events[i].Elsewhere?
    requires DeploymentSettled(now, d, worlds[j]) && ServiceSettled(now, ExpectedService(env, now), worlds[j])
    ensures DeploymentSettled(now, d, worlds[k]) && ServiceSettled(now, ExpectedService(env, now), worlds[k])
    decreases k
  {
    hide DeploymentSettled, ServiceSettled, ExpectedService;
    if j < k {
      StaysSettled(env, es, worlds, events, j, k - 1, now, d);
      assert Happens(env, es, worlds[k - 1], worlds[k], events[k - 1]);
      ElsewhereSettled(es, now, worlds[k - 1], worlds[k], d, ExpectedService(env, now));
    }
  }

  lemma ElsewhereSettled(es: EventSource, now: EventSource, w: World, v: World, d: Deployment, expected: Option<Service>)
    requires ElsewhereStep(es, w, v) && SameObject(es, now)
    requires DeploymentSettled(now, d, w) && ServiceSettled(now, expected, w)
    ensures DeploymentSettled(now, d, v) && ServiceSettled(now, expected, v)
  {
    hide Matches, HashOf, Selection;
    assert forall i :: ControlsDeployment(v, now, i) <==> ControlsDeployment(v, es, i);
    assert forall i :: ControlsDeployment(w, now, i) <==> ControlsDeployment(w, es, i);
    var i :| OwnsDeployment(w, now, i);
    assert ControlsDeployment(w, es, i);
    assert OwnsDeployment(v, now, i);
    assert forall n :: ControlsService(v, now, n) <==> ControlsService(v, es, n);
    assert forall n :: ControlsService(w, now, n) <==> ControlsService(w, es, n);
    if expected.Some? { assert ControlsService(w, es, ServiceName(now)); }
  }

  /** The next run for the same edition and bus after a successful one writes nothing, however maps are
      visited and whatever others have done with their objects in between, if the inputs determine the
      volumes. */
  lemma NextRunWritesNothing(env: Env, es: EventSource, worlds: seq<World>, events: seq<Event>, j: nat, k: nat)
    requires IsHistory(env, es, worlds, events) && j < k < |events| && events[j].Run? && events[k].Run?
    requires Usable(events[j].bus) && worlds[j + 1].faults == worlds[j].faults
    requires events[k].es == events[j].es && events[k].bus == events[j].bus
    requires forall i :: j < i < k ==> events[i].Elsewhere?
    requires Determined(InputsOf(events[j].es, events[j].bus.config).value, env.dns)
    ensures worlds[k + 1].writes == worlds[k].writes
    ensures worlds[k + 1].deployments == worlds[k].deployments && worlds[k + 1].services == worlds[k].services
  {
    hide Inv, DeploymentSettled, ServiceSettled, ExpectedService, ElsewhereStep, Determined, IsExpected, DeploymentStage, ServiceStage, InputsOf;
    var a, b := events[j], events[k];
    EachSuccessSettles(env, es, worlds, events, j);
    assert Happens(env, es, worlds[j], worlds[j + 1], a) && Happens(env, es, worlds[k], worlds[k + 1], b);
    StaysSettled(env, es, worlds, events, j + 1, k, a.es, a.d);
    BuildsAgreeExactly(env, a.es, a.bus);
    HistoryKeepsInv(env, es, worlds, events, k);
    InvOfSameObject(env, es, b.es, worlds[k]);
    WritesExactly(env, b.es, b.bus, worlds[k], worlds[k + 1], b.ok, b.d, b.mid, a.d);
  }

  // ----- the code -----

  /** The API server as the reconciler's client sees it. Any call may fail; a failed call has no effect. */
  class Cluster {
    var deployments: map<nat, Deployment>
    var services: map<string, Service>
    var writes: nat
    var faults: nat

    function State(): World
      reads this
    {
      World(deployments, services, writes, faults)
    }

    /** The Deployments with the given labels, in any order. */
    method ListDeployments(selection: Labels) returns (r: Option<seq<nat>>)
      modifies this`faults
      ensures r.None? ==> State() == Called(old(State()), false, true)
      ensures r.Some? ==> State() == old(State())
      ensures r.Some? ==> forall id :: id in r.value <==> id in deployments && Matches(deployments[id].labels, selection)
    {
      hide Matches;
      var fails: bool := *;
      if fails {
        faults := faults + 1;
        return None;
      }
      var items: seq<nat> := [];
      var rest := deployments.Keys;
      while rest != {}
        invariant rest <= deployments.Keys
        invariant forall id :: id in items <==> id in deployments.Keys - rest && Matches(deployments[id].labels, selection)
      {
        var id :| id in rest;
        if Matches(deployments[id].labels, selection) { items := items + [id]; }
        rest := rest - {id};
      }
      return Some(items);
    }

    method ListServices(selection: Labels) returns (r: Option<seq<string>>)
      modifies this`faults
      ensures r.None? ==> State() == Called(old(State()), false, true)
      ensures r.Some? ==> State() == old(State())
      ensures r.Some? ==> forall n :: n in r.value <==> n in services && Matches(services[n].labels, selection)
    {
      hide Matches;
      var fails: bool := *;
      if fails {
        faults := faults + 1;
        return None;
      }
      var items: seq<string> := [];
      var rest := services.Keys;
      while rest != {}
        invariant rest <= services.Keys
        invariant forall n :: n in items <==> n in services.Keys - rest && Matches(services[n].labels, selection)
      {
        var n :| n in rest;
        if Matches(services[n].labels, selection) { items := items + [n]; }
        rest := rest - {n};
      }
      return Some(items);
    }

    method Call(failing: bool) returns (ok: bool)
      modifies this`writes, this`faults
      ensures State() == Called(old(State()), true, !ok)
      ensures failing ==> !ok
    {
      ok := *;
      if failing { ok := false; }
      writes := writes + 1;
      if !ok { faults := faults + 1; }
    }

    /** The server makes up a name for the new object. */
    method CreateDeployment(d: Deployment) returns (ok: bool)
      modifies this
      ensures !ok ==> State() == Called(old(State()), true, true)
      ensures ok ==> exists id: nat ::
        id !in old(deployments) && State() == Called(old(State()), true, false).(deployments := old(deployments)[id := d])
    {
      ok := Call(false);
      if ok {
        var id := FreshId(deployments.Keys);
        deployments := deployments[id := d];
      }
    }

    method UpdateDeployment(id: nat, d: Deployment) returns (ok: bool)
      modifies this
      ensures State() == if ok then Called(old(State()), true, false).(deployments := old(deployments)[id := d])
                         else Called(old(State()), true, true)
    {
      ok := Call(false);
      if ok { deployments := deployments[id := d]; }
    }

    /** Fails if the name is taken. */
    method CreateService(name: string, s: Service) returns (ok: bool)
      modifies this
      ensures !ok ==> State() == Called(old(State()), true, true)
      ensures ok ==> name !in old(services) && State() == Called(old(State()), true, false).(services := old(services)[name := s])
    {
      ok := Call(name in services);
      if ok { services := services[name := s]; }
    }

    method DeleteService(name: string) returns (ok: bool)
      modifies this
      ensures State() == if ok then Without(old(State()), name) else Called(old(State()), true, true)
    {
      ok := Call(false);
      if ok { services := services - {name}; }
    }
  }

  method FreshId(used: set<nat>) returns (id: nat)
    ensures id !in used
  {
    id := 0;
    var rest := used;
    while id in used
      invariant forall x :: x in used && x !in rest ==> x < id
      invariant forall x :: x in rest ==> x in used
      decreases rest
    {
      rest := set x | x in rest && x > id;
      id := id + 1;
    }
  }

  datatype Lookup<T> = Error | Absent | Present(value: T)

  method GetDeployment(client: Cluster, es: EventSource) returns (r: Lookup<nat>)
    modifies client
    ensures r.Error? ==> client.State() == Called(old(client.State()), false, true)
    ensures !r.Error? ==> client.State() == old(client.State())
    ensures r.Absent? ==> forall id :: !OwnsDeployment(client.State(), es, id)
    ensures r.Present? ==> OwnsDeployment(client.State(), es, r.value)
  {
    hide Matches, Selection;
    var items := client.ListDeployments(Selection(es));
    if items.None? { return Error; }
    for i := 0 to |items.value|
      invariant forall j :: 0 <= j < i ==> !OwnsDeployment(client.State(), es, items.value[j])
    {
      assert items.value[i] in items.value;
      if client.deployments[items.value[i]].owner == es.uid { return Present(items.value[i]); }
    }
    return Absent;
  }

  method GetService(client: Cluster, es: EventSource) returns (r: Lookup<string>)
    modifies client
    ensures r.Error? ==> client.State() == Called(old(client.State()), false, true)
    ensures !r.Error? ==> client.State() == old(client.State())
    ensures r.Absent? ==> forall n :: !OwnsService(client.State(), es, n)
    ensures r.Present? ==> OwnsService(client.State(), es, r.value)
  {
    hide Matches, Selection;
    var items := client.ListServices(Selection(es));
    if items.None? { return Error; }
    for i := 0 to |items.value|
      invariant forall j :: 0 <= j < i ==> !OwnsService(client.State(), es, items.value[j])
    {
      assert items.value[i] in items.value;
      if client.services[items.value[i]].owner == es.uid { return Present(items.value[i]); }
    }
    return Absent;
  }

  method BuildDeployment(env: Env, es: EventSource, bus: BusLookup) returns (d: Deployment)
    requires Usable(bus)
    ensures IsExpected(env, es, bus, d)
  {
    var inputs := InputsOf(es, bus.config).value;
    hide IsBuild, InputsOf;
    var vols, mounts := BuildVolumes(inputs, env.dns);
    d := SealDeployment(env, Deployment(es.uid, MergeLabels(es.labels, Selection(es)), None,
                                        DeploymentSpec(env.pod(es, bus), vols, mounts)));
  }

  datatype Status = Deployed | DeployFailed(reason: string)

  /** Brings the Deployment up to date. */
  method ReconcileDeployment(client: Cluster, es: EventSource, d: Deployment) returns (ok: bool, status: Status)
    modifies client
    ensures DeploymentStage(es, d, old(client.State()), client.State(), ok)
    ensures !ok ==> status.DeployFailed?
  {
    hide Matches, Selection, HashOf;
    var deploy := GetDeployment(client, es);
    match deploy {
      case Error => return false, DeployFailed("GetDeploymentFailed");
      case Present(id) =>
        var existing := client.deployments[id];
        if Outdated(existing.annotations, d.annotations) {
          ok := client.UpdateDeployment(id, Updated(existing, d));
          if !ok { return false, DeployFailed("UpdateDeploymentFailed"); }
        }
        assert DeploymentUpToDate(d, old(client.State()), client.State(), id);
      case Absent =>
        ok := client.CreateDeployment(d);
        if !ok { return false, DeployFailed("CreateDeploymentFailed"); }
    }
    return true, Deployed;
  }

  /** Brings the Service up to date: an outdated one is deleted and made again. */
  method ReconcileService(client: Cluster, env: Env, es: EventSource) returns (ok: bool, status: Status)
    modifies client
    ensures ServiceStage(es, ExpectedService(env, es), old(client.State()), client.State(), ok)
    ensures if ok then status.Deployed? else status.DeployFailed?
  {
    hide Matches, Selection, HashOf, ExpectedService, ServiceName;
    var existing := GetService(client, es);
    if existing.Error? { return false, DeployFailed("GetServiceFailed"); }
    var expected := ExpectedService(env, es);
    if expected.None? {
      if existing.Present? {
        ok := client.DeleteService(existing.value);
        if !ok { return false, DeployFailed("DeleteServiceFailed"); }
        assert ServiceUpToDate(es, expected, old(client.State()), client.State(), existing.value);
      }
    } else if existing.Absent? {
      ok := client.CreateService(ServiceName(es), expected.value);
      if !ok { return false, DeployFailed("CreateServiceFailed"); }
    } else {
      if Outdated(client.services[existing.value].annotations, expected.value.annotations) {
        ok := client.DeleteService(existing.value);
        if !ok { return false, DeployFailed("DeleteServiceFailed"); }
        ok := client.CreateService(ServiceName(es), expected.value);
        if !ok {
          assert ServiceLost(expected.value, old(client.State()), client.State(), existing.value);
          return false, DeployFailed("RecreateServiceFailed");
        }
      }
      assert ServiceUpToDate(es, expected, old(client.State()), client.State(), existing.value);
    }
    return true, Deployed;
  }

  method Reconcile(client: Cluster, env: Env, es: EventSource, bus: BusLookup)
    returns (ok: bool, status: Status, ghost d: Deployment, ghost mid: World)
    modifies client
    ensures Reconciled(env, es, bus, old(client.State()), client.State(), ok, d, mid)
    ensures if ok then status.Deployed? else status.DeployFailed?
  {
    hide IsExpected, DeploymentStage, ServiceStage, ExpectedService;
    d, mid := *, client.State();
    match bus {
      case NotFound => return false, DeployFailed("EventBusNotFound"), d, mid;
      case LookupFailed => return false, DeployFailed("GetEventBusFailed"), d, mid;
      case NotReady => return false, DeployFailed("EventBusNotReady"), d, mid;
      case Ready(config, _) =>
        if config.Unsupported? { return false, DeployFailed("BuildDeploymentSpecFailed"), d, mid; }
    }
    var expectedDeploy := BuildDeployment(env, es, bus);
    d := expectedDeploy;
    ok, status := ReconcileDeployment(client, es, expectedDeploy);
    mid := client.State();
    if !ok { return; }
    ok, status := ReconcileService(client, env, es);
  }
}
