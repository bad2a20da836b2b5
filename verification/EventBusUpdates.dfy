/** What admission lets an event bus become (pkg/webhook/validator/eventbus.go, ValidateCreate and
    ValidateUpdate; pkg/reconciler/eventbus/validate.go), over runs of any number of updates. */
module EventBusUpdates {
  import opened Wrappers

  const NO_AUTH := "none"

  datatype Native = Native(auth: Option<string>, replicas: int)

  datatype Exotic = Exotic(clusterID: Option<string>, url: string, auth: Option<string>)

  datatype Nats = Nats(native: Option<Native>, exotic: Option<Exotic>)

  datatype JetStream = JetStream(version: string, replicas: Option<int>, streamConfig: Option<string>)

  datatype Spec = Spec(nats: Option<Nats>, jetStream: Option<JetStream>, kafkaURL: Option<string>, jetStreamExoticURL: Option<string>)

  datatype Bus = Bus(generation: int, spec: Spec)

  // ----- validation of one object -----

  function ValidateNats(x: Nats): Result<(), string> {
    if x.native.Some? && x.exotic.Some? then Failure("native and exotic can not be defined together")
    else if x.native.None? && x.exotic.None? then Failure("either native or exotic must be defined")
    else if x.exotic.Some? && x.exotic.value.clusterID.None? then Failure("clusterID is missing")
    else if x.exotic.Some? && x.exotic.value.url == "" then Failure("url is missing")
    else Success(())
  }

  function ValidateJetStream(x: JetStream): Result<(), string> {
    if x.version == "" then Failure("a version for jetstream needs to be specified")
    else if x.replicas.Some? && (x.replicas.value == 2 || x.replicas.value <= 0)
    then Failure("a jetstream eventbus requires 1 replica or >= 3 replicas")
    else Success(())
  }

  function ValidateURL(url: Option<string>): Result<(), string> {
    if url == Some("") then Failure("url is missing") else Success(())
  }

  function ValidateEventBus(s: Spec): Result<(), string> {
    if s.nats.None? && s.jetStream.None? && s.kafkaURL.None? && s.jetStreamExoticURL.None? then Failure("invalid spec")
    else
      var _ :- if s.nats.Some? then ValidateNats(s.nats.value) else Success(());
      var _ :- if s.jetStream.Some? then ValidateJetStream(s.jetStream.value) else Success(());
      var _ :- ValidateURL(s.kafkaURL);
      ValidateURL(s.jetStreamExoticURL)
  }

  // ----- admission -----

  datatype Response = Allowed | Denied(message: string)

  predicate AuthChanged(old_: Option<string>, new_: Option<string>) {
    if old_.None? && new_.None? then false
    else if old_.None? then new_.value != NO_AUTH
    else if new_.None? then old_.value != NO_AUTH
    else new_.value != old_.value
  }

  function ValidateCreate(b: Bus): Response {
    match ValidateEventBus(b.spec)
    case Failure(e) => Denied("invalid EventBus: " + e)
    case Success(_) => Allowed
  }

  function ValidateNatsUpdate(was: Nats, now: Nats): Response {
    if now.native.Some? then
      if was.native.None? then Denied("Can not change NATS event bus implementation from exotic to native")
      else if AuthChanged(was.native.value.auth, now.native.value.auth) then Denied("spec.nats.native.auth is immutable")
      else Allowed
    else if now.exotic.Some? then
      if was.exotic.None? then Denied("Can not change NATS event bus implementation from native to exotic")
      else if AuthChanged(was.exotic.value.auth, now.exotic.value.auth) then Denied("spec.nats.exotic.auth is immutable")
      else Allowed
    else Allowed
  }

  function ValidateJetStreamUpdate(was: JetStream, now: JetStream): Response {
    if (was.streamConfig.None? && now.streamConfig.Some?) || (was.streamConfig.Some? && now.streamConfig.None?)
    then Denied("spec.jetstream.streamConfig is immutable")
    else if was.streamConfig.Some? && now.streamConfig.Some? && was.streamConfig.value != now.streamConfig.value
    then Denied("spec.jetstream.streamConfig is immutable")
    else Allowed
  }

  function ValidateUpdate(was: Bus, now: Bus): Response {
    if was.generation == now.generation then Allowed
    else
      match ValidateEventBus(now.spec)
      case Failure(e) => Denied("invalid EventBus: " + e)
      case Success(_) =>
        if now.spec.nats.Some? then
          if was.spec.nats.None? then Denied("Can not change event bus implementation")
          else ValidateNatsUpdate(was.spec.nats.value, now.spec.nats.value)
        else if now.spec.jetStream.Some? then
          if was.spec.jetStream.None? then Denied("Can not change event bus implementation")
          else ValidateJetStreamUpdate(was.spec.jetStream.value, now.spec.jetStream.value)
        else if now.spec.jetStreamExoticURL.Some? && was.spec.jetStreamExoticURL.None?
        then Denied("Can not change event bus implementation")
        else Allowed
  }

  // ----- what stays -----

  /** The implementation the checks go by when several are given. */
  datatype Implementation = NATS | JETSTREAM | JETSTREAM_EXOTIC | KAFKA

  function Primary(s: Spec): Implementation {
    if s.nats.Some? then NATS else if s.jetStream.Some? then JETSTREAM
    else if s.jetStreamExoticURL.Some? then JETSTREAM_EXOTIC else KAFKA
  }

  function Rank(i: Implementation): int {
    match i
    case NATS => 3
    case JETSTREAM => 2
    case JETSTREAM_EXOTIC => 1
    case KAFKA => 0
  }

  /** No strategy means no authentication. */
  function Effective(auth: Option<string>): string { if auth.Some? then auth.value else NO_AUTH }

  function NatsAuth(x: Nats): string {
    if x.native.Some? then Effective(x.native.value.auth)
    else if x.exotic.Some? then Effective(x.exotic.value.auth) else NO_AUTH
  }

  /** NATS of the same kind with the same authentication in force. */
  predicate SameKindAndAuth(a: Nats, b: Nats) {
    (a.native.Some? <==> b.native.Some?) && NatsAuth(a) == NatsAuth(b)
  }

  predicate SameNats(a: Spec, b: Spec) {
    a.nats.Some? && b.nats.Some? && SameKindAndAuth(a.nats.value, b.nats.value)
  }

  predicate SameStream(a: Spec, b: Spec) {
    && a.jetStream.Some? && b.jetStream.Some?
    && a.jetStream.value.streamConfig == b.jetStream.value.streamConfig
  }

  /** The old object already had what the new one's implementation keeps fixed. */
  predicate Keeps(was: Spec, now: Spec) {
    match Primary(now)
    case NATS => SameNats(was, now)
    case JETSTREAM => SameStream(was, now)
    case JETSTREAM_EXOTIC => was.jetStreamExoticURL.Some?
    case KAFKA => true
  }

  predicate Valid(s: Spec) { ValidateEventBus(s).Success? }

  /** A JetStream bus with a version is valid exactly when its replicas are not given, one, or three and more. */
  lemma JetStreamReplicasExactly(version: string, replicas: Option<int>, streamConfig: Option<string>)
    requires version != ""
    ensures Valid(Spec(None, Some(JetStream(version, replicas, streamConfig)), None, None))
      <==> replicas.None? || replicas.value == 1 || replicas.value >= 3
  {
  }

  /** A specification is valid exactly when it lists something; NATS, if listed, is native or exotic and not
      both, exotic with a cluster and an address; JetStream has a version and admissible replicas; and no
      address is empty. */
  lemma ValidExactly(s: Spec)
    ensures Valid(s) <==>
      && s != Spec(None, None, None, None)
      && (s.nats.Some? ==> s.nats.value.native.Some? != s.nats.value.exotic.Some?)
      && (s.nats.Some? && s.nats.value.exotic.Some? ==>
            s.nats.value.exotic.value.clusterID != None && s.nats.value.exotic.value.url != "")
      && (s.jetStream.Some? ==> s.jetStream.value.version != "")
      && (s.jetStream.Some? && s.jetStream.value.replicas.Some? ==>
            s.jetStream.value.replicas.value == 1 || s.jetStream.value.replicas.value >= 3)
      && s.kafkaURL != Some("") && s.jetStreamExoticURL != Some("")
  {
  }

  /** A change of a valid bus is admitted if and only if the result is valid and keeps what its
      implementation fixes, or the generation says that the specification is the same. Nothing is asked when
      that implementation is Kafka. */
  lemma UpdateExactly(was: Bus, now: Bus)
    requires Valid(was.spec)
    ensures ValidateUpdate(was, now).Allowed? <==> was.generation == now.generation || (Valid(now.spec) && Keeps(was.spec, now.spec))
  {
    if now.spec.nats.Some? && was.spec.nats.Some? && Valid(now.spec) {
      NatsUpdateExactly(was.spec.nats.value, now.spec.nats.value);
    }
    hide ValidateNatsUpdate, SameKindAndAuth;
  }

  lemma NatsUpdateExactly(was: Nats, now: Nats)
    requires ValidateNats(was).Success? && ValidateNats(now).Success?
    ensures ValidateNatsUpdate(was, now).Allowed? <==> SameKindAndAuth(was, now)
  {
  }

  // ----- runs -----

  /** A created bus and the updates admitted after it; the API server gives a changed spec a new generation. */
  ghost predicate IsRun(run: seq<Bus>) {
    && run != [] && ValidateCreate(run[0]).Allowed?
    && forall i :: 0 < i < |run| ==> Admitted(run[i - 1], run[i])
  }

  predicate Admitted(was: Bus, now: Bus) {
    && ValidateUpdate(was, now).Allowed?
    && (was.spec != now.spec ==> was.generation != now.generation)
  }

  lemma {:induction false} RunValid(run: seq<Bus>, j: nat)
    requires IsRun(run) && j < |run|
    ensures Valid(run[j].spec)
  {
    if j > 0 {
      RunValid(run, j - 1);
      assert Admitted(run[j - 1], run[j]);
      if run[j - 1].spec != run[j].spec { UpdateExactly(run[j - 1], run[j]); }
    }
  }

  lemma StepKeeps(run: seq<Bus>, j: nat)
    requires IsRun(run) && 0 < j < |run|
    ensures run[j - 1].spec == run[j].spec || Keeps(run[j - 1].spec, run[j].spec)
  {
    RunValid(run, j - 1);
    assert Admitted(run[j - 1], run[j]);
    hide Keeps, ValidateUpdate, ValidateEventBus;
    if run[j - 1].spec != run[j].spec { UpdateExactly(run[j - 1], run[j]); }
  }

  /** A bus that is NATS now was NATS at every earlier step, of the same kind and authentication. */
  lemma {:induction false} NatsAllAlong(run: seq<Bus>, i: nat, j: nat)
    requires IsRun(run) && i <= j < |run| && run[j].spec.nats.Some?
    ensures SameNats(run[i].spec, run[j].spec)
    decreases j
  {
    if i < j {
      StepKeeps(run, j);
      NatsAllAlong(run, i, j - 1);
    }
  }

  /** From the first step without NATS on, the stream configuration of a JetStream bus is fixed, and a
      bus that is JetStream now was JetStream all that time. */
  lemma {:induction false} StreamConfigFixed(run: seq<Bus>, i: nat, j: nat)
    requires IsRun(run) && i <= j < |run| && run[i].spec.nats.None? && Primary(run[j].spec) == JETSTREAM
    ensures Primary(run[i].spec) == JETSTREAM && SameStream(run[i].spec, run[j].spec)
    decreases j
  {
    if i < j {
      StepKeeps(run, j);
      if run[j - 1].spec.nats.Some? { NatsAllAlong(run, i, j - 1); }
      StreamConfigFixed(run, i, j - 1);
    }
  }

  /** The implementation never moves up: NATS, JetStream, exotic JetStream, Kafka. */
  lemma {:induction false} ImplementationNeverRises(run: seq<Bus>, i: nat, j: nat)
    requires IsRun(run) && i <= j < |run|
    ensures Rank(Primary(run[j].spec)) <= Rank(Primary(run[i].spec))
    decreases j
  {
    if i < j {
      StepKeeps(run, j);
      ImplementationNeverRises(run, i, j - 1);
    }
  }

  /** What lets a bus change to another implementation. */
  predicate MayBecome(was: Spec, now: Spec) {
    match Primary(now)
    case NATS => false
    case JETSTREAM => SameStream(was, now)
    case JETSTREAM_EXOTIC => was.jetStreamExoticURL.Some?
    case KAFKA => true
  }

  /** A valid bus may change its implementation, by one update, to JetStream or exotic JetStream if it already
      lists that one below its present one, the former with the same stream configuration, and to Kafka in
      any case; the result has to be valid. */
  lemma ImplementationChangesExactly(was: Bus, now: Bus)
    requires Valid(was.spec) && was.generation != now.generation && Primary(was.spec) != Primary(now.spec)
    ensures ValidateUpdate(was, now).Allowed? <==> Valid(now.spec) && MayBecome(was.spec, now.spec)
    ensures ValidateUpdate(was, now).Allowed? ==> Rank(Primary(now.spec)) < Rank(Primary(was.spec))
  {
    UpdateExactly(was, now);
    hide ValidateUpdate, ValidateEventBus;
  }

  /** Although an implementation "can not be changed", every valid bus may be replaced by any valid
      Kafka bus in one update. */
  lemma KafkaAlwaysAdmitted(was: Bus, now: Bus)
    requires Valid(was.spec) && Valid(now.spec) && Primary(now.spec) == KAFKA
    ensures ValidateUpdate(was, now).Allowed?
  {
    if was.generation != now.generation { UpdateExactly(was, now); }
  }

  /** For example a NATS bus. */
  lemma NatsBecomesKafka()
    ensures var nats := Spec(Some(Nats(Some(Native(None, 3)), None)), None, None, None);
      var kafka := Spec(None, None, Some("kafka:9092"), None);
      IsRun([Bus(1, nats), Bus(2, kafka)])
  {
    var nats := Spec(Some(Nats(Some(Native(None, 3)), None)), None, None, None);
    var kafka := Spec(None, None, Some("kafka:9092"), None);
    assert Admitted(Bus(1, nats), Bus(2, kafka));
  }

  /** And a bus that lists JetStream beside NATS becomes a JetStream bus by dropping NATS. */
  lemma NatsBecomesJetStream()
    ensures var nats, js := Some(Nats(Some(Native(None, 3)), None)), Some(JetStream("latest", Some(3), None));
      IsRun([Bus(1, Spec(nats, js, None, None)), Bus(2, Spec(None, js, None, None))])
  {
    var nats, js := Some(Nats(Some(Native(None, 3)), None)), Some(JetStream("latest", Some(3), None));
    assert Admitted(Bus(1, Spec(nats, js, None, None)), Bus(2, Spec(None, js, None, None)));
  }
}
