/** What validating an event source buys the process that runs it (pkg/reconciler/eventsource/validate.go;
    pkg/eventsources/eventing.go, GetEventingServers, Start and the filter lookup of run). Go visits the
    entries of a map in any order. */
module EventSourceValidation {
  import opened Wrappers

  datatype Kind = MNS | Minio | Calendar | File | SFTP | Resource | Webhook | AMQP | Kafka | MQTT | NATS | SNS | SQS
                | PubSub | Gerrit | Github | Gitlab | HDFS | Slack | StorageGrid | AzureEventsHub | AzureQueueStorage
                | AzureServiceBus | Stripe | Emitter | Redis | RedisStream | NSQ | Pulsar | Generic | BitbucketServer
                | Bitbucket

  /** The kinds in the order GetEventingServers takes them. */
  const KINDS := [AMQP, AzureEventsHub, AzureQueueStorage, AzureServiceBus, Bitbucket, BitbucketServer, Calendar, Emitter,
                  File, SFTP, Gerrit, Github, Gitlab, HDFS, Kafka, MQTT, Minio, NATS, NSQ, PubSub, Redis, RedisStream, SNS,
                  SQS, Slack, StorageGrid, Stripe, Webhook, Resource, Pulsar, Generic, MNS]

  predicate Recreates(k: Kind) {
    match k
    case AMQP | Calendar | Kafka | PubSub | AzureEventsHub | AzureServiceBus | NATS | MQTT | Minio | Emitter | NSQ | Pulsar
       | Redis | RedisStream | Resource | HDFS | File | SFTP | Generic => true
    case _ => false
  }

  /** Kinds whose configuration has no event filter. */
  predicate Unfiltered(k: Kind) { k.Minio? || k.StorageGrid? || k.Stripe? || k.Resource? }

  /** One configured source: its filter and what its kind's own validation says. */
  datatype Source = Source(filter: Option<string>, validation: Result<(), string>)

  type Spec = map<Kind, map<string, Source>>

  datatype Server = Server(kind: Kind, eventName: string, validation: Result<(), string>)

  function Names(spec: Spec, k: Kind): set<string> { if k in spec then spec[k].Keys else {} }

  /** The filter a source asks for. */
  function FilterOf(spec: Spec, k: Kind, name: string): Option<string>
    requires name in Names(spec, k)
  {
    if Unfiltered(k) then None else spec[k][name].filter
  }

  ghost predicate IsServer(server: Server, spec: Spec, k: Kind) {
    && server.kind == k && server.eventName in Names(spec, k)
    && server.validation == spec[k][server.eventName].validation
  }

  /** The servers are the sources of kind `k` with the given names, each once. */
  ghost predicate ServesNames(servers: seq<Server>, spec: Spec, k: Kind, names: set<string>) {
    && (forall i :: 0 <= i < |servers| ==> IsServer(servers[i], spec, k) && servers[i].eventName in names)
    && (forall i, j :: 0 <= i < j < |servers| ==> servers[i].eventName != servers[j].eventName)
    && (forall n :: n in names ==> exists i :: 0 <= i < |servers| && servers[i].eventName == n)
  }

  ghost predicate Serves(servers: seq<Server>, spec: Spec, k: Kind) {
    ServesNames(servers, spec, k, Names(spec, k))
  }

  lemma ServeOne(servers: seq<Server>, spec: Spec, k: Kind, names: set<string>, s: Server)
    requires ServesNames(servers, spec, k, names) && IsServer(s, spec, k) && s.eventName !in names
    ensures ServesNames(servers + [s], spec, k, names + {s.eventName})
  {
    hide IsServer;
    var more := servers + [s];
    assert more[|servers|] == s;
    forall n | n in names ensures exists i :: 0 <= i < |more| && more[i].eventName == n {
      var i :| 0 <= i < |servers| && servers[i].eventName == n;
      assert more[i] == servers[i];
    }
  }

  ghost predicate AllServed(servers: map<Kind, seq<Server>>, spec: Spec) {
    && (forall k :: k in servers <==> Names(spec, k) != {})
    && forall k :: k in servers ==> Serves(servers[k], spec, k)
  }

  /** The filter registered under a name: that of the last kind that gives it one. */
  function Registered(spec: Spec, kinds: seq<Kind>, name: string): Option<string> {
    if kinds == [] then None
    else
      var k := kinds[|kinds| - 1];
      if name in Names(spec, k) && FilterOf(spec, k, name).Some? then FilterOf(spec, k, name)
      else Registered(spec, kinds[..|kinds| - 1], name)
  }

  function Lookup(filters: map<string, string>, name: string): Option<string> {
    if name in filters then Some(filters[name]) else None
  }

  ghost predicate RegistersAll(filters: map<string, string>, spec: Spec, kinds: seq<Kind>) {
    forall n: string :: Lookup(filters, n) == Registered(spec, kinds, n)
  }

  method GetEventingServers(spec: Spec) returns (result: map<Kind, seq<Server>>, filters: map<string, string>)
    ensures AllServed(result, spec)
    ensures RegistersAll(filters, spec, KINDS)
  {
    hide Serves, KINDS;
    result, filters := map[], map[];
    for i := 0 to |KINDS|
      invariant forall k :: k in result <==> k in KINDS[..i] && Names(spec, k) != {}
      invariant forall k :: k in result ==> Serves(result[k], spec, k)
      invariant RegistersAll(filters, spec, KINDS[..i])
    {
      var k := KINDS[i];
      assert KINDS[..i + 1][..i] == KINDS[..i] && KINDS[..i + 1][i] == k;
      assert forall x :: x in KINDS[..i + 1] <==> x in KINDS[..i] || x == k;
      if Names(spec, k) != {} {
        var servers;
        servers, filters := ServersOf(spec, k, KINDS[..i], filters);
        result := result[k := servers];
        NextKind(filters, spec, KINDS[..i + 1]);
      } else {
        NextKind(filters, spec, KINDS[..i + 1]);
      }
    }
    assert KINDS[..|KINDS|] == KINDS;
    forall k: Kind ensures k in KINDS { EveryKind(k); }
  }

  lemma EveryKind(k: Kind)
    ensures k in KINDS
  {
    assert KINDS[0] == AMQP;
  }

  /** What is registered once the names in `seen` of kind `k` have been visited after `kinds`. */
  function RegisteredMidway(spec: Spec, kinds: seq<Kind>, k: Kind, seen: set<string>, name: string): Option<string> {
    if name in seen && name in Names(spec, k) && FilterOf(spec, k, name).Some? then FilterOf(spec, k, name)
    else Registered(spec, kinds, name)
  }

  ghost predicate RegistersMidway(filters: map<string, string>, spec: Spec, kinds: seq<Kind>, k: Kind, seen: set<string>) {
    forall n: string :: Lookup(filters, n) == RegisteredMidway(spec, kinds, k, seen, n)
  }

  lemma NextKind(filters: map<string, string>, spec: Spec, kinds: seq<Kind>)
    requires kinds != []
    requires var k := kinds[|kinds| - 1]; RegistersMidway(filters, spec, kinds[..|kinds| - 1], k, Names(spec, k))
    ensures RegistersAll(filters, spec, kinds)
  {
  }

  method ServersOf(spec: Spec, k: Kind, ghost kinds: seq<Kind>, before: map<string, string>)
    returns (servers: seq<Server>, filters: map<string, string>)
    requires RegistersAll(before, spec, kinds)
    ensures Serves(servers, spec, k)
    ensures RegistersMidway(filters, spec, kinds, k, Names(spec, k))
  {
    hide ServesNames;
    servers, filters := [], before;
    var rest := Names(spec, k);
    ghost var seen: set<string> := {};
    NoServers(spec, k);
    NothingRegistered(before, spec, kinds, k);
    hide RegistersMidway, RegistersAll;
    while rest != {}
      invariant rest <= Names(spec, k) && seen == Names(spec, k) - rest
      invariant ServesNames(servers, spec, k, seen)
      invariant RegistersMidway(filters, spec, kinds, k, seen)
    {
      var n :| n in rest;
      var source := spec[k][n];
      var server := Server(k, n, source.validation);
      ServeOne(servers, spec, k, seen, server);
      RegisterOne(filters, spec, kinds, k, seen, n);
      if !Unfiltered(k) && source.filter.Some? { filters := filters[n := source.filter.value]; }
      servers := servers + [server];
      rest := rest - {n};
      seen := seen + {n};
    }
    assert seen == Names(spec, k);
  }

  lemma NoServers(spec: Spec, k: Kind)
    ensures ServesNames([], spec, k, {})
  {
  }

  lemma NothingRegistered(filters: map<string, string>, spec: Spec, kinds: seq<Kind>, k: Kind)
    requires RegistersAll(filters, spec, kinds)
    ensures RegistersMidway(filters, spec, kinds, k, {})
  {
    hide Registered;
  }

  lemma RegisterOne(filters: map<string, string>, spec: Spec, kinds: seq<Kind>, k: Kind, seen: set<string>, n: string)
    requires RegistersMidway(filters, spec, kinds, k, seen) && n in Names(spec, k)
    ensures var own := FilterOf(spec, k, n);
      RegistersMidway(if own.Some? then filters[n := own.value] else filters, spec, kinds, k, seen + {n})
  {
    hide Registered;
    var own := FilterOf(spec, k, n);
    var more := if own.Some? then filters[n := own.value] else filters;
    forall x: string ensures Lookup(more, x) == RegisteredMidway(spec, kinds, k, seen + {n}, x) {
      assert Lookup(filters, x) == RegisteredMidway(spec, kinds, k, seen, x);
    }
  }

  // ----- validation -----

  ghost predicate NamesUnique(spec: Spec) {
    forall j, k, n :: n in Names(spec, j) && n in Names(spec, k) ==> j == k
  }

  ghost predicate AllValid(spec: Spec) {
    forall k, n :: n in Names(spec, k) ==> spec[k][n].validation.Success?
  }

  ghost predicate Mixed(spec: Spec) {
    exists j, k :: Names(spec, j) != {} && Names(spec, k) != {} && Recreates(j) && !Recreates(k)
  }

  ghost predicate Acceptable(spec: Spec) { NamesUnique(spec) && AllValid(spec) && !Mixed(spec) }

  /** The names of the kinds visited so far. */
  ghost predicate SeenNames(names: set<string>, spec: Spec, kinds: set<Kind>) {
    forall n :: n in names <==> exists k :: k in kinds && n in Names(spec, k)
  }

  ghost predicate UniqueAmong(spec: Spec, kinds: set<Kind>) {
    forall j, k, n :: j in kinds && k in kinds && n in Names(spec, j) && n in Names(spec, k) ==> j == k
  }

  ghost predicate ValidAmong(spec: Spec, kinds: set<Kind>) {
    forall k, n :: k in kinds && n in Names(spec, k) ==> spec[k][n].validation.Success?
  }

  /** Validation accepts exactly the specifications whose event names are unique, whose sources are valid
      by themselves and whose kinds agree on the deployment strategy, whatever the order of visits; the
      status says sources are provided if and only if it accepts. */
  method ValidateEventSource(spec: Spec) returns (r: Result<(), string>, provided: bool)
    ensures r.Success? <==> Acceptable(spec)
    ensures provided <==> r.Success?
  {
    hide NamesUnique, AllValid, Mixed, Serves, Names, SeenNames, UniqueAmong, ValidAmong, AnyKind, Recreates;
    var servers, _ := GetEventingServers(spec);
    var eventNames: set<string> := {};
    var rollingUpdates, recreates := 0, 0;
    var rest := servers.Keys;
    assert servers.Keys - rest == {};
    NoKindYet(spec);
    while rest != {}
      invariant rest <= servers.Keys
      invariant SeenNames(eventNames, spec, servers.Keys - rest)
      invariant UniqueAmong(spec, servers.Keys - rest) && ValidAmong(spec, servers.Keys - rest)
      invariant recreates >= 0 && (recreates > 0 <==> AnyKind(servers.Keys - rest, true))
      invariant rollingUpdates >= 0 && (rollingUpdates > 0 <==> AnyKind(servers.Keys - rest, false))
    {
      var eventType :| eventType in rest;
      OneMoreAny(servers.Keys - rest, eventType);
      if Recreates(eventType) { recreates := recreates + 1; } else { rollingUpdates := rollingUpdates + 1; }
      var error, more := CheckServers(servers[eventType], spec, eventType, servers.Keys - rest, eventNames);
      if error.Some? { return Failure(error.value), false; }
      eventNames := more;
      assert servers.Keys - (rest - {eventType}) == servers.Keys - rest + {eventType};
      rest := rest - {eventType};
    }
    assert servers.Keys - rest == servers.Keys;
    AcceptedExactly(spec, servers.Keys);
    if rollingUpdates > 0 && recreates > 0 { return Failure("strategies can not be put together"), false; }
    return Success(()), true;
  }

  /** The servers of one more kind. */
  method CheckServers(ss: seq<Server>, spec: Spec, k: Kind, ghost done: set<Kind>, eventNames: set<string>)
    returns (error: Option<string>, more: set<string>)
    requires Serves(ss, spec, k) && k !in done
    requires SeenNames(eventNames, spec, done) && UniqueAmong(spec, done) && ValidAmong(spec, done)
    ensures error.None? ==>
      SeenNames(more, spec, done + {k}) && UniqueAmong(spec, done + {k}) && ValidAmong(spec, done + {k})
    ensures error.Some? ==> !NamesUnique(spec) || !AllValid(spec)
  {
    hide NamesUnique, AllValid, SeenNames, UniqueAmong, ValidAmong;
    more := eventNames;
    for i := 0 to |ss|
      invariant forall n :: n in more <==> n in eventNames || exists j :: 0 <= j < i && ss[j].eventName == n
      invariant forall j :: 0 <= j < i ==> ss[j].eventName !in eventNames && ss[j].validation.Success?
    {
      var server := ss[i];
      if server.eventName in more {
        assert server.eventName in eventNames;
        Clashes(spec, k, done, eventNames, server.eventName);
        return Some("more than one found in the spec"), more;
      }
      more := more + {server.eventName};
      if server.validation.Failure? {
        Invalid(spec, k, server);
        return Some(server.validation.error), more;
      }
    }
    OneMoreKind(ss, spec, k, done, eventNames, more);
    error := None;
  }

  lemma Clashes(spec: Spec, k: Kind, done: set<Kind>, eventNames: set<string>, n: string)
    requires SeenNames(eventNames, spec, done) && k !in done && n in eventNames && n in Names(spec, k)
    ensures !NamesUnique(spec)
  {
  }

  lemma Invalid(spec: Spec, k: Kind, s: Server)
    requires IsServer(s, spec, k) && s.validation.Failure?
    ensures !AllValid(spec)
  {
  }

  lemma OneMoreKind(ss: seq<Server>, spec: Spec, k: Kind, done: set<Kind>, eventNames: set<string>, more: set<string>)
    requires Serves(ss, spec, k) && SeenNames(eventNames, spec, done) && UniqueAmong(spec, done) && ValidAmong(spec, done)
    requires forall n :: n in more <==> n in eventNames || exists j :: 0 <= j < |ss| && ss[j].eventName == n
    requires forall j :: 0 <= j < |ss| ==> ss[j].eventName !in eventNames && ss[j].validation.Success?
    ensures SeenNames(more, spec, done + {k}) && UniqueAmong(spec, done + {k}) && ValidAmong(spec, done + {k})
  {
    forall n ensures (n in Names(spec, k) <==> exists i :: 0 <= i < |ss| && ss[i].eventName == n)
    {
      if i :| 0 <= i < |ss| && ss[i].eventName == n { assert IsServer(ss[i], spec, k); }
    }
    forall n | n in Names(spec, k) ensures n !in eventNames && spec[k][n].validation.Success? {
      var i :| 0 <= i < |ss| && ss[i].eventName == n;
      assert IsServer(ss[i], spec, k);
    }
    hide Serves, ServesNames, IsServer;
    MoreNames(spec, k, done, eventNames, more);
    MoreUnique(spec, k, done, eventNames);
    hide SeenNames, UniqueAmong;
  }

  lemma MoreNames(spec: Spec, k: Kind, done: set<Kind>, eventNames: set<string>, more: set<string>)
    requires SeenNames(eventNames, spec, done)
    requires forall n :: n in more <==> n in eventNames || n in Names(spec, k)
    ensures SeenNames(more, spec, done + {k})
  {
    hide Names;
    var all := done + {k};
    forall n ensures n in more <==> exists j :: j in all && n in Names(spec, j) {
      if n in Names(spec, k) { assert k in all; }
      if j :| j in all && n in Names(spec, j) { assert j == k || j in done; }
      if n in eventNames {
        var j :| j in done && n in Names(spec, j);
        assert j in all;
      }
    }
  }

  lemma MoreUnique(spec: Spec, k: Kind, done: set<Kind>, eventNames: set<string>)
    requires SeenNames(eventNames, spec, done) && UniqueAmong(spec, done)
    requires forall n :: n in Names(spec, k) ==> n !in eventNames
    ensures UniqueAmong(spec, done + {k})
  {
    hide Names;
  }

  ghost predicate AnyKind(kinds: set<Kind>, recreate: bool) {
    exists k :: k in kinds && Recreates(k) == recreate
  }

  lemma OneMoreAny(kinds: set<Kind>, k: Kind)
    ensures AnyKind(kinds + {k}, true) <==> AnyKind(kinds, true) || Recreates(k)
    ensures AnyKind(kinds + {k}, false) <==> AnyKind(kinds, false) || !Recreates(k)
  {
    hide Recreates;
    assert k in kinds + {k};
    assert forall j :: j in kinds ==> j in kinds + {k};
  }

  lemma NoKindYet(spec: Spec)
    ensures SeenNames({}, spec, {}) && UniqueAmong(spec, {}) && ValidAmong(spec, {})
    ensures !AnyKind({}, true) && !AnyKind({}, false)
  {
  }

  lemma AcceptedExactly(spec: Spec, kinds: set<Kind>)
    requires forall k :: k in kinds <==> Names(spec, k) != {}
    ensures UniqueAmong(spec, kinds) <==> NamesUnique(spec)
    ensures ValidAmong(spec, kinds) <==> AllValid(spec)
    ensures Mixed(spec) <==> AnyKind(kinds, true) && AnyKind(kinds, false)
  {
    hide Recreates;
  }

  // ----- running an accepted event source -----

  /** The deployment strategy is read off whichever kind the map gives first. */
  method IsRecreateType(spec: Spec) returns (isRecreate: bool)
    ensures MayDecide(spec, isRecreate)
  {
    var servers, _ := GetEventingServers(spec);
    isRecreate := false;
    if servers.Keys != {} {
      var k :| k in servers.Keys;
      if Recreates(k) { isRecreate := true; }
    }
  }

  ghost predicate MayDecide(spec: Spec, isRecreate: bool) {
    if exists k :: Names(spec, k) != {} then exists k :: Names(spec, k) != {} && Recreates(k) == isRecreate
    else !isRecreate
  }

  /** Start takes one decision whatever entry it picks exactly when the kinds do not mix strategies; the
      decision is then to recreate if and only if some kind asks for it. */
  lemma DecisionExactly(spec: Spec)
    ensures (forall a, b :: MayDecide(spec, a) && MayDecide(spec, b) ==> a == b) <==> !Mixed(spec)
    ensures !Mixed(spec) ==> forall a :: MayDecide(spec, a) ==> (a <==> exists k :: Names(spec, k) != {} && Recreates(k))
  {
    hide Recreates;
    assert Mixed(spec) ==> MayDecide(spec, true) && MayDecide(spec, false);
  }

  /** Every server's events go through the filter of its own source and no other. */
  ghost predicate OwnFilters(spec: Spec, filters: map<string, string>) {
    forall k, n :: n in Names(spec, k) ==> Lookup(filters, n) == FilterOf(spec, k, n)
  }

  /** In an accepted event source every source runs with its own filter or none, and those of four kinds with
      none even if one is configured. */
  lemma FilterUsed(spec: Spec, filters: map<string, string>, k: Kind, n: string)
    requires RegistersAll(filters, spec, KINDS) && NamesUnique(spec) && n in Names(spec, k)
    ensures k in {Minio, StorageGrid, Stripe, Resource} ==> n !in filters
    ensures k !in {Minio, StorageGrid, Stripe, Resource} ==> Lookup(filters, n) == spec[k][n].filter
  {
    OwnFiltersExactly(spec, filters);
    hide KINDS, RegistersAll;
    assert Lookup(filters, n) == FilterOf(spec, k, n);
  }

  /** The name-keyed filters map gives every server its own filter exactly when sources that share a name
      ask for the same filter. */
  lemma OwnFiltersExactly(spec: Spec, filters: map<string, string>)
    requires RegistersAll(filters, spec, KINDS)
    ensures OwnFilters(spec, filters)
      <==> forall j, k, n :: n in Names(spec, j) && n in Names(spec, k) ==> FilterOf(spec, j, n) == FilterOf(spec, k, n)
  {
    hide KINDS, FilterOf;
    if forall j, k, n :: n in Names(spec, j) && n in Names(spec, k) ==> FilterOf(spec, j, n) == FilterOf(spec, k, n) {
      forall k, n | n in Names(spec, k) ensures Lookup(filters, n) == FilterOf(spec, k, n) {
        EveryKind(k);
        RegisteredAgrees(spec, KINDS, k, n);
      }
    }
  }

  lemma {:induction false} RegisteredAgrees(spec: Spec, kinds: seq<Kind>, k: Kind, n: string)
    requires n in Names(spec, k)
    requires forall j :: n in Names(spec, j) ==> FilterOf(spec, j, n) == FilterOf(spec, k, n)
    ensures Registered(spec, kinds, n) == FilterOf(spec, k, n) || (Registered(spec, kinds, n).None? && k !in kinds)
  {
    hide FilterOf;
    if kinds == [] {
    } else {
      RegisteredAgrees(spec, kinds[..|kinds| - 1], k, n);
    }
  }

  /** Validation buys both: one decision for the strategy, and each server its own filter. */
  lemma AcceptedRunsAsConfigured(spec: Spec, filters: map<string, string>)
    requires Acceptable(spec) && RegistersAll(filters, spec, KINDS)
    ensures forall a, b :: MayDecide(spec, a) && MayDecide(spec, b) ==> a == b
    ensures OwnFilters(spec, filters)
  {
    hide KINDS, FilterOf, MayDecide;
    DecisionExactly(spec);
    OwnFiltersExactly(spec, filters);
  }

  /** The kinds whose deployment is recreated, spelled out. */
  lemma KindsRecreated(k: Kind)
    ensures Recreates(k) <==> k in {AMQP, Calendar, Kafka, PubSub, AzureEventsHub, AzureServiceBus, NATS, MQTT, Minio, Emitter,
      NSQ, Pulsar, Redis, RedisStream, Resource, HDFS, File, SFTP, Generic}
  {
  }

  /** An event source of one kind, with any number of events, recreates if it is a calendar and rolls if it
      is a webhook. */
  lemma OneKindDecides(spec: Spec, k: Kind, isRecreate: bool)
    requires Names(spec, k) != {} && (forall j :: j != k ==> Names(spec, j) == {}) && MayDecide(spec, isRecreate)
    ensures isRecreate == Recreates(k)
    ensures k == Calendar ==> isRecreate
    ensures k == Webhook ==> !isRecreate
  {
  }
}
