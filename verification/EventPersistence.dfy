/** Saving events into a shared ConfigMap (pkg/eventsources/persist/event_persist.go).

    Every `Save` is a loop of API calls; any number of saves run at once and their calls interleave.
    An API call may answer, fail without effect, or take effect and have its answer lost. The server
    accepts an Update only if the resource version is the one that was read; nobody deletes the map. */
module EventPersistence {
  import opened Wrappers

  /** Steps of the default backoff. */
  const STEPS := 5

  datatype Event = Event(key: string, payload: string)

  datatype ConfigMap = ConfigMap(data: map<string, string>, version: nat)

  /** Where a save stands: before the Get, before the Create, before the Update, or done. */
  datatype Phase = Reading | Creating | Writing(copy: ConfigMap) | Saved | Failed

  datatype Saver = Saver(event: Event, createIfNotExist: bool, phase: Phase, steps: nat)

  /** One accepted Update: the save it belongs to and whether that save learned of it. */
  datatype Entry = Entry(saver: nat, acknowledged: bool)

  /** `initial` is what the map held before the first save; `log` the accepted Updates in order. */
  datatype State = State(cm: Option<ConfigMap>, nextVersion: nat, savers: seq<Saver>,
                         initial: map<string, string>, log: seq<Entry>)

  datatype Outcome = Ok | Error | Lost

  predicate Active(p: Phase) { p.Reading? || p.Creating? || p.Writing? }

  // ----- one API call -----

  /** A failed attempt: read again while steps are left. */
  function Retry(v: Saver): Saver {
    if v.steps <= 1 then v.(phase := Failed, steps := 0) else v.(phase := Reading, steps := v.steps - 1)
  }

  function Call(s: State, i: nat, o: Outcome): State
    requires i < |s.savers| && Active(s.savers[i].phase)
  {
    var v := s.savers[i];
    match v.phase
    case Reading =>
      if o != Ok then s.(savers := s.savers[i := Retry(v)])
      else if s.cm.Some? then s.(savers := s.savers[i := v.(phase := Writing(s.cm.value))])
      else if v.createIfNotExist then s.(savers := s.savers[i := v.(phase := Creating)])
      else s.(savers := s.savers[i := Retry(v)])
    case Creating =>
      if o == Error || s.cm.Some? then s.(savers := s.savers[i := Retry(v)])
      else
        var cm := ConfigMap(map[], s.nextVersion);
        s.(cm := Some(cm), nextVersion := s.nextVersion + 1,
           savers := s.savers[i := if o == Ok then v.(phase := Writing(cm)) else Retry(v)])
    case Writing(copy) =>
      if o == Error || s.cm.None? || s.cm.value.version != copy.version then
        s.(savers := s.savers[i := Retry(v)])
      else
        s.(cm := Some(ConfigMap(copy.data[v.event.key := v.event.payload], s.nextVersion)),
           nextVersion := s.nextVersion + 1,
           savers := s.savers[i := if o == Ok then v.(phase := Saved) else Retry(v)],
           log := s.log + [Entry(i, o == Ok)])
  }

  function Start(s: State, e: Event, createIfNotExist: bool): State {
    s.(savers := s.savers + [Saver(e, createIfNotExist, Reading, STEPS)])
  }

  function Get(s: State, key: string): Option<Event> {
    if s.cm.None? || key !in s.cm.value.data then None else Some(Event(key, s.cm.value.data[key]))
  }

  datatype Step = Begin(event: Event, createIfNotExist: bool) | Proceed(i: nat, outcome: Outcome)

  ghost predicate Next(s: State, t: State, step: Step) {
    match step
    case Begin(e, c) => t == Start(s, e, c)
    case Proceed(i, o) => i < |s.savers| && Active(s.savers[i].phase) && t == Call(s, i, o)
  }

  ghost predicate Initial(s: State) {
    && s.savers == [] && s.log == []
    && (match s.cm
        case None => s.initial == map[]
        case Some(cm) => cm.data == s.initial && cm.version < s.nextVersion)
  }

  ghost predicate IsRun(states: seq<State>, steps: seq<Step>) {
    && |states| == |steps| + 1
    && Initial(states[0])
    && forall k :: 0 <= k < |steps| ==> Next(states[k], states[k + 1], steps[k])
  }

  // ----- what a log means -----

  /** The data after a list of accepted Updates. */
  function Replay(data: map<string, string>, log: seq<Entry>, savers: seq<Saver>): map<string, string>
    requires forall e :: e in log ==> e.saver < |savers|
  {
    if log == [] then data
    else
      var e := savers[log[|log| - 1].saver].event;
      Replay(data, log[..|log| - 1], savers)[e.key := e.payload]
  }

  function Acknowledged(log: seq<Entry>, i: nat): nat {
    if log == [] then 0
    else Acknowledged(log[..|log| - 1], i) + if log[|log| - 1] == Entry(i, true) then 1 else 0
  }

  ghost predicate NothingLost(log: seq<Entry>) { forall e :: e in log ==> e.acknowledged }

  ghost predicate Inv(s: State) {
    && (forall e :: e in s.log ==> e.saver < |s.savers|)
    && (match s.cm
        case None => s.log == [] && s.initial == map[]
        case Some(cm) => cm.version < s.nextVersion && cm.data == Replay(s.initial, s.log, s.savers))
    && (forall i :: 0 <= i < |s.savers| ==> SaverInv(s, i))
  }

  /** A copy that still has the current version still has the current data; a save is in the log once
      as acknowledged exactly when it has succeeded; steps stay within the backoff. */
  ghost predicate SaverInv(s: State, i: nat)
    requires i < |s.savers|
  {
    var v := s.savers[i];
    && (v.phase.Writing? ==> s.cm.Some? && v.phase.copy.version <= s.cm.value.version)
    && (v.phase.Writing? && v.phase.copy.version == s.cm.value.version ==> v.phase.copy.data == s.cm.value.data)
    && Acknowledged(s.log, i) == (if v.phase == Saved then 1 else 0)
    && (if v.phase == Failed then v.steps == 0 else 1 <= v.steps <= STEPS)
  }

  lemma {:induction false} ReplayIgnoresPhases(data: map<string, string>, log: seq<Entry>, a: seq<Saver>, b: seq<Saver>)
    requires |a| <= |b| && forall i :: 0 <= i < |a| ==> a[i].event == b[i].event
    requires forall e :: e in log ==> e.saver < |a|
    ensures Replay(data, log, a) == Replay(data, log, b)
  {
    if log != [] { ReplayIgnoresPhases(data, log[..|log| - 1], a, b); }
  }

  lemma {:induction false} NotYetLogged(log: seq<Entry>, i: nat)
    requires forall e :: e in log ==> e.saver != i
    ensures Acknowledged(log, i) == 0
  {
    if log != [] {
      assert log[|log| - 1] in log;
      NotYetLogged(log[..|log| - 1], i);
    }
  }

  lemma CallKeepsMap(s: State, i: nat, o: Outcome)
    requires Inv(s) && i < |s.savers| && Active(s.savers[i].phase)
    ensures var t := Call(s, i, o);
      && |t.savers| == |s.savers| && t.initial == s.initial && s.log <= t.log
      && (forall j :: 0 <= j < |s.savers| ==> t.savers[j].event == s.savers[j].event)
      && (forall e :: e in t.log ==> e.saver < |t.savers|)
      && (t.cm.None? ==> t.log == [] && t.initial == map[])
      && (t.cm.Some? ==> t.cm.value.version < t.nextVersion
                         && t.cm.value.data == Replay(t.initial, t.log, t.savers))
  {
    hide Acknowledged, Replay, SaverInv;
    NothingReplayed(s.initial, s.savers);
    var t := Call(s, i, o);
    if s.savers[i].phase.Writing? { SavedCopy(s, i); }
    CallWho(s, i, o);
    ReplayIgnoresPhases(s.initial, s.log, s.savers, t.savers);
    if t.log != s.log {
      ReplayEntry(s.initial, s.log, Entry(i, o == Ok), t.savers);
      assert t.savers[i].event == s.savers[i].event;
    }
  }

  lemma NothingReplayed(data: map<string, string>, savers: seq<Saver>)
    ensures Replay(data, [], savers) == data
  {
  }

  lemma SavedCopy(s: State, i: nat)
    requires Inv(s) && i < |s.savers| && s.savers[i].phase.Writing?
    ensures s.cm.Some?
    ensures s.savers[i].phase.copy.version == s.cm.value.version ==> s.savers[i].phase.copy.data == s.cm.value.data
  {
    assert SaverInv(s, i);
  }

  lemma CallWho(s: State, i: nat, o: Outcome)
    requires i < |s.savers| && Active(s.savers[i].phase)
    ensures |Call(s, i, o).savers| == |s.savers|
    ensures forall j :: 0 <= j < |s.savers| ==> Call(s, i, o).savers[j].event == s.savers[j].event
  {
  }

  lemma ReplayEntry(data: map<string, string>, log: seq<Entry>, e: Entry, savers: seq<Saver>)
    requires forall x :: x in log + [e] ==> x.saver < |savers|
    ensures Replay(data, log + [e], savers)
      == Replay(data, log, savers)[savers[e.saver].event.key := savers[e.saver].event.payload]
  {
    assert e in log + [e] && (log + [e])[..|log|] == log;
  }

  lemma CallKeepsSaver(s: State, i: nat, o: Outcome, j: nat)
    requires Inv(s) && i < |s.savers| && Active(s.savers[i].phase) && j < |s.savers|
    ensures SaverInv(Call(s, i, o), j)
    ensures s.savers[j].phase == Saved ==> Call(s, i, o).savers[j].phase == Saved
  {
    var t := Call(s, i, o);
    assert SaverInv(s, i) && SaverInv(s, j);
    if t.log != s.log { assert t.log[..|t.log| - 1] == s.log; }
  }

  /** No call of any save can break the invariant. */
  lemma StepKeepsInv(s: State, t: State, step: Step)
    requires Inv(s) && Next(s, t, step)
    ensures Inv(t) && t.initial == s.initial
    ensures s.log <= t.log && |s.savers| <= |t.savers|
    ensures forall i :: 0 <= i < |s.savers| ==> s.savers[i].event == t.savers[i].event
    ensures forall i :: 0 <= i < |s.savers| && s.savers[i].phase == Saved ==> t.savers[i].phase == Saved
  {
    match step
    case Begin(e, c) =>
      ReplayIgnoresPhases(s.initial, s.log, s.savers, t.savers);
      NotYetLogged(s.log, |s.savers|);
      forall i | 0 <= i < |s.savers| ensures SaverInv(t, i) { assert SaverInv(s, i); }
    case Proceed(i, o) =>
      CallKeepsMap(s, i, o);
      forall j | 0 <= j < |s.savers|
        ensures SaverInv(t, j) && (s.savers[j].phase == Saved ==> t.savers[j].phase == Saved)
      {
        CallKeepsSaver(s, i, o, j);
      }
  }

  /** In every reachable state of every interleaving, the map is the initial data with the accepted
      Updates applied in order, and every successful save is exactly one of them. */
  lemma {:induction false} MapIsReplayedLog(states: seq<State>, steps: seq<Step>, k: nat)
    requires IsRun(states, steps) && k < |states|
    ensures Inv(states[k]) && states[k].initial == states[0].initial
  {
    if k > 0 {
      MapIsReplayedLog(states, steps, k - 1);
      StepKeepsInv(states[k - 1], states[k], steps[k - 1]);
    }
  }

  /** Later states extend earlier logs. */
  lemma {:induction false} LogGrows(states: seq<State>, steps: seq<Step>, a: nat, b: nat)
    requires IsRun(states, steps) && a <= b < |states|
    ensures states[a].log <= states[b].log && |states[a].savers| <= |states[b].savers|
    ensures forall i :: 0 <= i < |states[a].savers| ==> states[a].savers[i].event == states[b].savers[i].event
    decreases b
  {
    hide Inv;
    if a < b {
      LogGrows(states, steps, a, b - 1);
      MapIsReplayedLog(states, steps, b - 1);
      StepKeepsInv(states[b - 1], states[b], steps[b - 1]);
    }
  }

  /** The entry of the last accepted Update to `key`, if any. */
  predicate LastTo(s: State, key: string, n: nat)
    requires n < |s.log| && forall e :: e in s.log ==> e.saver < |s.savers|
  {
    && s.savers[s.log[n].saver].event.key == key
    && forall m :: n < m < |s.log| ==> s.savers[s.log[m].saver].event.key != key
  }

  /** Reading a key gives the payload of the last accepted Update to that key. */
  lemma GetReturnsLast(s: State, n: nat)
    requires Inv(s) && n < |s.log|
    requires LastTo(s, s.savers[s.log[n].saver].event.key, n)
    ensures Get(s, s.savers[s.log[n].saver].event.key) == Some(s.savers[s.log[n].saver].event)
  {
    ReplayLast(s, s.log, n);
  }

  lemma {:induction false} ReplayLast(s: State, log: seq<Entry>, n: nat)
    requires forall e :: e in log ==> e.saver < |s.savers|
    requires n < |log|
    requires var key := s.savers[log[n].saver].event.key;
      forall m :: n < m < |log| ==> s.savers[log[m].saver].event.key != key
    ensures var e := s.savers[log[n].saver].event;
      var d := Replay(s.initial, log, s.savers); e.key in d && d[e.key] == e.payload
  {
    if n < |log| - 1 { ReplayLast(s, log[..|log| - 1], n); }
  }

  /** A key no accepted Update names keeps its initial value, or stays absent. */
  lemma GetUntouched(s: State, key: string)
    requires Inv(s) && forall e :: e in s.log ==> s.savers[e.saver].event.key != key
    ensures Get(s, key) == if key in s.initial then Some(Event(key, s.initial[key])) else None
  {
    ReplayUntouched(s, s.log, key);
  }

  lemma {:induction false} ReplayUntouched(s: State, log: seq<Entry>, key: string)
    requires forall e :: e in log ==> e.saver < |s.savers|
    requires forall e :: e in log ==> s.savers[e.saver].event.key != key
    ensures var d := Replay(s.initial, log, s.savers);
      (key in d <==> key in s.initial) && (key in d ==> d[key] == s.initial[key])
  {
    if log != [] {
      assert log[|log| - 1] in log;
      ReplayUntouched(s, log[..|log| - 1], key);
    }
  }

  /** When no answer is lost, the log is exactly the successful saves, each once; a save that gave up
      left no trace. */
  lemma LogIsSuccesses(s: State, i: nat)
    requires Inv(s) && NothingLost(s.log) && i < |s.savers|
    ensures s.savers[i].phase == Saved <==> Entry(i, true) in s.log
    ensures multiset(s.log)[Entry(i, true)] <= 1
    ensures (exists e :: e in s.log && e.saver == i) <==> s.savers[i].phase == Saved
  {
    assert SaverInv(s, i);
    AcknowledgedCounts(s.log, i);
    if e :| e in s.log && e.saver == i { assert e == Entry(i, true); }
  }

  lemma {:induction false} AcknowledgedCounts(log: seq<Entry>, i: nat)
    ensures Acknowledged(log, i) == multiset(log)[Entry(i, true)]
  {
    if log != [] {
      AcknowledgedCounts(log[..|log| - 1], i);
      assert log == log[..|log| - 1] + [log[|log| - 1]];
    }
  }

  /** A save that had succeeded before another began is replayed before it: the order of the log
      respects the order in which callers saw saves end and begin. */
  lemma RealTimeOrder(states: seq<State>, steps: seq<Step>, a: nat, b: nat, i: nat, j: nat, n: nat)
    requires IsRun(states, steps) && a <= b < |states|
    requires i < |states[a].savers| && states[a].savers[i].phase == Saved
    requires j >= |states[a].savers|
    requires n < |states[b].log| && states[b].log[n].saver == j
    ensures exists m :: 0 <= m < n && states[b].log[m] == Entry(i, true)
  {
    MapIsReplayedLog(states, steps, a);
    LogGrows(states, steps, a, b);
    assert SaverInv(states[a], i);
    AcknowledgedCounts(states[a].log, i);
    assert Entry(i, true) in multiset(states[a].log);
    var m :| 0 <= m < |states[a].log| && states[a].log[m] == Entry(i, true);
    assert states[b].log[m] == Entry(i, true);
    forall k | 0 <= k < |states[a].log| ensures states[b].log[k].saver != j {
      assert states[b].log[k] == states[a].log[k] && states[a].log[k] in states[a].log;
    }
  }

  // ----- how often a save tries -----

  /** The step ends an attempt of save `i` without success: it reads again, or gives up. */
  predicate EndsAttempt(s: State, t: State, step: Step, i: nat) {
    && step.Proceed? && step.i == i && i < |s.savers| && i < |t.savers|
    && (t.savers[i].phase == Reading || t.savers[i].phase == Failed)
  }

  /** The unsuccessful attempts of save `i` among the first `k` steps. */
  ghost function Attempts(states: seq<State>, steps: seq<Step>, k: nat, i: nat): nat
    requires k <= |steps| && |states| == |steps| + 1
  {
    if k == 0 then 0
    else Attempts(states, steps, k - 1, i) + if EndsAttempt(states[k - 1], states[k], steps[k - 1], i) then 1 else 0
  }

  /** A save may fail in any number of calls, but it gives up exactly after five unsuccessful attempts, and
      until then has as many left as it has not used. */
  lemma {:induction false} GivesUpAfterFive(states: seq<State>, steps: seq<Step>, k: nat, i: nat)
    requires IsRun(states, steps) && k <= |steps| && i < |states[k].savers|
    ensures var v := states[k].savers[i];
      && v.steps == 5 - Attempts(states, steps, k, i)
      && (v.phase == Failed <==> Attempts(states, steps, k, i) == 5)
    decreases k
  {
    hide Call, EndsAttempt;
    if k > 0 {
      var s, t, step := states[k - 1], states[k], steps[k - 1];
      assert Next(s, t, step);
      if i < |s.savers| {
        GivesUpAfterFive(states, steps, k - 1, i);
        StepTries(s, t, step, i);
      } else {
        StartTries(s, t, step, i);
        NotYetTried(states, steps, k - 1, i);
      }
    }
  }

  lemma StepTries(s: State, t: State, step: Step, i: nat)
    requires Next(s, t, step) && i < |s.savers| && 0 <= s.savers[i].steps && (s.savers[i].phase == Failed <==> s.savers[i].steps == 0)
    ensures i < |t.savers|
    ensures t.savers[i].steps == s.savers[i].steps - if EndsAttempt(s, t, step, i) then 1 else 0
    ensures t.savers[i].phase == Failed <==> t.savers[i].steps == 0
  {
  }

  lemma StartTries(s: State, t: State, step: Step, i: nat)
    requires Next(s, t, step) && |s.savers| <= i < |t.savers|
    ensures !EndsAttempt(s, t, step, i) && t.savers[i].phase == Reading && t.savers[i].steps == 5
  {
  }

  lemma {:induction false} NotYetTried(states: seq<State>, steps: seq<Step>, k: nat, i: nat)
    requires IsRun(states, steps) && k <= |steps| && i >= |states[k].savers|
    ensures Attempts(states, steps, k, i) == 0
    decreases k
  {
    if k > 0 {
      assert Next(states[k - 1], states[k], steps[k - 1]);
      NotYetTried(states, steps, k - 1, i);
    }
  }

  // ----- with and without a map -----

  /** Calls of one save that all succeed. */
  function CallsOf(s: State, i: nat, n: nat): (t: State)
    requires i < |s.savers|
    ensures |t.savers| == |s.savers|
    decreases n
  {
    if n == 0 || !Active(s.savers[i].phase) then s else CallsOf(Call(s, i, Ok), i, n - 1)
  }

  /** A save that nobody disturbs stores its event and leaves the other keys alone, in three calls at most: the map
      is made first if there is none and the save may make it. */
  lemma SavesUndisturbed(s: State, i: nat, key: string)
    requires i < |s.savers| && s.savers[i].phase == Reading && (s.cm.Some? || s.savers[i].createIfNotExist)
    ensures var t, e := CallsOf(s, i, 3), s.savers[i].event;
      && t.savers[i].phase == Saved
      && Get(t, e.key) == Some(e) && (key != e.key ==> Get(t, key) == Get(s, key))
  {
    var a := Call(s, i, Ok);
    var b := Call(a, i, Ok);
    assert CallsOf(s, i, 3) == CallsOf(a, i, 2) == CallsOf(b, i, 1);
    if s.cm.None? { assert CallsOf(b, i, 1) == CallsOf(Call(b, i, Ok), i, 0); }
  }

  /** Saves that may not make the map never do: without a map nothing is ever stored. */
  lemma {:induction false} NeverCreated(states: seq<State>, steps: seq<Step>, k: nat)
    requires IsRun(states, steps) && k < |states| && states[0].cm.None?
    requires forall j :: 0 <= j < |steps| && steps[j].Begin? ==> !steps[j].createIfNotExist
    ensures states[k].cm.None? && states[k].log == []
    ensures forall i :: 0 <= i < |states[k].savers| ==>
      !states[k].savers[i].createIfNotExist && (states[k].savers[i].phase == Reading || states[k].savers[i].phase == Failed)
  {
    if k > 0 {
      NeverCreated(states, steps, k - 1);
      assert Next(states[k - 1], states[k], steps[k - 1]);
    }
  }
}
