/** The event-bus connection daemon of one trigger (pkg/sensors/listener.go, listenEvents) as steps.

    The daemon and the subscription goroutines it launches interleave at every access to what they
    share: the lock `subLock`, the wait group `wg1` and the unbuffered channel `closeSubCh`. Subscribe reads
    that channel once: a signal, like the cancellation, makes it shut down and return
    (pkg/eventbus/jetstream/sensor/trigger_conn.go, and the same for STAN and Kafka). */
module SubscriptionDaemon {

  /** Where a subscription goroutine stands: not scheduled yet, setting up inside Subscribe, listening for
      a close signal or the cancellation, shutting down after one of them, back from Subscribe, past the
      deferred release of the lock, past the deferred Done. */
  datatype Phase = Launched | Subscribing | Listening | Closing | Leaving | Released | Ended

  /** Where the daemon stands. `Adding` and `Spawning` are the two halves of subscribeFunc. */
  datatype Pc = Locking | Adding | Spawning | Selecting | Ticked | Reconnected | Sending | Sleeping
              | Checking | Waiting | Returned

  datatype State = State(subLock: nat, wg: int, subs: seq<Phase>, pc: Pc, cancelled: bool)

  const START := State(0, 0, [], Locking, false)

  datatype Step =
    | CompareAndSwap | AddOne | Spawn | Tick | SeeCancel
    | ConnectionAlive | ReconnectFails | Reconnect
    | LoadLock | SendClose(receiver: nat) | Wake | FindAlive | FindClosed | WaitDone
    | Run(i: nat) | Listen(i: nat) | Notice(i: nat) | Leave(i: nat) | Release(i: nat) | Done(i: nat) | Cancel

  ghost predicate Enabled(s: State, a: Step) {
    match a
    case CompareAndSwap => s.pc == Locking
    case AddOne => s.pc == Adding
    case Spawn => s.pc == Spawning
    case Tick => s.pc == Selecting
    case SeeCancel => s.pc == Selecting && s.cancelled
    case ConnectionAlive => s.pc == Ticked
    case ReconnectFails => s.pc == Ticked
    case Reconnect => s.pc == Ticked
    case LoadLock => s.pc == Reconnected
    case SendClose(i) => s.pc == Sending && i < |s.subs| && s.subs[i] == Listening
    case Wake => s.pc == Sleeping
    case FindAlive => s.pc == Checking
    case FindClosed => s.pc == Checking
    case WaitDone => s.pc == Waiting && s.wg == 0
    case Run(i) => i < |s.subs| && s.subs[i] == Launched
    case Listen(i) => i < |s.subs| && s.subs[i] == Subscribing
    case Notice(i) => i < |s.subs| && s.subs[i] == Listening && s.cancelled
    case Leave(i) => i < |s.subs| && (s.subs[i] == Subscribing || s.subs[i] == Closing)
    case Release(i) => i < |s.subs| && s.subs[i] == Leaving
    case Done(i) => i < |s.subs| && s.subs[i] == Released
    case Cancel => true
  }

  function Apply(s: State, a: Step): State
    requires Enabled(s, a)
  {
    match a
    case CompareAndSwap => if s.subLock == 0 then s.(subLock := 1, pc := Adding) else s.(pc := Selecting)
    case AddOne => s.(wg := s.wg + 1, pc := Spawning)
    case Spawn => s.(subs := s.subs + [Launched], pc := Selecting)
    case Tick => s.(pc := Ticked)
    case SeeCancel => s.(pc := Waiting)
    case ConnectionAlive => s.(pc := Checking)
    case ReconnectFails => s.(pc := Selecting)
    case Reconnect => s.(pc := Reconnected)
    case LoadLock => s.(pc := if s.subLock == 1 then Sending else Checking)
    case SendClose(i) => s.(subs := s.subs[i := Closing], pc := Sleeping)
    case Wake => s.(pc := Checking)
    case FindAlive => s.(pc := Locking)
    case FindClosed => s.(pc := Selecting)
    case WaitDone => s.(pc := Returned)
    case Run(i) => s.(subs := s.subs[i := Subscribing])
    case Listen(i) => s.(subs := s.subs[i := Listening])
    case Notice(i) => s.(subs := s.subs[i := Closing])
    case Leave(i) => s.(subs := s.subs[i := Leaving])
    case Release(i) => s.(subs := s.subs[i := Released], subLock := 0)
    case Done(i) => s.(subs := s.subs[i := Ended], wg := s.wg - 1)
    case Cancel => s.(cancelled := true)
  }

  ghost predicate IsRun(states: seq<State>, steps: seq<Step>) {
    && |states| == |steps| + 1
    && forall k :: 0 <= k < |steps| ==> Enabled(states[k], steps[k]) && states[k + 1] == Apply(states[k], steps[k])
  }

  function Count(subs: seq<Phase>, among: set<Phase>): nat {
    if subs == [] then 0 else Count(subs[1..], among) + if subs[0] in among then 1 else 0
  }

  const UNRELEASED := {Launched, Subscribing, Listening, Closing, Leaving}
  const LIVE := {Launched, Subscribing, Listening, Closing, Leaving, Released}

  lemma {:induction false} CountUpdate(subs: seq<Phase>, i: nat, p: Phase, among: set<Phase>)
    requires i < |subs|
    ensures Count(subs[i := p], among)
         == Count(subs, among) - (if subs[i] in among then 1 else 0) + (if p in among then 1 else 0)
  {
    if i > 0 {
      assert subs[i := p][1..] == subs[1..][i - 1 := p];
      CountUpdate(subs[1..], i - 1, p, among);
    } else {
      assert subs[0 := p][1..] == subs[1..];
    }
  }

  lemma {:induction false} CountAppend(subs: seq<Phase>, p: Phase, among: set<Phase>)
    ensures Count(subs + [p], among) == Count(subs, among) + if p in among then 1 else 0
  {
    if subs == [] {
      assert [p][1..] == [];
    } else {
      assert (subs + [p])[1..] == subs[1..] + [p];
      CountAppend(subs[1..], p, among);
    }
  }

  lemma {:induction false} CountAtLeast(subs: seq<Phase>, i: nat, j: int, among: set<Phase>)
    requires i < |subs| && subs[i] in among
    ensures Count(subs, among) >= 1
    ensures i < j < |subs| && subs[j] in among ==> Count(subs, among) >= 2
  {
    if i > 0 {
      CountAtLeast(subs[1..], i - 1, j - 1, among);
    } else if i < j < |subs| && subs[j] in among {
      CountAtLeast(subs[1..], j - 1, j - 1, among);
    }
  }

  lemma {:induction false} CountZero(subs: seq<Phase>, among: set<Phase>)
    requires forall i :: 0 <= i < |subs| ==> subs[i] !in among
    ensures Count(subs, among) == 0
  {
    if subs != [] { CountZero(subs[1..], among); }
  }

  /** The lock counts the unreleased subscriptions and the launch under way; the wait group counts the
      goroutines that have not ended and the one about to be spawned. */
  ghost predicate Inv(s: State) {
    && s.subLock == Count(s.subs, UNRELEASED) + (if s.pc == Adding || s.pc == Spawning then 1 else 0)
    && s.subLock <= 1
    && s.wg == Count(s.subs, LIVE) + (if s.pc == Spawning then 1 else 0)
    && (s.pc == Returned ==> s.wg == 0)
  }

  lemma StepKeepsInv(s: State, a: Step)
    requires Inv(s) && Enabled(s, a)
    ensures Inv(Apply(s, a))
  {
    hide Count;
    match a
    case Spawn =>
      CountAppend(s.subs, Launched, UNRELEASED);
      CountAppend(s.subs, Launched, LIVE);
    case Run(i) => SubStep(s, i, Subscribing);
    case SendClose(i) => SubStep(s, i, Closing);
    case Listen(i) => SubStep(s, i, Listening);
    case Notice(i) => SubStep(s, i, Closing);
    case Leave(i) => SubStep(s, i, Leaving);
    case Release(i) => SubStep(s, i, Released);
    case Done(i) => SubStep(s, i, Ended);
    case _ =>
  }

  lemma SubStep(s: State, i: nat, p: Phase)
    requires i < |s.subs|
    ensures forall among | among == UNRELEASED || among == LIVE ::
      Count(s.subs[i := p], among)
        == Count(s.subs, among) - (if s.subs[i] in among then 1 else 0) + (if p in among then 1 else 0)
    ensures s.subs[i] in UNRELEASED ==> Count(s.subs, UNRELEASED) >= 1
    ensures s.subs[i] in LIVE ==> Count(s.subs, LIVE) >= 1
  {
    CountUpdate(s.subs, i, p, UNRELEASED);
    CountUpdate(s.subs, i, p, LIVE);
    if s.subs[i] in UNRELEASED { CountAtLeast(s.subs, i, i, UNRELEASED); }
    if s.subs[i] in LIVE { CountAtLeast(s.subs, i, i, LIVE); }
  }

  lemma {:induction false} RunKeepsInv(states: seq<State>, steps: seq<Step>, k: nat)
    requires IsRun(states, steps) && states[0] == START && k < |states|
    ensures Inv(states[k])
  {
    if k > 0 {
      RunKeepsInv(states, steps, k - 1);
      StepKeepsInv(states[k - 1], steps[k - 1]);
    }
  }

  /** In every interleaving the lock is held exactly when one subscription is being launched or has been
      launched and not released, and there are never two of them. */
  lemma OneSubscription(states: seq<State>, steps: seq<Step>, k: nat)
    requires IsRun(states, steps) && states[0] == START && k < |states|
    ensures var s := states[k];
      && (s.subLock == 1 <==> s.pc == Adding || s.pc == Spawning || exists i :: 0 <= i < |s.subs| && s.subs[i] in UNRELEASED)
      && (forall i, j :: 0 <= i < j < |s.subs| && s.subs[i] in UNRELEASED ==> s.subs[j] !in UNRELEASED)
      && (s.pc == Adding || s.pc == Spawning ==> forall i :: 0 <= i < |s.subs| ==> s.subs[i] !in UNRELEASED)
  {
    RunKeepsInv(states, steps, k);
    var s := states[k];
    forall i, j | 0 <= i < j < |s.subs| && s.subs[i] in UNRELEASED ensures s.subs[j] !in UNRELEASED {
      CountAtLeast(s.subs, i, j, UNRELEASED);
    }
    forall i | 0 <= i < |s.subs| && s.subs[i] in UNRELEASED
      ensures s.subLock == 1 && s.pc != Adding && s.pc != Spawning
    {
      CountAtLeast(s.subs, i, i, UNRELEASED);
    }
    if forall i :: 0 <= i < |s.subs| ==> s.subs[i] !in UNRELEASED { CountZero(s.subs, UNRELEASED); }
  }

  /** When the daemon has returned, every subscription goroutine it ever launched has ended. */
  lemma ReturnsLast(states: seq<State>, steps: seq<Step>, k: nat)
    requires IsRun(states, steps) && states[0] == START && k < |states| && states[k].pc == Returned
    ensures forall i :: 0 <= i < |states[k].subs| ==> states[k].subs[i] == Ended
  {
    RunKeepsInv(states, steps, k);
    var s := states[k];
    forall i | 0 <= i < |s.subs| ensures s.subs[i] == Ended {
      if s.subs[i] != Ended { CountAtLeast(s.subs, i, i, LIVE); }
    }
  }

  /** A subscription listens until the daemon signals it or everything is cancelled, and nothing else ends it. */
  lemma ListensUntilTold(s: State, a: Step, i: nat)
    requires Enabled(s, a) && i < |s.subs| && s.subs[i] == Listening
    ensures Apply(s, a).subs[i] != Listening ==> a == SendClose(i) || s.cancelled
  {
  }

  /** The daemon ends only when it has been cancelled: a failed reconnection, like a closed connection, sends
      it back to waiting for the next tick. */
  lemma {:induction false} EndsOnlyWhenCancelled(states: seq<State>, steps: seq<Step>, k: nat)
    requires IsRun(states, steps) && states[0] == START && k < |states|
    ensures states[k].pc == Waiting || states[k].pc == Returned ==> states[k].cancelled
  {
    if k > 0 {
      EndsOnlyWhenCancelled(states, steps, k - 1);
      assert Enabled(states[k - 1], steps[k - 1]);
    }
  }

  /** Until then it comes back to select after every tick, unless it waits to hand over a close signal. */
  lemma ReturnsToSelect(s: State)
    requires s.pc == Ticked
    ensures Enabled(s, ReconnectFails) && Apply(s, ReconnectFails) == s.(pc := Selecting)
    ensures Enabled(s, ConnectionAlive) && Apply(s, ConnectionAlive) == s.(pc := Checking)
    ensures Enabled(s.(pc := Checking), FindClosed) && Apply(s.(pc := Checking), FindClosed) == s.(pc := Selecting)
  {
  }

  // ----- the close signal -----

  /** A subscription that takes, or may yet take, a close signal. Each takes one at most: it then shuts down. */
  predicate MayListen(p: Phase) { p == Launched || p == Subscribing || p == Listening }

  /** The daemon waits to hand over a close signal that no subscription is left to take. */
  predicate Stuck(s: State) {
    s.pc == Sending && forall i :: 0 <= i < |s.subs| ==> !MayListen(s.subs[i])
  }

  /** With nobody left to take the close signal the daemon waits for ever: no step of anyone, cancellation
      included, lets it go on. */
  lemma {:induction false} StuckForever(states: seq<State>, steps: seq<Step>, k: nat, n: nat)
    requires IsRun(states, steps) && k <= n < |states| && Stuck(states[k])
    ensures Stuck(states[n])
    decreases n
  {
    if k < n {
      StuckForever(states, steps, k, n - 1);
      assert Enabled(states[n - 1], steps[n - 1]);
    }
  }

  /** While the daemon waits to send, some continuation lets it go on exactly when it is not stuck. */
  lemma SendingProceedsExactly(s: State)
    requires s.pc == Sending
    ensures !Stuck(s) <==>
      exists states: seq<State>, steps: seq<Step> :: IsRun(states, steps) && states[0] == s && states[|steps|].pc == Sleeping
  {
    if !Stuck(s) {
      var i :| 0 <= i < |s.subs| && MayListen(s.subs[i]);
      var states, steps := Proceed(s, i);
    } else {
      forall states: seq<State>, steps: seq<Step> | IsRun(states, steps) && states[0] == s ensures states[|steps|].pc != Sleeping {
        StuckForever(states, steps, 0, |steps|);
      }
    }
  }

  lemma Proceed(s: State, i: nat) returns (states: seq<State>, steps: seq<Step>)
    requires s.pc == Sending && i < |s.subs| && MayListen(s.subs[i])
    ensures IsRun(states, steps) && states[0] == s && states[|steps|].pc == Sleeping
  {
    hide IsRun;
    states, steps := Begin(s);
    if s.subs[i] == Launched { states, steps := Then(states, steps, Run(i)); }
    if states[|steps|].subs[i] == Subscribing { states, steps := Then(states, steps, Listen(i)); }
    states, steps := Then(states, steps, SendClose(i));
  }

  // ----- ways into it -----

  lemma Begin(s: State) returns (states: seq<State>, steps: seq<Step>)
    ensures IsRun(states, steps) && |states| == 1 && |steps| == 0 && states[0] == s
  {
    states, steps := [s], [];
  }

  /** A run goes on with one more step. */
  lemma Then(states: seq<State>, steps: seq<Step>, a: Step) returns (more: seq<State>, moreSteps: seq<Step>)
    requires IsRun(states, steps) && |states| == |steps| + 1 && Enabled(states[|steps|], a)
    ensures IsRun(more, moreSteps) && moreSteps == steps + [a] && |more| == |moreSteps| + 1 && more[0] == states[0]
    ensures more[|moreSteps|] == Apply(states[|steps|], a)
  {
    hide Enabled, Apply;
    more, moreSteps := states + [Apply(states[|steps|], a)], steps + [a];
  }

  /** From the start to a subscription that is being set up. */
  lemma Subscribed() returns (states: seq<State>, steps: seq<Step>)
    ensures IsRun(states, steps) && |states| == |steps| + 1 && states[0] == START
    ensures states[|steps|] == State(1, 1, [Subscribing], Selecting, false)
  {
    hide IsRun;
    states, steps := Begin(START);
    states, steps := Then(states, steps, CompareAndSwap);
    states, steps := Then(states, steps, AddOne);
    states, steps := Then(states, steps, Spawn);
    states, steps := Then(states, steps, Run(0));
  }

  /** The connection is lost and made again, and the lock is seen held. */
  lemma Reconnects(states: seq<State>, steps: seq<Step>, s: State) returns (more: seq<State>, moreSteps: seq<Step>)
    requires IsRun(states, steps) && |states| == |steps| + 1 && states[|steps|] == s && s.pc == Selecting && s.subLock == 1
    ensures IsRun(more, moreSteps) && |more| == |moreSteps| + 1 && more[0] == states[0]
    ensures more[|moreSteps|] == s.(pc := Sending)
  {
    hide IsRun;
    more, moreSteps := Then(states, steps, Tick);
    more, moreSteps := Then(more, moreSteps, Reconnect);
    more, moreSteps := Then(more, moreSteps, LoadLock);
  }

  /** One way: setting up the subscription fails just after the daemon has seen the lock held. */
  lemma StuckAfterFailedSetup() returns (states: seq<State>, steps: seq<Step>)
    ensures IsRun(states, steps) && states[0] == START && Stuck(states[|steps|]) && !states[|steps|].cancelled
  {
    hide IsRun;
    states, steps := Subscribed();
    states, steps := Reconnects(states, steps, states[|steps|]);
    states, steps := Then(states, steps, Leave(0));
  }

  /** Another way: the subscription took a signal, its shutdown outlasts the pause and the next tick, the
      new connection is lost as well, and the lock is still held. */
  lemma StuckAfterSlowShutdown() returns (states: seq<State>, steps: seq<Step>)
    ensures IsRun(states, steps) && states[0] == START && Stuck(states[|steps|]) && !states[|steps|].cancelled
    ensures states[|steps|].subLock == 1
  {
    hide IsRun;
    states, steps := Subscribed();
    states, steps := Then(states, steps, Listen(0));
    states, steps := Reconnects(states, steps, states[|steps|]);
    states, steps := Then(states, steps, SendClose(0));
    states, steps := Then(states, steps, Wake);
    states, steps := Then(states, steps, FindAlive);
    states, steps := Then(states, steps, CompareAndSwap);
    states, steps := Reconnects(states, steps, states[|steps|]);
  }

  /** A third: the subscription listens, but the cancellation reaches it before the signal does. The sensor
      cannot shut down then. */
  lemma StuckAfterCancel() returns (states: seq<State>, steps: seq<Step>)
    ensures IsRun(states, steps) && states[0] == START && Stuck(states[|steps|]) && states[|steps|].cancelled
  {
    hide IsRun;
    states, steps := Subscribed();
    states, steps := Then(states, steps, Listen(0));
    states, steps := Reconnects(states, steps, states[|steps|]);
    states, steps := Then(states, steps, Cancel);
    states, steps := Then(states, steps, Notice(0));
  }
}
