/** Running a trigger's action (pkg/sensors/listener.go, actionFunc, triggerActions, triggerWithRateLimit;
    pkg/shared/util/retry.go; pkg/reconciler/sensor/validate.go, validateDlqTrigger): attempts, the
    dead-letter trigger and the metrics, over every interleaving of any number of actions. */
module ActionRetry {
  import opened Wrappers

  // ----- back-off configuration -----

  /** A configured amount: its text and what parsing it gives. */
  datatype Amount = Amount(text: string, parsed: Option<real>)

  /** A duration is a number of nanoseconds or a text, with what parsing the text gives. */
  datatype Duration = Nanos(n: int) | Text(text: string, parsed: Option<int>)

  datatype Backoff = Backoff(duration: Option<Duration>, factor: Option<Amount>, jitter: Option<Amount>, steps: int)

  datatype WaitBackoff = WaitBackoff(duration: int, factor: real, jitter: real, steps: int)

  const DEFAULT_STEPS := 5

  const ONCE := Backoff(None, None, None, 1)

  function DurationOf(b: Backoff): Result<int, string> {
    match b.duration
    case None => Success(1_000_000_000)
    case Some(Nanos(n)) => Success(n)
    case Some(Text(_, parsed)) => if parsed.Some? then Success(parsed.value) else Failure("invalid duration")
  }

  function AmountOf(a: Option<Amount>, what: string): Result<real, string> {
    match a
    case None => Success(1.0)
    case Some(amount) => if amount.parsed.Some? then Success(amount.parsed.value) else Failure("invalid " + what)
  }

  function Convert2WaitBackoff(b: Backoff): (r: Result<WaitBackoff, string>)
    ensures r.Success? ==> r.value.steps > 0
  {
    var d :- DurationOf(b);
    var f :- AmountOf(b.factor, "factor");
    var j :- AmountOf(b.jitter, "jitter");
    Success(WaitBackoff(d, f, j, if b.steps > 0 then b.steps else DEFAULT_STEPS))
  }

  /** The wait before the second attempt is the configured one, or a second; factor and jitter are the
      configured amounts, or one. */
  lemma WaitExactly(b: Backoff)
    requires Convert2WaitBackoff(b).Success?
    ensures var w := Convert2WaitBackoff(b).value;
      && w.duration == (if b.duration.None? then 1_000_000_000
                        else if b.duration.value.Nanos? then b.duration.value.n else b.duration.value.parsed.GetOr(0))
      && w.factor == (if b.factor.Some? then b.factor.value.parsed.GetOr(0.0) else 1.0)
      && w.jitter == (if b.jitter.Some? then b.jitter.value.parsed.GetOr(0.0) else 1.0)
  {
  }

  // ----- triggers -----

  datatype Trigger = Trigger(name: string, atLeastOnce: bool, retryStrategy: Option<Backoff>, dlqTrigger: Option<Trigger>)

  /** The retry strategy an action goes by: none means a single attempt. */
  function StrategyOf(t: Trigger): Backoff {
    if t.retryStrategy.Some? then t.retryStrategy.value else ONCE
  }

  predicate Usable(t: Trigger) { Convert2WaitBackoff(StrategyOf(t)).Success? }

  /** The most executions one action may cost. A fire-and-forget execution is never repeated: the
      goroutine it runs in has no caller to report its failure to. */
  function Limit(t: Trigger): nat
    requires Usable(t)
  {
    if t.atLeastOnce then Convert2WaitBackoff(StrategyOf(t)).value.steps else 1
  }

  /** The limit in terms of the configuration: a positive step count, five for any other, one without a
      strategy, and one execution if the trigger need not run at least once. */
  lemma LimitExactly(t: Trigger)
    requires Usable(t)
    ensures t.atLeastOnce && t.retryStrategy.Some? && t.retryStrategy.value.steps > 0 ==> Limit(t) == t.retryStrategy.value.steps
    ensures t.atLeastOnce && t.retryStrategy.Some? && t.retryStrategy.value.steps <= 0 ==> Limit(t) == 5
    ensures !t.atLeastOnce || t.retryStrategy.None? ==> Limit(t) == 1
  {
  }

  /** A strategy can be read exactly when each of its texts can; what is not set is never in the way. */
  lemma UsableExactly(t: Trigger)
    ensures Usable(t) <==>
      t.retryStrategy.Some? ==>
        var b := t.retryStrategy.value;
        && (b.duration.Some? && b.duration.value.Text? ==> b.duration.value.parsed.Some?)
        && (b.factor.Some? ==> b.factor.value.parsed.Some?) && (b.jitter.Some? ==> b.jitter.value.parsed.Some?)
  {
  }

  /** Validation: a trigger with a dead-letter trigger and that trigger run at least once. */
  predicate ValidateDlqTrigger(t: Trigger) {
    t.dlqTrigger.Some? ==> t.atLeastOnce && t.dlqTrigger.value.atLeastOnce && ValidateDlqTrigger(t.dlqTrigger.value)
  }

  // ----- the state of one action -----

  datatype Level = Main | Dlq

  /** Where an action stands: retrying at a level, out of attempts there and about to count it, left to a
      goroutine, about to count that goroutine's failure, or over. */
  datatype Where = Trying(level: Level) | GaveUp(level: Level) | Background(level: Level) | Lost(level: Level) | Ended

  /** One call of the action function: what its executions came to at each level and which failures it
      has counted under action_retries_failed_total. */
  datatype Act = Act(trigger: Trigger, at: Where, main: seq<bool>, dlq: seq<bool>, counted: multiset<string>)

  predicate HasLevel(t: Trigger, l: Level) { l == Main || t.dlqTrigger.Some? }

  function At(t: Trigger, l: Level): Trigger
    requires HasLevel(t, l)
  {
    if l == Main then t else t.dlqTrigger.value
  }

  function Outcomes(a: Act, l: Level): seq<bool> { if l == Main then a.main else a.dlq }

  function WithOutcome(a: Act, l: Level, ok: bool): Act {
    if l == Main then a.(main := a.main + [ok]) else a.(dlq := a.dlq + [ok])
  }

  /** Retrying begins, or has already failed because the strategy cannot be read. */
  function Enter(t: Trigger, l: Level): Where
    requires HasLevel(t, l)
  {
    if Usable(At(t, l)) then Trying(l) else GaveUp(l)
  }

  datatype Step = Start(trigger: Trigger) | Attempt(act: nat, ok: bool) | Spawn(act: nat) | Finish(act: nat, ok: bool)
                | Count(act: nat)

  /** The steps an action can take by itself. */
  predicate CanStep(a: Act, step: Step) {
    match step
    case Start(_) => false
    case Attempt(_, _) =>
      a.at.Trying? && HasLevel(a.trigger, a.at.level) && At(a.trigger, a.at.level).atLeastOnce && Usable(At(a.trigger, a.at.level))
    case Spawn(_) => a.at.Trying? && HasLevel(a.trigger, a.at.level) && !At(a.trigger, a.at.level).atLeastOnce
    case Finish(_, _) => a.at.Background? && HasLevel(a.trigger, a.at.level)
    case Count(_) => (a.at.GaveUp? || a.at.Lost?) && HasLevel(a.trigger, a.at.level)
  }

  function NextAct(a: Act, step: Step): Act
    requires CanStep(a, step)
  {
    var l := a.at.level;
    match step
    case Attempt(_, ok) =>
      var b := WithOutcome(a, l, ok);
      b.(at := if ok then Ended else if |Outcomes(b, l)| < Limit(At(a.trigger, l)) then Trying(l) else GaveUp(l))
    case Spawn(_) => a.(at := Background(l))
    case Finish(_, ok) => WithOutcome(a, l, ok).(at := if ok then Ended else Lost(l))
    case Count(_) =>
      a.(counted := a.counted + multiset{At(a.trigger, l).name},
         at := if a.at.GaveUp? && l == Main && a.trigger.dlqTrigger.Some? then Enter(a.trigger, Dlq) else Ended)
  }

  // ----- all actions and the metrics -----

  datatype State = State(acts: seq<Act>, triggered: multiset<string>, failed: multiset<string>, retriesFailed: multiset<string>)

  const INIT := State([], multiset{}, multiset{}, multiset{})

  predicate Enabled(s: State, step: Step) {
    step.Start? || (step.act < |s.acts| && CanStep(s.acts[step.act], step))
  }

  /** The trigger a step is about. */
  function Subject(s: State, step: Step): Trigger
    requires Enabled(s, step) && !step.Start?
  {
    At(s.acts[step.act].trigger, s.acts[step.act].at.level)
  }

  predicate Executes(step: Step, ok: bool) { (step.Attempt? || step.Finish?) && step.ok == ok }

  function Next(s: State, step: Step): State
    requires Enabled(s, step)
  {
    if step.Start? then s.(acts := s.acts + [Act(step.trigger, Enter(step.trigger, Main), [], [], multiset{})])
    else
      var name := multiset{Subject(s, step).name};
      State(s.acts[step.act := NextAct(s.acts[step.act], step)],
            if Executes(step, true) then s.triggered + name else s.triggered,
            if Executes(step, false) then s.failed + name else s.failed,
            if step.Count? then s.retriesFailed + name else s.retriesFailed)
  }

  predicate IsRun(steps: seq<Step>)
    decreases |steps|, 0
  {
    steps == [] || (IsRun(steps[..|steps| - 1]) && Enabled(Play(steps[..|steps| - 1]), steps[|steps| - 1]))
  }

  function Play(steps: seq<Step>): State
    requires IsRun(steps)
    decreases |steps|, 1
  {
    if steps == [] then INIT else Next(Play(steps[..|steps| - 1]), steps[|steps| - 1])
  }

  lemma OneMoreStep(steps: seq<Step>, step: Step)
    requires IsRun(steps) && Enabled(Play(steps), step)
    ensures IsRun(steps + [step]) && Play(steps + [step]) == Next(Play(steps), step)
  {
    hide Enabled, Next;
    assert (steps + [step])[..|steps|] == steps && (steps + [step])[|steps|] == step;
  }

  // ----- what the outcomes say -----

  predicate AllFail(outs: seq<bool>) { forall i :: 0 <= i < |outs| ==> !outs[i] }

  /** Some execution succeeded, and it was the last one. */
  predicate StopsAtSuccess(outs: seq<bool>) { outs != [] && outs[|outs| - 1] && AllFail(outs[..|outs| - 1]) }

  /** The action came to nothing at this level: it could not be tried, or every execution failed. */
  predicate Exhausted(t: Trigger, outs: seq<bool>) {
    Usable(t) ==> |outs| == Limit(t) && AllFail(outs)
  }

  /** The main level ended with the caller knowing that it failed, so the dead-letter trigger is run. */
  predicate CallsDlq(t: Trigger, main: seq<bool>) {
    t.dlqTrigger.Some? && Exhausted(t, main) && (t.atLeastOnce || !Usable(t))
  }

  /** The retries-failed counts that the outcomes alone call for. */
  function Deserved(t: Trigger, main: seq<bool>, dlq: seq<bool>): multiset<string> {
    (if Exhausted(t, main) then multiset{t.name} else multiset{})
    + (if CallsDlq(t, main) && Exhausted(t.dlqTrigger.value, dlq) then multiset{t.dlqTrigger.value.name} else multiset{})
  }

  /** The counts an action has still to make for failures that have already happened. */
  function Owed(a: Act): multiset<string> {
    match a.at
    case GaveUp(Main) =>
      multiset{a.trigger.name}
      + (if a.trigger.dlqTrigger.Some? && !Usable(a.trigger.dlqTrigger.value)
         then multiset{a.trigger.dlqTrigger.value.name} else multiset{})
    case GaveUp(Dlq) => if a.trigger.dlqTrigger.Some? then multiset{a.trigger.dlqTrigger.value.name} else multiset{}
    case Lost(l) => if HasLevel(a.trigger, l) then multiset{At(a.trigger, l).name} else multiset{}
    case _ => multiset{}
  }

  /** The outcomes at one level are those of a strategy still at work, given up or successful. */
  predicate LevelInv(t: Trigger, outs: seq<bool>, at: Where) {
    match at
    case Trying(_) => Usable(t) && |outs| < Limit(t) && AllFail(outs)
    case GaveUp(_) => Exhausted(t, outs) && (Usable(t) ==> t.atLeastOnce) && (!Usable(t) ==> outs == [])
    case Background(_) => Usable(t) && !t.atLeastOnce && outs == []
    case Lost(_) => Usable(t) && !t.atLeastOnce && outs == [false]
    case Ended => if Usable(t) then 0 < |outs| <= Limit(t) && (StopsAtSuccess(outs) || (|outs| == Limit(t) && AllFail(outs)))
                  else outs == []
  }

  predicate ActInv(a: Act) {
    && (a.at.Ended? || HasLevel(a.trigger, a.at.level))
    && (a.at.Ended? || a.at.level == Dlq ==> LevelInv(a.trigger, a.main, Ended))
    && (!a.at.Ended? && a.at.level == Main ==> LevelInv(a.trigger, a.main, a.at))
    && (if (a.at.Ended? || a.at.level == Dlq) && CallsDlq(a.trigger, a.main)
        then LevelInv(a.trigger.dlqTrigger.value, a.dlq, a.at) else a.dlq == [])
    && (!a.at.Ended? && a.at.level == Dlq ==> CallsDlq(a.trigger, a.main))
    && a.counted + Owed(a) == Deserved(a.trigger, a.main, a.dlq)
  }

  lemma StartInv(t: Trigger)
    ensures ActInv(Act(t, Enter(t, Main), [], [], multiset{}))
  {
    hide Convert2WaitBackoff;
  }

  lemma AppendOutcome(outs: seq<bool>, ok: bool)
    requires AllFail(outs)
    ensures ok ==> StopsAtSuccess(outs + [ok]) && !AllFail(outs + [ok])
    ensures !ok ==> AllFail(outs + [ok])
  {
    var more := outs + [ok];
    assert more[..|more| - 1] == outs;
    assert more[|more| - 1] == ok;
  }

  /** An outcome at level `l` keeps what is known of that level. */
  lemma LevelAttempt(t: Trigger, outs: seq<bool>, l: Level, ok: bool) returns (at: Where)
    requires LevelInv(t, outs, Trying(l)) && t.atLeastOnce
    ensures at == if ok then Ended else if |outs| + 1 < Limit(t) then Trying(l) else GaveUp(l)
    ensures LevelInv(t, outs + [ok], at) && (Exhausted(t, outs + [ok]) <==> at.GaveUp?) && !Exhausted(t, outs)
  {
    AppendOutcome(outs, ok);
    at := if ok then Ended else if |outs| + 1 < Limit(t) then Trying(l) else GaveUp(l);
  }

  lemma LevelFinish(t: Trigger, outs: seq<bool>, l: Level, ok: bool) returns (at: Where)
    requires LevelInv(t, outs, Background(l))
    ensures at == if ok then Ended else Lost(l)
    ensures LevelInv(t, outs + [ok], at) && (Exhausted(t, outs + [ok]) <==> !ok) && !Exhausted(t, outs)
    ensures Usable(t) && !t.atLeastOnce
  {
    AppendOutcome(outs, ok);
    at := if ok then Ended else Lost(l);
  }

  lemma AttemptKeepsInv(a: Act, step: Step)
    requires ActInv(a) && step.Attempt? && CanStep(a, step)
    ensures ActInv(NextAct(a, step))
  {
    var l := a.at.level;
    var at := LevelAttempt(At(a.trigger, l), Outcomes(a, l), l, step.ok);
    hide Usable, Limit, Exhausted, LevelInv;
    assert NextAct(a, step).at == at;
  }

  lemma FinishKeepsInv(a: Act, step: Step)
    requires ActInv(a) && step.Finish? && CanStep(a, step)
    ensures ActInv(NextAct(a, step))
  {
    var l := a.at.level;
    var at := LevelFinish(At(a.trigger, l), Outcomes(a, l), l, step.ok);
    hide Usable, Limit, Exhausted, LevelInv;
    var b := NextAct(a, step);
    assert b.at == at && Outcomes(b, l) == Outcomes(a, l) + [step.ok];
    if l == Main {
      assert b.dlq == [];
      assert Deserved(a.trigger, a.main, a.dlq) == multiset{};
    } else {
      assert LevelInv(a.trigger, a.main, Ended);
      assert CallsDlq(a.trigger, a.main);
    }
    if step.ok {
      assert Owed(b) == multiset{};
      if l == Main { assert Deserved(b.trigger, b.main, b.dlq) == multiset{}; }
      else { assert Deserved(b.trigger, b.main, b.dlq) == Deserved(a.trigger, a.main, a.dlq); }
    } else {
      assert Owed(b) == multiset{At(a.trigger, l).name};
      if l == Main { assert Deserved(b.trigger, b.main, b.dlq) == multiset{a.trigger.name}; }
      else { assert Deserved(b.trigger, b.main, b.dlq) == Deserved(a.trigger, a.main, a.dlq) + multiset{At(a.trigger, l).name}; }
    }
  }

  lemma SpawnKeepsInv(a: Act, step: Step)
    requires ActInv(a) && step.Spawn? && CanStep(a, step)
    ensures ActInv(NextAct(a, step))
  {
  }

  lemma LevelCount(t: Trigger, outs: seq<bool>, at: Where)
    requires LevelInv(t, outs, at) && (at.GaveUp? || at.Lost?)
    ensures LevelInv(t, outs, Ended) && Exhausted(t, outs)
    ensures at.GaveUp? <==> t.atLeastOnce || !Usable(t)
  {
    hide Convert2WaitBackoff;
  }

  lemma LevelEnter(t: Trigger, l: Level)
    ensures LevelInv(t, [], if Usable(t) then Trying(l) else GaveUp(l))
    ensures Exhausted(t, []) <==> !Usable(t)
  {
    hide Convert2WaitBackoff;
  }

  /** Counting the main level's failure, with or without going on to the dead-letter trigger. */
  lemma CountMain(a: Act)
    requires ActInv(a) && (a.at == GaveUp(Main) || a.at == Lost(Main))
    ensures ActInv(NextAct(a, Count(0)))
  {
    var t := a.trigger;
    LevelCount(t, a.main, a.at);
    if a.at.GaveUp? && t.dlqTrigger.Some? {
      GoOnToDlq(a);
    } else {
      hide Usable, Exhausted, LevelInv;
      assert !CallsDlq(t, a.main);
    }
  }

  lemma GoOnToDlq(a: Act)
    requires ActInv(a) && a.at == GaveUp(Main) && a.trigger.dlqTrigger.Some?
    ensures ActInv(NextAct(a, Count(0)))
  {
    var t, u := a.trigger, a.trigger.dlqTrigger.value;
    LevelCount(t, a.main, a.at);
    LevelEnter(u, Dlq);
    hide Usable, Exhausted, LevelInv;
    assert CallsDlq(t, a.main) && a.dlq == [];
    if Usable(u) {
      assert Enter(t, Dlq) == Trying(Dlq);
    } else {
      assert Enter(t, Dlq) == GaveUp(Dlq);
    }
  }

  lemma CountDlq(a: Act)
    requires ActInv(a) && (a.at == GaveUp(Dlq) || a.at == Lost(Dlq))
    ensures ActInv(NextAct(a, Count(0)))
  {
    var t := a.trigger.dlqTrigger.value;
    LevelCount(t, a.dlq, a.at);
    hide Usable, Exhausted, LevelInv;
    var b := NextAct(a, Count(0));
    assert b.counted == a.counted + multiset{t.name};
    assert Owed(a) == multiset{t.name};
  }

  lemma CountsAlike(a: Act, step: Step)
    requires step.Count? && CanStep(a, step)
    ensures NextAct(a, step) == NextAct(a, Count(0))
  {
    hide Enter;
  }

  lemma ActStepKeepsInv(a: Act, step: Step)
    requires ActInv(a) && CanStep(a, step)
    ensures ActInv(NextAct(a, step))
  {
    hide ActInv, NextAct;
    match step {
      case Start(_) =>
      case Attempt(_, _) => AttemptKeepsInv(a, step);
      case Spawn(_) => SpawnKeepsInv(a, step);
      case Finish(_, _) => FinishKeepsInv(a, step);
      case Count(_) =>
        assert NextAct(a, step) == NextAct(a, Count(0)) by { CountsAlike(a, step); }
        if a.at.level == Main { CountMain(a); } else { CountDlq(a); }
    }
  }

  // ----- what every run keeps -----

  function Tally(outs: seq<bool>, ok: bool): nat {
    if outs == [] then 0 else Tally(outs[..|outs| - 1], ok) + if outs[|outs| - 1] == ok then 1 else 0
  }

  /** One entry per execution of the action with the given outcome, under the name it is reported by. */
  function RanBy(a: Act, ok: bool): multiset<string> {
    multiset{}[a.trigger.name := Tally(a.main, ok)]
    + if a.trigger.dlqTrigger.Some? then multiset{}[a.trigger.dlqTrigger.value.name := Tally(a.dlq, ok)] else multiset{}
  }

  function ExecutedBy(a: Act): multiset<string> {
    multiset{}[a.trigger.name := |a.main|]
    + if a.trigger.dlqTrigger.Some? then multiset{}[a.trigger.dlqTrigger.value.name := |a.dlq|] else multiset{}
  }

  const TRIGGERED: Act -> multiset<string> := (a: Act) => RanBy(a, true)

  const FAILED: Act -> multiset<string> := (a: Act) => RanBy(a, false)

  const COUNTED: Act -> multiset<string> := (a: Act) => a.counted

  const EXECUTED: Act -> multiset<string> := (a: Act) => ExecutedBy(a)

  const DESERVED: Act -> multiset<string> := (a: Act) => Deserved(a.trigger, a.main, a.dlq)

  function Total(acts: seq<Act>, f: Act -> multiset<string>): multiset<string> {
    if acts == [] then multiset{} else Total(acts[..|acts| - 1], f) + f(acts[|acts| - 1])
  }

  /** An action whose measure grows by `more` makes the total grow by as much. */
  lemma {:induction false} TotalStep(acts: seq<Act>, i: nat, a: Act, f: Act -> multiset<string>, more: multiset<string>)
    requires i < |acts| && f(a) == f(acts[i]) + more
    ensures Total(acts[i := a], f) == Total(acts, f) + more
  {
    var n := |acts| - 1;
    if i < n {
      TotalStep(acts[..n], i, a, f, more);
      assert acts[i := a][..n] == acts[..n][i := a];
      AddInFront(Total(acts[..n], f), more, f(acts[n]));
    } else {
      assert acts[i := a][..n] == acts[..n];
      AddInFront(Total(acts[..n], f), f(acts[n]), more);
    }
  }

  lemma AddInFront(a: multiset<string>, b: multiset<string>, c: multiset<string>)
    ensures (a + b) + c == (a + c) + b == a + (b + c)
  {
  }

  lemma TotalAppend(acts: seq<Act>, a: Act, f: Act -> multiset<string>)
    ensures Total(acts + [a], f) == Total(acts, f) + f(a)
  {
    assert (acts + [a])[..|acts|] == acts;
  }

  ghost predicate StateInv(s: State) {
    && (forall i :: 0 <= i < |s.acts| ==> ActInv(s.acts[i]))
    && s.triggered == Total(s.acts, TRIGGERED) && s.failed == Total(s.acts, FAILED)
    && s.retriesFailed == Total(s.acts, COUNTED)
  }

  function If(b: bool, name: string): multiset<string> { if b then multiset{name} else multiset{} }

  lemma TallyAppend(outs: seq<bool>, ok: bool, which: bool)
    ensures Tally(outs + [ok], which) == Tally(outs, which) + if ok == which then 1 else 0
  {
    assert (outs + [ok])[..|outs|] == outs;
  }

  lemma RanByOutcome(a: Act, l: Level, ok: bool, which: bool)
    requires HasLevel(a.trigger, l)
    ensures RanBy(WithOutcome(a, l, ok), which) == RanBy(a, which) + If(ok == which, At(a.trigger, l).name)
  {
    TallyAppend(Outcomes(a, l), ok, which);
    hide Tally;
  }

  lemma RanByAlike(a: Act, b: Act, which: bool)
    requires a.trigger == b.trigger && a.main == b.main && a.dlq == b.dlq
    ensures RanBy(a, which) == RanBy(b, which)
  {
  }

  /** What a step adds to each metric is what it adds to the action's own record. */
  lemma StepMeasures(a: Act, step: Step)
    requires CanStep(a, step)
    ensures var b, name := NextAct(a, step), At(a.trigger, a.at.level).name;
      && RanBy(b, true) == RanBy(a, true) + If(Executes(step, true), name)
      && RanBy(b, false) == RanBy(a, false) + If(Executes(step, false), name)
      && b.counted == a.counted + If(step.Count?, name)
  {
    hide Usable, Limit, Enter, RanBy, HasLevel, At;
    var b := NextAct(a, step);
    if step.Attempt? || step.Finish? {
      var l, c := a.at.level, WithOutcome(a, a.at.level, step.ok);
      RanByOutcome(a, l, step.ok, true);
      RanByOutcome(a, l, step.ok, false);
      RanByAlike(b, c, true);
      RanByAlike(b, c, false);
    } else {
      RanByAlike(a, b, true);
      RanByAlike(a, b, false);
    }
  }

  lemma StepKeepsInv(s: State, step: Step)
    requires StateInv(s) && Enabled(s, step)
    ensures StateInv(Next(s, step))
  {
    hide ActInv, CanStep, NextAct, Total, TRIGGERED, FAILED, COUNTED;
    if step.Start? {
      StartKeepsInv(s, step.trigger);
    } else {
      StepTotals(s, step);
      ActStepKeepsInv(s.acts[step.act], step);
    }
  }

  lemma NothingRan(a: Act, which: bool)
    requires a.main == a.dlq == []
    ensures RanBy(a, which) == multiset{}
  {
  }

  lemma StartKeepsInv(s: State, t: Trigger)
    requires StateInv(s)
    ensures StateInv(Next(s, Start(t)))
  {
    hide RanBy, ActInv, Total, Enter;
    StartInv(t);
    var a := Act(t, Enter(t, Main), [], [], multiset{});
    NothingRan(a, true);
    NothingRan(a, false);
    TotalAppend(s.acts, a, TRIGGERED);
    TotalAppend(s.acts, a, FAILED);
    TotalAppend(s.acts, a, COUNTED);
  }

  lemma StepTotals(s: State, step: Step)
    requires StateInv(s) && Enabled(s, step) && !step.Start?
    ensures var t := Next(s, step);
      && t.triggered == Total(t.acts, TRIGGERED) && t.failed == Total(t.acts, FAILED)
      && t.retriesFailed == Total(t.acts, COUNTED)
  {
    var i, a, name := step.act, s.acts[step.act], Subject(s, step).name;
    var b := NextAct(a, step);
    StepMeasures(a, step);
    hide ActInv, CanStep, NextAct, Total, RanBy;
    TotalStep(s.acts, i, b, TRIGGERED, If(Executes(step, true), name));
    TotalStep(s.acts, i, b, FAILED, If(Executes(step, false), name));
    TotalStep(s.acts, i, b, COUNTED, If(step.Count?, name));
  }

  lemma {:induction false} RunKeepsInv(steps: seq<Step>)
    requires IsRun(steps)
    ensures StateInv(Play(steps))
    decreases |steps|
  {
    hide StateInv, Next, Enabled;
    if steps == [] {
      InitInv();
    } else {
      RunKeepsInv(steps[..|steps| - 1]);
      StepKeepsInv(Play(steps[..|steps| - 1]), steps[|steps| - 1]);
    }
  }

  lemma InitInv()
    ensures StateInv(INIT)
  {
  }

  /** At every moment of every run the metrics balance: per name, triggered and failed together are
      the executions so far. */
  lemma MetricsBalance(steps: seq<Step>)
    requires IsRun(steps)
    ensures Play(steps).triggered + Play(steps).failed == Total(Play(steps).acts, EXECUTED)
  {
    hide ActInv, Play, IsRun;
    RunKeepsInv(steps);
    TotalSplits(Play(steps).acts);
  }

  lemma {:induction false} TotalSplits(acts: seq<Act>)
    ensures Total(acts, TRIGGERED) + Total(acts, FAILED) == Total(acts, EXECUTED)
  {
    if acts != [] {
      var a := acts[|acts| - 1];
      TotalSplits(acts[..|acts| - 1]);
      TallySplits(a.main);
      TallySplits(a.dlq);
      assert TRIGGERED(a) + FAILED(a) == EXECUTED(a);
    }
  }

  lemma {:induction false} TallySplits(outs: seq<bool>)
    ensures Tally(outs, true) + Tally(outs, false) == |outs|
  {
    if outs != [] { TallySplits(outs[..|outs| - 1]); }
  }

  /** Once every action is over, the retries-failed metric is what the outcomes of the executions call
      for: one per level that came to nothing. */
  lemma RetriesFailedExactly(steps: seq<Step>)
    requires IsRun(steps) && forall i :: 0 <= i < |Play(steps).acts| ==> Play(steps).acts[i].at.Ended?
    ensures Play(steps).retriesFailed == Total(Play(steps).acts, DESERVED)
  {
    hide Play, IsRun;
    RunKeepsInv(steps);
    CountedIsDeserved(Play(steps).acts);
  }

  lemma {:induction false} CountedIsDeserved(acts: seq<Act>)
    requires forall i :: 0 <= i < |acts| ==> ActInv(acts[i]) && acts[i].at.Ended?
    ensures Total(acts, COUNTED) == Total(acts, DESERVED)
  {
    hide LevelInv, CallsDlq, Exhausted;
    if acts != [] {
      var a := acts[|acts| - 1];
      assert ActInv(a) && Owed(a) == multiset{};
      CountedIsDeserved(acts[..|acts| - 1]);
    }
  }

  // ----- what one finished action has done -----

  predicate Readable(t: Trigger) { Usable(t) && (t.dlqTrigger.Some? ==> Usable(t.dlqTrigger.value)) }

  /** The executions of one level: at most the limit, ending at the first success or at the limit. */
  predicate Tried(t: Trigger, outs: seq<bool>)
    requires Usable(t)
  {
    0 < |outs| <= Limit(t) && (StopsAtSuccess(outs) || (|outs| == Limit(t) && AllFail(outs)))
  }

  /** A finished action of a validated trigger: each level is tried up to its limit, the dead-letter
      trigger is run if and only if every attempt of the main level failed, and each level all of whose
      attempts failed is counted once. */
  predicate Delivered(a: Act)
    requires Readable(a.trigger)
  {
    var t := a.trigger;
    && Tried(t, a.main)
    && (if t.dlqTrigger.Some? && AllFail(a.main) then Tried(t.dlqTrigger.value, a.dlq) else a.dlq == [])
    && a.counted == (if AllFail(a.main) then multiset{t.name} else multiset{})
         + (if t.dlqTrigger.Some? && a.dlq != [] && AllFail(a.dlq) then multiset{t.dlqTrigger.value.name} else multiset{})
  }

  lemma ActionDelivers(steps: seq<Step>, i: nat)
    requires IsRun(steps) && i < |Play(steps).acts|
    requires var a := Play(steps).acts[i]; a.at.Ended? && Readable(a.trigger) && ValidateDlqTrigger(a.trigger)
    ensures Delivered(Play(steps).acts[i])
  {
    hide Play, IsRun, Total;
    RunKeepsInv(steps);
    var a := Play(steps).acts[i];
    EndedOutcomes(a);
  }

  lemma EndedOutcomes(a: Act)
    requires ActInv(a) && a.at.Ended? && Readable(a.trigger) && ValidateDlqTrigger(a.trigger)
    ensures Delivered(a)
  {
    var t := a.trigger;
    ExhaustedIsAllFail(t, a.main);
    hide Convert2WaitBackoff, AllFail, StopsAtSuccess;
    if CallsDlq(t, a.main) { ExhaustedIsAllFail(t.dlqTrigger.value, a.dlq); }
  }

  lemma ExhaustedIsAllFail(t: Trigger, outs: seq<bool>)
    requires Usable(t) && LevelInv(t, outs, Ended)
    ensures Tried(t, outs) && (Exhausted(t, outs) <==> AllFail(outs))
  {
    hide Convert2WaitBackoff;
  }

  /** A fire-and-forget action is executed once and counted exactly when that execution failed. */
  lemma FireAndForget(steps: seq<Step>, i: nat)
    requires IsRun(steps) && i < |Play(steps).acts|
    requires var a := Play(steps).acts[i]; a.at.Ended? && Readable(a.trigger) && !a.trigger.atLeastOnce
    ensures var a := Play(steps).acts[i];
      && |a.main| == 1 && a.dlq == []
      && a.counted == if a.main[0] then multiset{} else multiset{a.trigger.name}
  {
    hide Play, IsRun, Total;
    RunKeepsInv(steps);
    var a := Play(steps).acts[i];
    assert ActInv(a);
    hide Convert2WaitBackoff;
    assert |a.main| == 1 && Owed(a) == multiset{};
    assert Exhausted(a.trigger, a.main) <==> !a.main[0];
    assert !CallsDlq(a.trigger, a.main);
    assert Deserved(a.trigger, a.main, a.dlq) == if a.main[0] then multiset{} else multiset{a.trigger.name};
  }

  /** Why validation asks for at-least-once: for a trigger with a dead-letter trigger, a finished action
      has run it if and only if the main level failed, unless that failure was a fire-and-forget one. */
  lemma DlqRunsExactly(steps: seq<Step>, i: nat)
    requires IsRun(steps) && i < |Play(steps).acts|
    requires var a := Play(steps).acts[i]; a.at.Ended? && Readable(a.trigger) && a.trigger.dlqTrigger.Some?
    ensures var a := Play(steps).acts[i];
      (a.dlq != [] <==> AllFail(a.main)) <==> (a.trigger.atLeastOnce || !AllFail(a.main))
  {
    hide Play, IsRun, Total;
    RunKeepsInv(steps);
    var a := Play(steps).acts[i];
    assert ActInv(a);
    ExhaustedIsAllFail(a.trigger, a.main);
    hide Convert2WaitBackoff, AllFail, StopsAtSuccess;
  }

  // ----- the code that takes the steps -----

  /** The part of the sensor that runs actions. `history` records the steps taken by all goroutines. */
  class SensorContext {
    var triggered: multiset<string>
    var failed: multiset<string>
    var retriesFailed: multiset<string>
    var history: seq<Step>

    constructor ()
      ensures Valid() && history == []
    {
      triggered, failed, retriesFailed, history := multiset{}, multiset{}, multiset{}, [];
    }

    /** The metrics are those of the run so far. */
    ghost predicate Valid()
      reads this
    {
      IsRun(history) && Play(history).triggered == triggered && Play(history).failed == failed
      && Play(history).retriesFailed == retriesFailed
    }

    /** The actions as the run so far has left them. */
    function Acts(): seq<Act>
      requires IsRun(history)
      reads this
    {
      Play(history).acts
    }

    /** Action `me` is at the given point for trigger `u`. */
    ghost predicate Stands(me: nat, u: Trigger, at: Where)
      reads this
    {
      Valid() && me < |Acts()| && Acts()[me].at == at && !at.Ended? && HasLevel(Acts()[me].trigger, at.level)
      && u == At(Acts()[me].trigger, at.level)
    }

    method Take(step: Step)
      requires Valid() && Enabled(Play(history), step)
      modifies this
      ensures Valid() && history == old(history) + [step] && Play(history) == Next(old(Play(history)), step)
    {
      hide IsRun, Play, Enabled, Next;
      var s := Next(Play(history), step);
      OneMoreStep(history, step);
      history := history + [step];
      triggered, failed, retriesFailed := s.triggered, s.failed, s.retriesFailed;
    }

    /** Other goroutines may take any steps between two of this one's. */
    method Others(me: nat)
      requires Valid() && me < |Acts()|
      modifies this
      ensures Valid() && old(history) <= history
      ensures me < |Acts()| && Acts()[me] == old(Acts()[me])
    {
      hide CanStep, NextAct;
      var n: nat :| n >= 0;
      for _ := 0 to n
        invariant Valid() && old(history) <= history
        invariant me < |Acts()| && Acts()[me] == old(Acts()[me])
      {
        assert Enabled(Play(history), Start(Trigger("", true, None, None)));
        var step: Step :| Enabled(Play(history), step);
        if step.Start? || step.act != me { Take(step); }
      }
    }

    /** One execution of the trigger, `ok` being what triggerOne comes to. */
    method TriggerWithRateLimit(me: nat, u: Trigger, at: Where) returns (ok: bool)
      requires Stands(me, u, at) && (at.Background? || (at.Trying? && u.atLeastOnce && Usable(u)))
      modifies this
      ensures Valid() && old(history) <= history && me < |Acts()|
      ensures Acts()[me] == NextAct(old(Acts()[me]), if at.Background? then Finish(me, ok) else Attempt(me, ok))
    {
      hide IsRun, Play, NextAct, Usable;
      ok := *;
      var step := if at.Background? then Finish(me, ok) else Attempt(me, ok);
      OneMoreStep(history, step);
      if !ok {
        failed := failed + multiset{u.name};
      } else {
        triggered := triggered + multiset{u.name};
      }
      history := history + [step];
    }

    /** Blocks until the execution is over for an at-least-once trigger; otherwise leaves it to a goroutine. */
    method TriggerActions(me: nat, u: Trigger, at: Where) returns (ok: bool)
      requires Stands(me, u, at) && at.Trying? && Usable(u)
      modifies this
      ensures Valid() && old(history) <= history && me < |Acts()| && (!u.atLeastOnce ==> ok)
      ensures Acts()[me] == NextAct(old(Acts()[me]), if u.atLeastOnce then Attempt(me, ok) else Spawn(me))
    {
      hide NextAct, Usable;
      if u.atLeastOnce {
        ok := TriggerWithRateLimit(me, u, at);
      } else {
        Take(Spawn(me));
        ok := true;
      }
    }

    /** A failure is counted under the trigger's name. */
    method ActionRetriesFailed(me: nat, u: Trigger, at: Where)
      requires Stands(me, u, at) && (at.GaveUp? || at.Lost?)
      modifies this
      ensures Valid() && old(history) <= history && me < |Acts()|
      ensures Acts()[me] == NextAct(old(Acts()[me]), Count(me))
      ensures retriesFailed == old(retriesFailed) + multiset{u.name}
    {
      hide IsRun, Play, NextAct;
      OneMoreStep(history, Count(me));
      retriesFailed := retriesFailed + multiset{u.name};
      history := history + [Count(me)];
    }

    /** The retry loop of one level. */
    method DoWithRetry(me: nat, u: Trigger, l: Level) returns (ok: bool)
      requires Stands(me, u, if Usable(u) then Trying(l) else GaveUp(l)) && Outcomes(Acts()[me], l) == []
      modifies this
      ensures Valid() && old(history) <= history && me < |Acts()| && Acts()[me].trigger == old(Acts()[me].trigger)
      ensures Acts()[me].at == if !ok then GaveUp(l) else if u.atLeastOnce then Ended else Background(l)
    {
      hide Convert2WaitBackoff, IsRun, Play;
      var b := Convert2WaitBackoff(StrategyOf(u));
      if b.Failure? { return false; }
      var steps := b.value.steps;
      while true
        invariant Stands(me, u, Trying(l)) && old(history) <= history
        invariant Acts()[me].trigger == old(Acts()[me].trigger)
        invariant steps > 0 && |Outcomes(Acts()[me], l)| + steps == b.value.steps
        decreases steps
      {
        Others(me);
        ok := TriggerActions(me, u, Trying(l));
        if ok { return true; }
        if steps == 1 { return false; }
        steps := steps - 1;
      }
    }

    /** The action of a trigger whose condition is met: its executions, then those of its dead-letter
        trigger if it fails. */
    method Action(t: Trigger) returns (me: nat)
      requires Valid()
      modifies this
      ensures Valid() && old(history) <= history && me < |Acts()| && Acts()[me].trigger == t
      ensures Acts()[me].at.Ended? || Acts()[me].at.Background?
      ensures Readable(t) && ValidateDlqTrigger(t) && t.atLeastOnce ==> Acts()[me].at.Ended? && Delivered(Acts()[me])
    {
      hide Usable, ActInv, IsRun, Play, Delivered, ValidateDlqTrigger, Readable;
      hide StateInv, Deserved, Owed, CanStep, Limit;
      me := Begin(t);
      var ok := DoWithRetry(me, t, Main);
      if !ok {
        Others(me);
        assert Acts()[me].dlq == [] by { GaveUpMain(history, me); }
        ActionRetriesFailed(me, t, GaveUp(Main));
        if t.dlqTrigger.Some? { InvokeDlqTrigger(me, t.dlqTrigger.value); }
      }
      if Readable(t) && ValidateDlqTrigger(t) && t.atLeastOnce {
        assert Acts()[me].at.Ended? by { if t.dlqTrigger.Some? { AtLeastOnceDlq(t); } }
        ActionDelivers(history, me);
      }
    }

    method Begin(t: Trigger) returns (me: nat)
      requires Valid()
      modifies this
      ensures Stands(me, t, if Usable(t) then Trying(Main) else GaveUp(Main)) && Acts()[me].main == []
      ensures old(history) <= history && Acts()[me].trigger == t
    {
      hide Usable, IsRun, Play;
      me := |Acts()|;
      Take(Start(t));
    }

    method InvokeDlqTrigger(me: nat, u: Trigger)
      requires Stands(me, u, if Usable(u) then Trying(Dlq) else GaveUp(Dlq)) && Acts()[me].dlq == []
      modifies this
      ensures Valid() && old(history) <= history && me < |Acts()| && Acts()[me].trigger == old(Acts()[me].trigger)
      ensures Acts()[me].at.Ended? || (Acts()[me].at.Background? && !u.atLeastOnce)
    {
      hide Usable, IsRun, Play;
      Others(me);
      var ok := DoWithRetry(me, u, Dlq);
      if !ok {
        Others(me);
        ActionRetriesFailed(me, u, GaveUp(Dlq));
      }
    }

    /** The goroutine of a fire-and-forget execution. */
    method RunInBackground(me: nat, u: Trigger, l: Level)
      requires Stands(me, u, Background(l))
      modifies this
      ensures Valid() && old(history) <= history && me < |Acts()| && Acts()[me].at.Ended?
    {
      hide IsRun, Play;
      var ok := TriggerWithRateLimit(me, u, Background(l));
      if !ok {
        Others(me);
        ActionRetriesFailed(me, u, Lost(l));
      }
    }
  }

  lemma GaveUpMain(steps: seq<Step>, i: nat)
    requires IsRun(steps) && i < |Play(steps).acts| && Play(steps).acts[i].at == GaveUp(Main)
    ensures Play(steps).acts[i].dlq == []
  {
    hide Play, IsRun, Total, LevelInv, Exhausted;
    RunKeepsInv(steps);
    assert ActInv(Play(steps).acts[i]);
  }

  lemma AtLeastOnceDlq(t: Trigger)
    requires ValidateDlqTrigger(t) && t.dlqTrigger.Some?
    ensures t.dlqTrigger.value.atLeastOnce
  {
  }
}
