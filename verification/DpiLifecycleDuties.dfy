/**
  None of the duties behind `DpiLifecycleOrderly.StopOkKillsEverything` can be dropped: for each of
  them, and for starts as for autotests, a run that respects all the others ends with a stop that
  answered Ok while a process of the operation it cancelled is still alive.
 */
module DpiLifecycleDuties {
  import opened Common
  import opened DpiLifecycle
  import opened DpiLifecycleOrderly

  // Every duty but `d` is respected.
  ghost predicate OrderlyBut(s: State, e: Event, d: Duty)
    requires Enabled(s, e)
  {
    forall other :: other != d ==> Respects(s, e, other)
  }

  // A run in which every duty but `d` is respected.
  ghost predicate RunBut(s: State, es: seq<Event>, d: Duty)
    decreases es
  {
    es != [] ==>
      && Enabled(s, es[0])
      && OrderlyBut(s, es[0], d)
      && RunBut(Apply(s, es[0]), es[1..], d)
  }

  lemma {:induction false} RunsExtend(s: State, es: seq<Event>, e: Event, d: Duty)
    requires RunBut(s, es, d) && CanRun(s, es)
    requires Enabled(After(s, es), e) && OrderlyBut(After(s, es), e, d)
    ensures RunBut(s, es + [e], d) && CanRun(s, es + [e])
    ensures After(s, es + [e]) == Apply(After(s, es), e)
    decreases es
  {
    if es == [] {
      assert es + [e] == [e];
    } else {
      RunsExtend(Apply(s, es[0]), es[1..], e, d);
      assert (es + [e])[1..] == es[1..] + [e];
    }
  }

  // A run written out: the events and every state in between.
  datatype Trace = Trace(states: seq<State>, events: seq<Event>)

  ghost predicate Step(s: State, e: Event, s': State, d: Duty) {
    Enabled(s, e) && s' == Apply(s, e) && OrderlyBut(s, e, d)
  }

  ghost predicate StepAt(tr: Trace, i: nat, d: Duty) {
    i < |tr.events| && i + 1 < |tr.states| && Step(tr.states[i], tr.events[i], tr.states[i + 1], d)
  }

  ghost predicate LeadsTo(tr: Trace, s: State, d: Duty) {
    && |tr.states| == |tr.events| + 1 && tr.states[0] == INITIAL && tr.states[|tr.events|] == s
    && forall i :: 0 <= i < |tr.events| ==> StepAt(tr, i, d)
  }

  lemma Then(tr: Trace, s: State, e: Event, s': State, d: Duty) returns (tr': Trace)
    requires LeadsTo(tr, s, d) && Step(s, e, s', d)
    ensures LeadsTo(tr', s', d)
  {
    tr' := Trace(tr.states + [s'], tr.events + [e]);
    forall i | 0 <= i < |tr'.events|
      ensures StepAt(tr', i, d)
    {
      assert i < |tr.events| ==> StepAt(tr, i, d);
    }
  }

  // The steps no duty is about.
  predicate Free(e: Event) {
    !e.Cancel? && !e.SwapFlag? && !e.Poll? && !e.Terminate?
  }

  lemma Next(tr: Trace, s: State, e: Event, s': State, d: Duty) returns (tr': Trace)
    requires LeadsTo(tr, s, d) && Free(e) && Enabled(s, e) && s' == Apply(s, e)
    ensures LeadsTo(tr', s', d)
  {
    tr' := Then(tr, s, e, s', d);
  }

  lemma {:induction false} TracesAreRuns(tr: Trace, s: State, d: Duty)
    requires LeadsTo(tr, s, d)
    ensures RunBut(INITIAL, tr.events, d) && CanRun(INITIAL, tr.events) && After(INITIAL, tr.events) == s
    decreases |tr.events|
  {
    var n := |tr.events|;
    if n > 0 {
      var before := Trace(tr.states[..n], tr.events[..n - 1]);
      forall i | 0 <= i < n - 1
        ensures StepAt(before, i, d)
      {
        assert StepAt(tr, i, d);
      }
      TracesAreRuns(before, tr.states[n - 1], d);
      assert StepAt(tr, n - 1, d);
      RunsExtend(INITIAL, before.events, tr.events[n - 1], d);
      assert tr.events == before.events + [tr.events[n - 1]];
    }
  }

  function Working(op: OpName, phase: OpPhase): Thread {
    Op(op, 1, phase)
  }

  // A stop that cancelled operation 1.
  function Stopping(op: OpName, stage: StopPhase): Thread {
    Stop(Some(Ticket(op, 1)), stage)
  }

  // One operation, generation 1, whose only child is process 7.
  function Alone(op: OpName, slot: Option<Pid>, phase: OpPhase): State {
    State(1, Some(op), true, slot, {7}, map[7 := 1], {}, map[0 := Working(op, phase)])
  }

  // The same operation after it was cancelled by thread 1.
  function Cancelled(op: OpName, slot: Option<Pid>, lost: set<Pid>, phase: OpPhase, stage: StopPhase): State {
    State(2, None, !phase.Ended?, slot, {7}, map[7 := 1], lost, map[0 := Working(op, phase), 1 := Stopping(op, stage)])
  }

  // From its registration to its spawn: a start looks at the slot and sweeps, here in vain; an
  // autotest looks for a child to kill.
  lemma Prepare(tr: Trace, s: State, t: Tid, op: OpName, d: Duty) returns (tr': Trace, phase: OpPhase)
    requires LeadsTo(tr, s, d) && OperationCanSpawn(op) && s.slot.None? && InPhase(s, t, Checking) && s.threads[t].name == op
    ensures LeadsTo(tr', Move(s, t, phase), d)
    ensures phase == if op == Start then Swept else Ready
  {
    var ready := Move(s, t, Ready);
    if op == Start {
      tr' := Next(tr, s, LookAtSlot(t), ready, d);
      phase := Swept;
      tr' := Next(tr', ready, KillStrays(t, {}), Move(s, t, Swept), d);
    } else {
      phase := Ready;
      tr' := Next(tr, s, TakeOwn(t), ready, d);
    }
  }

  lemma Register(op: OpName, d: Duty) returns (tr: Trace)
    requires OperationCanSpawn(op)
    ensures LeadsTo(tr, Alone(op, None, Checking).(alive := {}, owner := map[]), d)
  {
    var entered := INITIAL.(active := true, threads := map[0 := Entered(op)]);
    tr := Trace([INITIAL], []);
    tr := Then(tr, INITIAL, SwapFlag(0, op), entered, d);
    tr := Next(tr, entered, EnterControl(0), Alone(op, None, Checking).(alive := {}, owner := map[]), d);
  }

  lemma Launch(op: OpName, d: Duty) returns (tr: Trace)
    requires OperationCanSpawn(op)
    ensures LeadsTo(tr, Alone(op, None, Holding(7)), d)
  {
    tr := Register(op, d);
    var checking := Alone(op, None, Checking).(alive := {}, owner := map[]);
    var phase;
    tr, phase := Prepare(tr, checking, 0, op, d);
    tr := Next(tr, Move(checking, 0, phase), Spawn(0, 7), Alone(op, None, Holding(7)), d);
  }

  lemma LaunchAndPublish(op: OpName, d: Duty) returns (tr: Trace)
    requires OperationCanSpawn(op)
    ensures LeadsTo(tr, Alone(op, Some(7), Published), d)
  {
    tr := Launch(op, d);
    tr := Next(tr, Alone(op, None, Holding(7)), Publish(0), Alone(op, Some(7), Published), d);
  }

  // The cancelled operation returns.
  lemma Return(tr: Trace, s: State, op: OpName, g: nat, t: Tid, d: Duty) returns (tr': Trace, s': State)
    requires LeadsTo(tr, s, d) && s.generation > g
    requires t in s.threads && s.threads[t] == Op(op, g, Leaving)
    ensures LeadsTo(tr', s', d) && s' == s.(active := false, threads := s'.threads)
    ensures forall u :: u in s.threads && u != t ==> u in s'.threads && s'.threads[u] == s.threads[u]
  {
    var s1 := Move(s, t, Dropping);
    s' := Move(s1.(active := false), t, Ended);
    tr' := Next(tr, s, DropControl(t), s1, d);
    tr' := Next(tr', s1, DropFlag(t), s', d);
  }

  // Its stop, waiting, sweeps an empty slot once more and answers Ok.
  lemma Confirm(tr: Trace, s: State, op: OpName, g: nat, stop: Tid, d: Duty) returns (tr': Trace, s': State)
    requires LeadsTo(tr, s, d) && s.slot.None? && !s.active && OperationCanSpawn(op)
    requires stop in s.threads && s.threads[stop] == Stop(Some(Ticket(op, g)), Waiting)
    ensures LeadsTo(tr', s', d) && ConfirmedStop(s', stop, Ticket(op, g))
    ensures s'.alive == s.alive && s'.owner == s.owner
  {
    var s1 := At(s, stop, s.threads[stop].(stage := Sweeping(true)));
    s' := At(s1, stop, s.threads[stop].(stage := Returned(true)));
    tr' := Next(tr, s, SeeIdle(stop), s1, d);
    tr' := Next(tr', s1, Take(stop), s', d);
  }

  lemma CancelUnpublished(op: OpName) returns (tr: Trace)
    requires OperationCanSpawn(op)
    ensures LeadsTo(tr, Cancelled(op, None, {}, Condemned(7), Sweeping(false)), ChildDies)
  {
    tr := Launch(op, ChildDies);
    var s1 := Cancelled(op, None, {}, Holding(7), Sweeping(false));
    tr := Then(tr, Alone(op, None, Holding(7)), Cancel(1), s1, ChildDies);
    tr := Next(tr, s1, Publish(0), Cancelled(op, None, {}, Condemned(7), Sweeping(false)), ChildDies);
  }

  lemma AbandonChild(op: OpName) returns (tr: Trace)
    requires OperationCanSpawn(op)
    ensures LeadsTo(tr, Cancelled(op, None, {7}, Leaving, Sweeping(false)), ChildDies)
  {
    tr := CancelUnpublished(op);
    var s2 := Cancelled(op, None, {}, Condemned(7), Sweeping(false));
    tr := Then(tr, s2, Terminate(0, false), Cancelled(op, None, {7}, Leaving, Sweeping(false)), ChildDies);
  }

  // An unpublished child that survives its termination.
  lemma ChildMustDie(op: OpName) returns (tr: Trace, s: State)
    requires OperationCanSpawn(op)
    ensures LeadsTo(tr, s, ChildDies) && Escaped(s, 1, op, 1, 7)
  {
    tr := AbandonChild(op);
    s := Cancelled(op, None, {7}, Leaving, Waiting);
    tr := Next(tr, Cancelled(op, None, {7}, Leaving, Sweeping(false)), Take(1), s, ChildDies);
    tr, s := Return(tr, s, op, 1, 0, ChildDies);
    tr, s := Confirm(tr, s, op, 1, 1, ChildDies);
  }

  lemma ForgetChild(op: OpName) returns (tr: Trace)
    requires OperationCanSpawn(op)
    ensures LeadsTo(tr, Cancelled(op, None, {7}, Published, Sweeping(false)), PollSure)
  {
    tr := LaunchAndPublish(op, PollSure);
    var s0 := Alone(op, None, Published).(lost := {7});
    tr := Then(tr, Alone(op, Some(7), Published), Poll(false), s0, PollSure);
    tr := Then(tr, s0, Cancel(1), Cancelled(op, None, {7}, Published, Sweeping(false)), PollSure);
  }

  // A status query that forgets a child it could not ask.
  lemma PollMustBeSure(op: OpName) returns (tr: Trace, s: State)
    requires OperationCanSpawn(op)
    ensures LeadsTo(tr, s, PollSure) && Escaped(s, 1, op, 1, 7)
  {
    tr := ForgetChild(op);
    var s1 := Cancelled(op, None, {7}, Published, Waiting);
    s := Cancelled(op, None, {7}, Leaving, Waiting);
    tr := Next(tr, Cancelled(op, None, {7}, Published, Sweeping(false)), Take(1), s1, PollSure);
    tr := Next(tr, s1, Leave(0), s, PollSure);
    tr, s := Return(tr, s, op, 1, 0, PollSure);
    tr, s := Confirm(tr, s, op, 1, 1, PollSure);
  }

  // The cancelled operation 1, and a second stop in thread 2.
  function Rivals(op: OpName, slot: Option<Pid>, phase: OpPhase, stage: StopPhase, rival: StopPhase): State {
    State(3, None, true, slot, {7}, map[7 := 1], {},
          map[0 := Working(op, phase), 1 := Stopping(op, stage), 2 := Stop(None, rival)])
  }

  lemma TwoStops(op: OpName) returns (tr: Trace)
    requires OperationCanSpawn(op)
    ensures LeadsTo(tr, Rivals(op, Some(7), Published, Sweeping(false), Sweeping(false)), StopsApart)
  {
    tr := LaunchAndPublish(op, StopsApart);
    var s1 := Cancelled(op, Some(7), {}, Published, Sweeping(false));
    tr := Then(tr, Alone(op, Some(7), Published), Cancel(1), s1, StopsApart);
    tr := Then(tr, s1, Cancel(2), Rivals(op, Some(7), Published, Sweeping(false), Sweeping(false)), StopsApart);
  }

  lemma RivalTakesTheChild(op: OpName) returns (tr: Trace)
    requires OperationCanSpawn(op)
    ensures LeadsTo(tr, Rivals(op, None, Published, Sweeping(false), Killing(false, 7)), StopsApart)
  {
    tr := TwoStops(op);
    var s2 := Rivals(op, Some(7), Published, Sweeping(false), Sweeping(false));
    tr := Next(tr, s2, Take(2), Rivals(op, None, Published, Sweeping(false), Killing(false, 7)), StopsApart);
  }

  // Two stops: the second holds the child while the first one finds the slot empty.
  lemma StopsMustNotOverlap(op: OpName) returns (tr: Trace, s: State)
    requires OperationCanSpawn(op)
    ensures LeadsTo(tr, s, StopsApart) && Escaped(s, 1, op, 1, 7)
  {
    tr := RivalTakesTheChild(op);
    var s1 := Rivals(op, None, Published, Waiting, Killing(false, 7));
    s := Rivals(op, None, Leaving, Waiting, Killing(false, 7));
    tr := Next(tr, Rivals(op, None, Published, Sweeping(false), Killing(false, 7)), Take(1), s1, StopsApart);
    tr := Next(tr, s1, Leave(0), s, StopsApart);
    tr, s := Return(tr, s, op, 1, 0, StopsApart);
    tr, s := Confirm(tr, s, op, 1, 1, StopsApart);
  }

  // A first start has returned and process 7 runs.
  function Running(): State {
    State(1, None, false, Some(7), {7}, map[7 := 1], {}, map[0 := Working(Start, Ended)])
  }

  lemma FirstSettles(d: Duty) returns (tr: Trace)
    ensures LeadsTo(tr, Alone(Start, Some(7), Leaving), d)
  {
    tr := LaunchAndPublish(Start, d);
    tr := Next(tr, Alone(Start, Some(7), Published), SettleStart(0), Alone(Start, Some(7), Leaving), d);
  }

  lemma FirstReturns(d: Duty) returns (tr: Trace)
    ensures LeadsTo(tr, Running(), d)
  {
    tr := FirstSettles(d);
    var s2 := Alone(Start, Some(7), Dropping).(operation := None);
    tr := Next(tr, Alone(Start, Some(7), Leaving), DropControl(0), s2, d);
    tr := Next(tr, s2, DropFlag(0), Running(), d);
  }

  // A stop in thread 1 holds process 7 and is about to fail.
  function HeldByStop(): State {
    State(2, None, false, None, {7}, map[7 := 1], {}, map[0 := Working(Start, Ended), 1 := Stop(None, Killing(false, 7))])
  }

  // Meanwhile a second operation has taken the flag in thread 2.
  function SecondEnters(op: OpName): State {
    At(HeldByStop().(active := true), 2, Entered(op))
  }

  // The stop was there first.
  lemma StopThenBegin(op: OpName) returns (tr: Trace)
    ensures LeadsTo(tr, SecondEnters(op), BeginsApart)
  {
    tr := FirstReturns(BeginsApart);
    var s1 := HeldByStop().(slot := Some(7), threads := map[0 := Working(Start, Ended), 1 := Stop(None, Sweeping(false))]);
    tr := Then(tr, Running(), Cancel(1), s1, BeginsApart);
    tr := Next(tr, s1, Take(1), HeldByStop(), BeginsApart);
    tr := Then(tr, HeldByStop(), SwapFlag(2, op), SecondEnters(op), BeginsApart);
  }

  // The flag was taken first: the stop comes before the control section of the begin.
  lemma FlagTaken(op: OpName) returns (tr: Trace)
    ensures LeadsTo(tr, At(Running().(active := true), 2, Entered(op)), CancelsApart)
  {
    tr := FirstReturns(CancelsApart);
    tr := Then(tr, Running(), SwapFlag(2, op), At(Running().(active := true), 2, Entered(op)), CancelsApart);
  }

  // A stop has come in between, and has not taken the child yet.
  function InBetween(op: OpName): State {
    State(2, None, true, Some(7), {7}, map[7 := 1], {},
          map[0 := Working(Start, Ended), 1 := Stop(None, Sweeping(false)), 2 := Entered(op)])
  }

  lemma StopComesInBetween(op: OpName) returns (tr: Trace)
    ensures LeadsTo(tr, InBetween(op), CancelsApart)
  {
    tr := FlagTaken(op);
    tr := Then(tr, At(Running().(active := true), 2, Entered(op)), Cancel(1), InBetween(op), CancelsApart);
  }

  lemma BeginThenStop(op: OpName) returns (tr: Trace)
    ensures LeadsTo(tr, SecondEnters(op), CancelsApart)
  {
    tr := StopComesInBetween(op);
    tr := Next(tr, InBetween(op), Take(1), SecondEnters(op), CancelsApart);
  }

  // The second operation, generation 3, and its process 8.
  function Second(op: OpName, slot: Option<Pid>, lost: set<Pid>, phase: OpPhase, stage: StopPhase): State {
    State(3, Some(op), true, slot, {7, 8}, map[7 := 1, 8 := 3], lost,
          map[0 := Working(Start, Ended), 1 := Stop(None, stage), 2 := Op(op, 3, phase)])
  }

  lemma SecondIsReady(tr: Trace, op: OpName, d: Duty) returns (tr': Trace, phase: OpPhase)
    requires LeadsTo(tr, SecondEnters(op), d) && OperationCanSpawn(op)
    ensures LeadsTo(tr', Second(op, None, {}, phase, Killing(false, 7)).(alive := {7}, owner := map[7 := 1]), d)
    ensures phase == if op == Start then Swept else Ready
  {
    var checking := Second(op, None, {}, Checking, Killing(false, 7)).(alive := {7}, owner := map[7 := 1]);
    tr' := Next(tr, SecondEnters(op), EnterControl(2), checking, d);
    tr', phase := Prepare(tr', checking, 2, op, d);
    assert Move(checking, 2, phase) == Second(op, None, {}, phase, Killing(false, 7)).(alive := {7}, owner := map[7 := 1]);
  }

  lemma SecondPublishes(tr: Trace, op: OpName, d: Duty) returns (tr': Trace)
    requires LeadsTo(tr, SecondEnters(op), d) && OperationCanSpawn(op)
    ensures LeadsTo(tr', Second(op, Some(8), {}, Published, Killing(false, 7)), d)
  {
    var holding := Second(op, None, {}, Holding(8), Killing(false, 7));
    var phase;
    tr', phase := SecondIsReady(tr, op, d);
    tr' := Next(tr', Second(op, None, {}, phase, Killing(false, 7)).(alive := {7}, owner := map[7 := 1]), Spawn(2, 8), holding, d);
    tr' := Next(tr', holding, Publish(2), Second(op, Some(8), {}, Published, Killing(false, 7)), d);
  }

  // The second operation and the stop, in thread 4, that cancels it.
  function SecondStopped(op: OpName, slot: Option<Pid>, alive: set<Pid>, phase: OpPhase, stage: StopPhase): State {
    State(4, None, true, slot, alive, map[7 := 1, 8 := 3], {8},
          map[0 := Working(Start, Ended), 1 := Stop(None, Returned(false)), 2 := Op(op, 3, phase),
              4 := Stop(Some(Ticket(op, 3)), stage)])
  }

  // The failed kill puts the first handle back over the second.
  lemma FirstComesBack(tr: Trace, op: OpName, d: Duty) returns (tr': Trace)
    requires LeadsTo(tr, Second(op, Some(8), {}, Published, Killing(false, 7)), d) && OperationCanSpawn(op)
    ensures LeadsTo(tr', SecondStopped(op, Some(7), {7, 8}, Published, Sweeping(false)), d)
  {
    var s1 := Second(op, Some(7), {8}, Published, Returned(false));
    tr' := Next(tr, Second(op, Some(8), {}, Published, Killing(false, 7)), Kill(1, false), s1, d);
    tr' := Then(tr', s1, Cancel(4), SecondStopped(op, Some(7), {7, 8}, Published, Sweeping(false)), d);
  }

  lemma FirstIsKilled(tr: Trace, op: OpName, d: Duty) returns (tr': Trace)
    requires LeadsTo(tr, SecondStopped(op, Some(7), {7, 8}, Published, Sweeping(false)), d) && OperationCanSpawn(op)
    ensures LeadsTo(tr', SecondStopped(op, None, {8}, Published, Waiting), d)
  {
    var s1 := SecondStopped(op, None, {7, 8}, Published, Killing(false, 7));
    tr' := Next(tr, SecondStopped(op, Some(7), {7, 8}, Published, Sweeping(false)), Take(4), s1, d);
    tr' := Next(tr', s1, Kill(4, true), SecondStopped(op, None, {8}, Published, Waiting), d);
  }

  // A stop of the second operation kills the first process, and the second is out of reach.
  lemma SecondEscapes(tr: Trace, op: OpName, d: Duty) returns (tr': Trace, s: State)
    requires LeadsTo(tr, SecondEnters(op), d) && OperationCanSpawn(op)
    ensures LeadsTo(tr', s, d) && Escaped(s, 4, op, 3, 8)
  {
    tr' := SecondPublishes(tr, op, d);
    tr' := FirstComesBack(tr', op, d);
    tr' := FirstIsKilled(tr', op, d);
    s := SecondStopped(op, None, {8}, Leaving, Waiting);
    tr' := Next(tr', SecondStopped(op, None, {8}, Published, Waiting), Leave(2), s, d);
    tr', s := Return(tr', s, op, 3, 2, d);
    tr', s := Confirm(tr', s, op, 3, 4, d);
  }

  // An operation begun while a stop is killing the previous child.
  lemma BeginsMustNotOverlapStops(op: OpName) returns (tr: Trace, s: State)
    requires OperationCanSpawn(op)
    ensures LeadsTo(tr, s, BeginsApart) && Escaped(s, 4, op, 3, 8)
  {
    tr := StopThenBegin(op);
    tr, s := SecondEscapes(tr, op, BeginsApart);
  }

  // A stop called while an operation has the flag but is not registered.
  lemma StopsMustNotSplitBegins(op: OpName) returns (tr: Trace, s: State)
    requires OperationCanSpawn(op)
    ensures LeadsTo(tr, s, CancelsApart) && Escaped(s, 4, op, 3, 8)
  {
    tr := BeginThenStop(op);
    tr, s := SecondEscapes(tr, op, CancelsApart);
  }

  // No duty can be dropped, neither for starts nor for autotests: there is a run that respects
  // all the others and in which a stop answers Ok while a process of the operation it cancelled
  // is alive.
  lemma EveryDutyIsNeeded(d: Duty, op: OpName)
    requires OperationCanSpawn(op)
    ensures exists es, t, g, p ::
              RunBut(INITIAL, es, d) && CanRun(INITIAL, es) && Escaped(After(INITIAL, es), t, op, g, p)
  {
    var tr, s;
    match d {
      case StopsApart => tr, s := StopsMustNotOverlap(op);
      case BeginsApart => tr, s := BeginsMustNotOverlapStops(op);
      case CancelsApart => tr, s := StopsMustNotSplitBegins(op);
      case PollSure => tr, s := PollMustBeSure(op);
      case ChildDies => tr, s := ChildMustDie(op);
    }
    TracesAreRuns(tr, s, d);
    assert Escaped(s, 1, op, 1, 7) || Escaped(s, 4, op, 3, 8);
  }
}
