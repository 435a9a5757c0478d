/**
  A stop that owes the end of an operation can always still answer Ok; so a live process whose
  handle is dropped while its death is owed, or can come to be owed, is one that may escape.  For
  the two duties that are not about calls this makes the condition exact.
 */
module DpiLifecycleProgress {
  import opened Common
  import opened DpiLifecycle
  import opened DpiLifecycleOrderly

  // --- the way to the end -----------------------------------------------------------------------

  // How many steps the holder of the guard is from its end, at most.
  function GuardRank(th: Thread): nat {
    if th.Entered? then 12
    else if !th.Op? then 0
    else match th.phase
      case Holding(_) => 10
      case Condemned(_) => 8
      case Clearing => 7
      case Reaping(_) => 7
      case Leaving => 3
      case Dropping => 2
      case Ended => 0
      case _ => 6
  }

  function StopRank(th: Thread): nat {
    if !th.Stop? then 0
    else match th.stage
      case Sweeping(last) => if last then 3 else 6
      case Killing(last, _) => if last then 2 else 5
      case Waiting => 4
      case Returned(_) => 0
  }

  // The next step of an operation that hurries to its end, killing what it has to kill.
  function GuardEvent(s: State, u: Tid): Event
    requires u in s.threads && Guarding(s.threads[u])
  {
    if s.threads[u].Entered? then EnterControl(u)
    else match s.threads[u].phase
      case Holding(_) => Publish(u)
      case Condemned(_) => Terminate(u, true)
      case Clearing => ClearSlot(u)
      case Reaping(_) => OwnKill(u, true)
      case Leaving => DropControl(u)
      case Dropping => DropFlag(u)
      case _ => Leave(u)
  }

  // The next step of a stop whose kills succeed.
  function StopEvent(s: State, t: Tid): Event
    requires t in s.threads && InFlight(s.threads[t])
  {
    match s.threads[t].stage
    case Sweeping(_) => Take(t)
    case Killing(_, _) => Kill(t, true)
    case _ => SeeIdle(t)
  }

  lemma GuardMoves(s: State, u: Tid)
    requires Guarded(s, u)
    ensures var e := GuardEvent(s, u);
            && Enabled(s, e) && Orderly(s, e) && Actor(e) == Some(u)
            && (Guarded(Apply(s, e), u) || !Apply(s, e).active)
            && GuardRank(Apply(s, e).threads[u]) < GuardRank(s.threads[u])
            && Apply(s, e).owner == s.owner
  {
  }

  lemma StopMoves(s: State, t: Tid)
    requires t in s.threads && Awaits(s.threads[t]) && (s.threads[t].stage.Waiting? ==> !s.active)
    ensures var e := StopEvent(s, t);
            && Enabled(s, e) && Orderly(s, e) && Actor(e) == Some(t)
            && Apply(s, e).active == s.active && Apply(s, e).owner == s.owner
            && Apply(s, e).threads[t].Stop? && Apply(s, e).threads[t].ticket == s.threads[t].ticket
            && StopRank(Apply(s, e).threads[t]) < StopRank(s.threads[t])
            && (Awaits(Apply(s, e).threads[t]) || Apply(s, e).threads[t].stage == Returned(true))
  {
  }

  // Whoever holds the guard is let to its end, then the stop goes on.
  function NextEvent(s: State, t: Tid, u: Tid): Event
    requires t in s.threads && InFlight(s.threads[t]) && (s.active ==> Guarded(s, u))
  {
    if s.threads[t].stage.Waiting? && s.active then GuardEvent(s, u) else StopEvent(s, t)
  }

  function Rank(s: State, t: Tid, u: Tid): nat
    requires t in s.threads
  {
    StopRank(s.threads[t]) * 20
    + if s.threads[t].Stop? && s.threads[t].stage.Waiting? && s.active && u in s.threads then GuardRank(s.threads[u]) else 0
  }

  lemma NextMoves(s: State, t: Tid, u: Tid)
    requires t in s.threads && Awaits(s.threads[t]) && (s.active ==> Guarded(s, u))
    ensures var e := NextEvent(s, t, u);
            && Enabled(s, e) && Orderly(s, e) && Apply(s, e).owner == s.owner
            && t in Apply(s, e).threads && Rank(Apply(s, e), t, u) < Rank(s, t, u)
            && Apply(s, e).threads[t].Stop? && Apply(s, e).threads[t].ticket == s.threads[t].ticket
            && (Awaits(Apply(s, e).threads[t]) || Apply(s, e).threads[t].stage == Returned(true))
            && (Apply(s, e).active ==> Guarded(Apply(s, e), u))
            && !e.Exit? && !e.KillStrays?
  {
    var e := NextEvent(s, t, u);
    if s.threads[t].stage.Waiting? && s.active {
      GuardMoves(s, u);
      OnlyTheActorMoves(s, e);
    } else {
      StopMoves(s, t);
      OnlyTheActorMoves(s, e);
      assert GuardRankIsSmall(s, u) && GuardRankIsSmall(Apply(s, e), u);
    }
  }

  predicate GuardRankIsSmall(s: State, u: Tid) {
    u in s.threads ==> GuardRank(s.threads[u]) < 20
  }

  // A stop has taken the handle of `p` and not killed it yet.
  ghost predicate KilledBy(s: State, v: Tid, p: Pid) {
    v in s.threads && s.threads[v].Stop? && Holds(s.threads[v], p)
  }

  // The stop `t` will not find it.
  ghost predicate OutOfReach(s: State, t: Tid, p: Pid) {
    p in s.lost || exists v :: v != t && KilledBy(s, v, p)
  }

  lemma OutOfReachStays(s: State, t: Tid, u: Tid, p: Pid)
    requires Inv(s) && t in s.threads && Awaits(s.threads[t]) && (s.active ==> Guarded(s, u))
    requires OutOfReach(s, t, p) && p in s.alive && Enabled(s, NextEvent(s, t, u))
    ensures OutOfReach(Apply(s, NextEvent(s, t, u)), t, p) && p in Apply(s, NextEvent(s, t, u)).alive
  {
    var e := NextEvent(s, t, u);
    OnlyTheActorMoves(s, e);
    if p in s.lost {
      LostProcessesDieOnlyThen(s, e, p);
    } else {
      var v :| v != t && KilledBy(s, v, p);
      OthersStay(s, t, u, v);
      HeldStayAlive(s, e, v, p);
      assert KilledBy(Apply(s, e), v, p);
    }
  }

  lemma OthersStay(s: State, t: Tid, u: Tid, v: Tid)
    requires t in s.threads && Awaits(s.threads[t]) && (s.active ==> Guarded(s, u))
    requires v != t && v in s.threads && s.threads[v].Stop?
    ensures var e := NextEvent(s, t, u); Actor(e).Some? && Actor(e) != Some(v) && !e.Exit? && !e.KillStrays?
  {
  }

  lemma HeldStayAlive(s: State, e: Event, v: Tid, p: Pid)
    requires HandleInv(s) && Enabled(s, e) && p in s.alive && v in s.threads && Holds(s.threads[v], p)
    requires Actor(e).Some? && Actor(e) != Some(v) && !e.Exit? && !e.KillStrays?
    ensures p in Apply(s, e).alive
  {
    assert HeldBy(s.threads[v]) == Some(p);
    if Actor(e).value in s.threads {
      assert !Holds(s.threads[Actor(e).value], p);
    }
  }

  // From every state: there is an orderly run in which the stop answers Ok.  What is out of reach
  // by then stays alive in it.
  lemma {:induction false} StopsCanFinish(s: State, t: Tid, u: Tid) returns (es: seq<Event>)
    requires Inv(s) && t in s.threads && Awaits(s.threads[t]) && (s.active ==> Guarded(s, u))
    ensures OrderlyRun(s, es) && CanRun(s, es)
    ensures var s' := After(s, es);
            && t in s'.threads && s'.threads[t] == Stop(s.threads[t].ticket, Returned(true)) && s'.owner == s.owner
            && forall p :: OutOfReach(s, t, p) && p in s.alive ==> p in s'.alive
    decreases Rank(s, t, u)
  {
    NextMoves(s, t, u);
    var e := NextEvent(s, t, u);
    var s1 := Apply(s, e);
    InvKept(s, e);
    forall p | OutOfReach(s, t, p) && p in s.alive
      ensures OutOfReach(s1, t, p) && p in s1.alive
    {
      OutOfReachStays(s, t, u, p);
    }
    if s1.threads[t].stage == Returned(true) {
      es := [e];
    } else {
      var rest := StopsCanFinish(s1, t, u);
      es := [e] + rest;
      assert es[1..] == rest;
    }
  }

  // --- the duties that are not about calls ------------------------------------------------------

  // Only starts and autotests have processes.
  ghost predicate OwnersSpawn(s: State) {
    forall t, p :: (t in s.threads && s.threads[t].Op? && p in s.owner && s.owner[p] == s.threads[t].gen) ==> Spawner(s.threads[t])
  }

  ghost predicate Flagged(s: State) {
    s.active ==> SomeGuard(s)
  }

  lemma OwnersSpawnKept(s: State, e: Event)
    requires GenInv(s) && PhaseInv(s) && OwnersSpawn(s) && Enabled(s, e)
    ensures OwnersSpawn(Apply(s, e))
  {
    OnlyTheActorMoves(s, e);
    OnlySpawnAddsProcesses(s, e);
    if Actor(e).Some? {
      NamesStay(s, e);
    }
    var s' := Apply(s, e);
    forall t, p | t in s'.threads && s'.threads[t].Op? && p in s'.owner && s'.owner[p] == s'.threads[t].gen
      ensures Spawner(s'.threads[t])
    {
      if e.Spawn? && p == e.p {
        assert HasGen(s.threads[e.t], s'.threads[t].gen) && PhaseFits(s.threads[e.t]);
      }
    }
  }

  // An operation keeps its name and generation; a new one has a generation nobody owns.
  lemma NamesStay(s: State, e: Event)
    requires Enabled(s, e) && Actor(e).Some?
    ensures var th' := Apply(s, e).threads[Actor(e).value];
            th'.Op? ==>
              || th'.gen == s.generation + 1
              || (Actor(e).value in s.threads && s.threads[Actor(e).value].Op?
                  && s.threads[Actor(e).value].gen == th'.gen && s.threads[Actor(e).value].name == th'.name)
  {
  }

  // An escape that the rest of the run, orderly, can still lead to.
  ghost predicate CanEscape(s: State) {
    exists es, t, op, g, p :: OrderlyRun(s, es) && CanRun(s, es) && Escaped(After(s, es), t, op, g, p)
  }

  // A stop that owes the death of a process out of reach can answer Ok while it lives.
  lemma OwedAndOutOfReach(s: State, t: Tid, p: Pid)
    requires Inv(s) && Flagged(s) && t in s.threads && Awaits(s.threads[t])
    requires OutOfReach(s, t, p) && p in s.alive && p in s.owner && s.owner[p] == s.threads[t].ticket.value.gen
    ensures CanEscape(s)
  {
    var u: Tid := t;
    if s.active {
      u :| Guarded(s, u);
    }
    var es := StopsCanFinish(s, t, u);
    var ticket := s.threads[t].ticket.value;
    assert Escaped(After(s, es), t, ticket.op, ticket.gen, p);
  }

  lemma EscapeOneStepEarlier(s: State, e: Event)
    requires Enabled(s, e) && Orderly(s, e) && CanEscape(Apply(s, e))
    ensures CanEscape(s)
  {
    var es, t, op, g, p :| OrderlyRun(Apply(s, e), es) && CanRun(Apply(s, e), es) && Escaped(After(Apply(s, e), es), t, op, g, p);
    var all := [e] + es;
    assert all[1..] == es;
    assert OrderlyRun(s, all) && CanRun(s, all) && After(s, all) == After(Apply(s, e), es);
  }

  lemma FreshThread(keys: set<Tid>) returns (t: Tid)
    ensures t !in keys
  {
    t := 0;
    var below: set<Tid> := {};
    while t in keys
      invariant below <= keys && forall k: Tid :: k in below <==> k < t
      decreases keys - below
    {
      below, t := below + {t}, t + 1;
    }
  }

  // The death of `p` can come to be owed: its operation is registered, and a stop may cancel it.
  lemma RegisteredAndLost(s: State, p: Pid)
    requires Inv(s) && OneStop(s) && StopShuts(s) && OwnersSpawn(s) && Flagged(s)
    requires p in s.lost && p in s.alive && p in s.owner && s.operation.Some? && s.generation == s.owner[p]
    ensures CanEscape(s)
  {
    var u :| Guarded(s, u);
    assert Current(s, s.threads[u]) && Spawner(s.threads[u]);
    if v :| v in s.threads && Awaits(s.threads[v]) {
      assert !Touches(s.threads[v]);
      var e := GiveUp(v);
      var s1 := Apply(s, e);
      assert Orderly(s, e);
      InvKept(s, e);
      assert Guarded(s1, u);
      forall w | w in s1.threads
        ensures !Awaits(s1.threads[w])
      {
      }
      CancelledAndOutOfReach(s1, u, p);
      EscapeOneStepEarlier(s, e);
    } else {
      CancelledAndOutOfReach(s, u, p);
    }
  }

  lemma CancelledAndOutOfReach(s: State, u: Tid, p: Pid)
    requires Inv(s) && Guarded(s, u) && Spawner(s.threads[u]) && forall w :: w in s.threads ==> !Awaits(s.threads[w])
    requires (p in s.lost || exists v :: KilledBy(s, v, p)) && p in s.alive && p in s.owner && s.operation.Some? && s.generation == s.owner[p]
    ensures CanEscape(s)
  {
    var c := FreshThread(s.threads.Keys);
    var e := Cancel(c);
    var s1 := Apply(s, e);
    assert Current(s, s.threads[u]);
    forall w | w in s.threads
      ensures !Begins(s.threads[w])
    {
      assert Guarding(s.threads[w]) ==> w == u;
    }
    assert Orderly(s, e);
    InvKept(s, e);
    assert Guarded(s1, u);
    assert OutOfReach(s1, c, p) by {
      if v :| KilledBy(s, v, p) {
        assert KilledBy(s1, v, p);
      }
    }
    OwedAndOutOfReach(s1, c, p);
    EscapeOneStepEarlier(s, e);
  }

  // What a step that loses a process leaves of the state.
  ghost predicate Loses(s: State, s': State, p: Pid) {
    && p in s.alive && p in s.owner && !WrittenOff(s, s.owner[p]) && p in s'.lost && p in s'.alive
    && s'.owner == s.owner && s'.operation == s.operation && s'.generation == s.generation
    && forall t :: t in s.threads && s.threads[t].Stop? ==> t in s'.threads && s'.threads[t] == s.threads[t]
  }

  lemma PollLoses(s: State, e: Event)
    requires HandleInv(s) && Enabled(s, e) && !Respects(s, e, PollSure)
    ensures Loses(s, Apply(s, e), s.slot.value)
  {
  }

  lemma TerminationLoses(s: State, e: Event)
    requires HandleInv(s) && Enabled(s, e) && !Respects(s, e, ChildDies)
    ensures Loses(s, Apply(s, e), s.threads[e.t].phase.pid)
  {
  }

  lemma LostByTheStep(s: State, e: Event) returns (p: Pid)
    requires HandleInv(s) && Enabled(s, e) && CallsApart(s, e) && !Orderly(s, e)
    ensures Loses(s, Apply(s, e), p)
  {
    var d :| !Respects(s, e, d);
    if d == PollSure {
      PollLoses(s, e);
      p := s.slot.value;
    } else {
      TerminationLoses(s, e);
      p := s.threads[e.t].phase.pid;
    }
  }

  // A step that drops the handle of a live process whose death is owed, or can come to be owed.
  lemma LossIsFatal(s: State, e: Event)
    requires OrderlyInv(s) && OwnersSpawn(s) && Flagged(s) && Enabled(s, e) && CallsApart(s, e) && !Orderly(s, e)
    ensures CanEscape(Apply(s, e))
  {
    var p := LostByTheStep(s, e);
    OneStopKept(s, e);
    StopShutsKept(s, e);
    InvKept(s, e);
    OwnersSpawnKept(s, e);
    if Apply(s, e).active {
      FlagStep(s, e);
    }
    LostProcessesEscape(s, Apply(s, e), p);
  }

  lemma LostProcessesEscape(s: State, s': State, p: Pid)
    requires Loses(s, s', p) && StopOkIsFinal(s)
    requires Inv(s') && OneStop(s') && StopShuts(s') && OwnersSpawn(s') && Flagged(s')
    ensures CanEscape(s')
  {
    if s.operation.Some? && s.generation == s.owner[p] {
      RegisteredAndLost(s', p);
    } else {
      var t :| t in s.threads && s.threads[t].Stop? && s.threads[t].ticket.Some? && s.threads[t].ticket.value.gen == s.owner[p]
               && OperationCanSpawn(s.threads[t].ticket.value.op) && s.threads[t].stage != Returned(false);
      var confirmed := ConfirmedStop(s, t, s.threads[t].ticket.value);
      OwedAndOutOfReach(s', t, p);
    }
  }

  // For these two duties the condition is exact: when the calls keep apart, an orderly run can
  // go on without ever coming to an escape exactly if the step respects them.
  lemma LossesDecide(s: State, e: Event)
    requires OrderlyInv(s) && OwnersSpawn(s) && Flagged(s) && Enabled(s, e) && CallsApart(s, e)
    ensures Orderly(s, e) <==> !CanEscape(Apply(s, e))
  {
    if !Orderly(s, e) {
      LossIsFatal(s, e);
    } else {
      OrderlyInvKept(s, e);
      NoEscape(Apply(s, e));
    }
  }

  lemma NoEscape(s: State)
    requires OrderlyInv(s)
    ensures !CanEscape(s)
  {
    forall es, t, op, g, p | OrderlyRun(s, es) && CanRun(s, es)
      ensures !Escaped(After(s, es), t, op, g, p)
    {
      OrderlyInvAlways(s, es);
    }
  }

  // Every orderly run keeps what this needs.
  lemma {:induction false} OrderlyRunsKeepIt(s: State, es: seq<Event>)
    requires OrderlyInv(s) && OwnersSpawn(s) && Flagged(s) && OrderlyRun(s, es)
    ensures CanRun(s, es) && OrderlyInv(After(s, es)) && OwnersSpawn(After(s, es)) && Flagged(After(s, es))
    decreases es
  {
    if es != [] {
      OrderlyInvKept(s, es[0]);
      OwnersSpawnKept(s, es[0]);
      if Apply(s, es[0]).active {
        FlagStep(s, es[0]);
      }
      OrderlyRunsKeepIt(Apply(s, es[0]), es[1..]);
    }
  }

  // After any orderly run from the start, at any step whose calls keep apart.
  lemma EscapesBeginWithALoss(es: seq<Event>, e: Event)
    requires OrderlyRun(INITIAL, es)
    ensures CanRun(INITIAL, es)
    ensures Enabled(After(INITIAL, es), e) && CallsApart(After(INITIAL, es), e) ==>
              (Orderly(After(INITIAL, es), e) <==> !CanEscape(Apply(After(INITIAL, es), e)))
  {
    OrderlyRunsKeepIt(INITIAL, es);
    if Enabled(After(INITIAL, es), e) && CallsApart(After(INITIAL, es), e) {
      LossesDecide(After(INITIAL, es), e);
    }
  }
}
