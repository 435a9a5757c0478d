/**
  The overlaps of calls that do no harm: a stop called while another one owes the end of an
  operation, when nothing that either of them owes is in the slot or on its way back to it; and a
  start called while a stop is about to find the slot empty.
 */
module DpiLifecycleOverlap {
  import opened Common
  import opened DpiLifecycle
  import opened DpiLifecycleOrderly
  import opened DpiLifecycleProgress

  // A live process whose death is owed by a stop, or can come to be owed.
  ghost predicate Owed(s: State, p: Pid) {
    p in s.alive && p in s.owner && !WrittenOff(s, s.owner[p])
  }

  predicate Reaps(th: Thread, p: Pid) {
    th.Op? && th.phase == Reaping(p)
  }

  // In the slot, or in the hands of an autotest that may put it back there.
  ghost predicate NearSlot(s: State, p: Pid) {
    s.slot == Some(p) || exists t :: t in s.threads && Reaps(s.threads[t], p)
  }

  // --- two stops at once ------------------------------------------------------------------------

  // An owed process that another stop could take is one of the operation registered now, which no
  // stop under way has cancelled; and a stop kills only what is its own to kill.
  ghost predicate OwedApart(s: State) {
    && (forall p :: Owed(s, p) && NearSlot(s, p) ==> s.operation.Some? && s.generation == s.owner[p])
    && (forall t, p :: t in s.threads && s.threads[t].Stop? && Holds(s.threads[t], p) && Owed(s, p) ==>
                         Awaits(s.threads[t]) && s.threads[t].ticket.value.gen == s.owner[p])
  }

  ghost predicate WaitsAwait(s: State) {
    forall t :: t in s.threads && s.threads[t].Stop? && s.threads[t].stage.Waiting? ==> Awaits(s.threads[t])
  }

  ghost predicate AwaitsDiffer(s: State) {
    forall t, u ::
      (t in s.threads && u in s.threads && Awaits(s.threads[t]) && Awaits(s.threads[u])
       && s.threads[t].ticket.value.gen == s.threads[u].ticket.value.gen) ==> t == u
  }

  // What every run keeps, whatever overlaps.
  ghost predicate Grounds(s: State) {
    Inv(s) && OwnersSpawn(s) && Flagged(s) && LostAreWrittenOff(s) && StopOkIsFinal(s)
  }

  ghost predicate Crowded(s: State) {
    && Grounds(s) && StopShuts(s) && OneBorrower(s) && SlotKnown(s)
    && WaitsAwait(s) && AwaitsDiffer(s) && OwedApart(s)
  }

  // Only a cancel makes the death of a process owed that could not come to be owed before.
  lemma OwedBefore(s: State, e: Event, p: Pid)
    requires GenInv(s) && Enabled(s, e) && Owed(Apply(s, e), p)
    ensures Owed(s, p) || (e.Spawn? && e.p == p)
  {
    OnlySpawnAddsProcesses(s, e);
    if !e.Spawn? && WrittenOff(s, s.owner[p]) {
      WrittenOffStays(s, e, s.owner[p]);
    } else if e.Spawn? && p != e.p && WrittenOff(s, s.owner[p]) {
      WrittenOffStays(s, e, s.owner[p]);
    }
  }

  // How a step may publish a process or let a stop take one.
  ghost predicate PublishStep(s: State, e: Event, p: Pid)
    requires Enabled(s, e)
  {
    var s' := Apply(s, e);
    && (NearSlot(s', p) ==>
          || NearSlot(s, p)
          || (e.Publish? && s.operation.Some? && Holds(s.threads[e.t], p)
              && s.threads[e.t].gen == s.generation && s'.operation == s.operation && s'.generation == s.generation)
          || (e.Kill? && Holds(s.threads[e.t], p) && s'.threads[e.t] == s.threads[e.t].(stage := Returned(false))))
    && (forall t :: t in s'.threads && s'.threads[t].Stop? && Holds(s'.threads[t], p) ==>
          || (t in s.threads && s.threads[t].Stop? && Holds(s.threads[t], p) && s'.threads[t] == s.threads[t])
          || (t in s.threads && Touches(s.threads[t]) && s.slot == Some(p)))
  }

  lemma StopStepPublishes(s: State, e: Event, p: Pid)
    requires Enabled(s, e) && ByStop(e)
    ensures PublishStep(s, e, p)
  {
    OnlyTheActorMoves(s, e);
  }

  lemma OperationStepPublishes(s: State, e: Event, p: Pid)
    requires Enabled(s, e) && !ByStop(e)
    ensures PublishStep(s, e, p)
  {
    OnlyTheActorMoves(s, e);
  }

  // What is registered stays so, unless it is cancelled or ends.
  lemma RegisteredStays(s: State, e: Event)
    requires GuardInv(s) && Enabled(s, e) && s.operation.Some? && !e.Cancel?
    ensures var s' := Apply(s, e);
            s'.operation == s.operation || (s'.operation.None? && e.DropControl?)
    ensures Apply(s, e).generation == s.generation
  {
  }

  // When it ends, nothing of it is owed any more.
  lemma EndsUnowed(s: State, e: Event, p: Pid)
    requires GenInv(s) && Enabled(s, e) && e.DropControl? && p in s.owner && s.owner[p] == s.generation
    requires Apply(s, e).operation.None?
    ensures !Owed(Apply(s, e), p)
  {
    OnlyTheActorMoves(s, e);
  }

  lemma RegisteredSpawns(s: State, p: Pid)
    requires GuardInv(s) && OwnersSpawn(s) && Flagged(s)
    requires s.operation.Some? && p in s.owner && s.owner[p] == s.generation
    ensures OperationCanSpawn(s.operation.value)
  {
    var u :| Guarded(s, u);
    assert Current(s, s.threads[u]);
  }

  // When the kill of the only stop that owes it fails, a process is written off.
  lemma FailedKillWritesOff(s: State, e: Event, p: Pid)
    requires GenInv(s) && AwaitsDiffer(s) && StopOkIsFinal(s) && Enabled(s, e) && e.Kill? && !e.ok && p in s.alive && p in s.owner
    requires Awaits(s.threads[e.t]) && s.threads[e.t].ticket.value.gen == s.owner[p]
    ensures !Owed(Apply(s, e), p)
  {
    OnlyTheActorMoves(s, e);
    forall v | v in s.threads && v != e.t && s.threads[v].Stop? && s.threads[v].ticket.Some?
               && s.threads[v].ticket.value.gen == s.owner[p] && OperationCanSpawn(s.threads[v].ticket.value.op)
      ensures s.threads[v].stage == Returned(false)
    {
      var confirmed, awaits := ConfirmedStop(s, v, s.threads[v].ticket.value), Awaits(s.threads[v]);
    }
  }

  lemma NewProcessIsUnpublished(s: State, p: Pid)
    requires HandleInv(s) && p !in s.owner
    ensures !NearSlot(s, p) && forall t :: t in s.threads ==> !Holds(s.threads[t], p)
  {
    assert forall t :: t in s.threads && Reaps(s.threads[t], p) ==> Holds(s.threads[t], p);
  }

  lemma OwedApartKept(s: State, e: Event)
    requires Crowded(s) && Enabled(s, e) && !e.Cancel?
    ensures OwedApart(Apply(s, e))
  {
    var s' := Apply(s, e);
    forall p | Owed(s', p) && NearSlot(s', p)
      ensures s'.operation.Some? && s'.generation == s'.owner[p]
    {
      NearSlotStaysApart(s, e, p);
    }
    forall t, p | t in s'.threads && s'.threads[t].Stop? && Holds(s'.threads[t], p) && Owed(s', p)
      ensures Awaits(s'.threads[t]) && s'.threads[t].ticket.value.gen == s'.owner[p]
    {
      TakenStaysApart(s, e, t, p);
    }
  }

  lemma EveryStepPublishes(s: State, e: Event, p: Pid)
    requires Enabled(s, e)
    ensures PublishStep(s, e, p)
  {
    if ByStop(e) {
      StopStepPublishes(s, e, p);
    } else {
      OperationStepPublishes(s, e, p);
    }
  }

  lemma NearSlotStaysApart(s: State, e: Event, p: Pid)
    requires Crowded(s) && Enabled(s, e) && !e.Cancel? && Owed(Apply(s, e), p) && NearSlot(Apply(s, e), p)
    ensures Apply(s, e).operation.Some? && Apply(s, e).generation == Apply(s, e).owner[p]
  {
    OwedBefore(s, e, p);
    OnlySpawnAddsProcesses(s, e);
    EveryStepPublishes(s, e, p);
    if p !in s.owner {
      NewProcessIsUnpublished(s, p);
    } else if NearSlot(s, p) {
      RegisteredStays(s, e);
      if e.DropControl? && Apply(s, e).operation.None? {
        EndsUnowed(s, e, p);
      }
    } else if e.Kill? {
      FailedKillWritesOff(s, e, p);
    }
  }

  lemma TakenStaysApart(s: State, e: Event, t: Tid, p: Pid)
    requires Crowded(s) && Enabled(s, e) && !e.Cancel? && Owed(Apply(s, e), p)
    requires t in Apply(s, e).threads && Apply(s, e).threads[t].Stop? && Holds(Apply(s, e).threads[t], p)
    ensures var s' := Apply(s, e); Awaits(s'.threads[t]) && s'.threads[t].ticket.value.gen == s'.owner[p]
  {
    OwedBefore(s, e, p);
    OnlySpawnAddsProcesses(s, e);
    EveryStepPublishes(s, e, p);
    if p !in s.owner {
      NewProcessIsUnpublished(s, p);
    } else if t in s.threads && Touches(s.threads[t]) && s.slot == Some(p) {
      StopsTakeNothingOwed(s, t, p);
    }
  }

  lemma StopsTakeNothingOwed(s: State, t: Tid, p: Pid)
    requires Crowded(s) && t in s.threads && Touches(s.threads[t]) && s.slot == Some(p) && p in s.owner
    ensures !Owed(s, p)
  {
    var near := NearSlot(s, p);
    if s.operation.Some? && s.generation == s.owner[p] {
      RegisteredSpawns(s, p);
    }
  }

  lemma AwaitsKept(s: State, e: Event)
    requires WaitsAwait(s) && AwaitsDiffer(s) && Enabled(s, e) && CallsApart(s, e) && !e.Cancel?
    ensures WaitsAwait(Apply(s, e)) && AwaitsDiffer(Apply(s, e))
  {
    OnlyTheActorMoves(s, e);
    if Actor(e).Some? {
      EveryStepIsAShutStep(s, e);
    }
  }

  lemma CrowdedLosses(s: State, e: Event)
    requires Crowded(s) && Enabled(s, e) && Orderly(s, e)
    ensures LosesOnlyWrittenOff(s, e)
  {
    if WritesSlot(s, e) && !e.ClearSlot? && !e.Poll? {
      OnlyLooksWriteOver(s, e);
    } else if e.ClearSlot? {
      if s.slot.Some? && s.slot.value in s.alive {
        ClearsNothingOwed(s, e.t, s.slot.value);
      }
    } else {
      assert Respects(s, e, PollSure) && Respects(s, e, ChildDies);
      LossesRespectDuties(s, e);
    }
  }

  lemma LossesRespectDuties(s: State, e: Event)
    requires HandleInv(s) && Enabled(s, e) && Respects(s, e, PollSure) && Respects(s, e, ChildDies)
    requires WritesSlot(s, e) ==> e.Poll?
    ensures LosesOnlyWrittenOff(s, e)
  {
  }

  lemma OnlyLooksWriteOver(s: State, e: Event)
    requires GuardInv(s) && OneBorrower(s) && SlotKnown(s) && Enabled(s, e) && WritesSlot(s, e)
    requires !e.ClearSlot? && !e.Poll?
    ensures s.slot.None?
  {
    assert e.OwnKill? || e.Kill? ==> Borrows(s.threads[e.t]);
    assert e.Publish? ==> Guarding(s.threads[e.t]) && NeedsEmptySlot(s.threads[e.t]);
  }

  lemma ClearsNothingOwed(s: State, t: Tid, p: Pid)
    requires GuardInv(s) && SlotKnown(s) && OwedApart(s) && InPhase(s, t, Clearing) && s.slot == Some(p) && p in s.alive
    ensures !Owed(s, p)
  {
    assert Guarding(s.threads[t]) && NeedsDeadSlot(s.threads[t]);
    var near := NearSlot(s, p);
  }

  lemma NearMeans(s: State, p: Pid)
    ensures forall u :: TakenBy(s, u, p) && s.threads[u].Op? ==> NearSlot(s, p)
  {
    assert forall u :: TakenBy(s, u, p) && s.threads[u].Op? ==> Reaps(s.threads[u], p);
  }

  lemma CrowdedLeavesNothing(s: State, t: Tid)
    requires Crowded(s)
    ensures LeavesNothing(s, t)
  {
    if t in s.threads && PastWait(s.threads[t]) && InFlight(s.threads[t]) && s.slot.None? {
      forall p | p in s.alive && p in s.owner && s.owner[p] == s.threads[t].ticket.value.gen
        ensures Holds(s.threads[t], p)
      {
        NearMeans(s, p);
        OverMeans(s, s.threads[t].ticket.value.gen, p);
        assert Owed(s, p);
      }
    }
  }

  lemma GroundsKept(s: State, e: Event)
    requires Grounds(s) && OneBorrower(s) && Enabled(s, e) && LosesOnlyWrittenOff(s, e) && forall t :: LeavesNothing(s, t)
    ensures Grounds(Apply(s, e))
  {
    InvKept(s, e);
    OwnersSpawnKept(s, e);
    if Apply(s, e).active {
      FlagStep(s, e);
    }
    LostAreWrittenOffKept(s, e);
    StopOkIsFinalKept(s, e);
  }

  lemma CrowdedKept(s: State, e: Event)
    requires Crowded(s) && Enabled(s, e) && Orderly(s, e) && !e.Cancel?
    ensures Crowded(Apply(s, e))
  {
    assert CallsApart(s, e) by {
      assert Respects(s, e, StopsApart) && Respects(s, e, BeginsApart) && Respects(s, e, CancelsApart);
    }
    CrowdedLosses(s, e);
    forall t
      ensures LeavesNothing(s, t)
    {
      CrowdedLeavesNothing(s, t);
    }
    GroundsKept(s, e);
    StopShutsKept(s, e);
    OneBorrowerKept(s, e);
    SlotKnownKept(s, e);
    AwaitsKept(s, e);
    OwedApartKept(s, e);
  }

  // When the last stop that owes something has returned, everything is orderly again.
  lemma CrowdDisperses(s: State)
    requires Crowded(s) && forall t :: t in s.threads ==> !Awaits(s.threads[t])
    ensures OrderlyInv(s)
  {
  }

  // A stop called while another one owes the end of an operation.
  lemma CancelCrowds(s: State, e: Event)
    requires OrderlyInv(s) && Grounds(s) && Enabled(s, e) && e.Cancel? && Respects(s, e, CancelsApart)
    requires forall p :: Owed(s, p) ==> !NearSlot(s, p)
    ensures Crowded(Apply(s, e))
  {
    OnlyTheActorMoves(s, e);
    forall t
      ensures LeavesNothing(s, t)
    {
      OrderlyLeavesNothing(s, t);
    }
    GroundsKept(s, e);
    OneBorrowerKept(s, e);
    CancelShuts(s, e);
    CancelKeepsApart(s, e);
  }

  lemma CancelShuts(s: State, e: Event)
    requires GuardInv(s) && GenInv(s) && OneStop(s) && StopShuts(s) && Enabled(s, e) && e.Cancel? && Respects(s, e, CancelsApart)
    ensures StopShuts(Apply(s, e)) && WaitsAwait(Apply(s, e)) && AwaitsDiffer(Apply(s, e))
  {
    OnlyTheActorMoves(s, e);
  }

  lemma CancelKeepsApart(s: State, e: Event)
    requires GuardInv(s) && GenInv(s) && OwnersSpawn(s) && Flagged(s) && StopShuts(s) && OneStop(s) && StopOkIsFinal(s)
    requires Enabled(s, e) && e.Cancel? && forall p :: Owed(s, p) ==> !NearSlot(s, p)
    ensures OwedApart(Apply(s, e))
  {
    OnlyTheActorMoves(s, e);
    var s' := Apply(s, e);
    forall p | Owed(s', p)
      ensures Owed(s, p) && !NearSlot(s', p)
    {
      OwedBefore(s, e, p);
      EveryStepPublishes(s, e, p);
    }
    forall t, p | t in s'.threads && s'.threads[t].Stop? && Holds(s'.threads[t], p) && Owed(s', p)
      ensures Awaits(s'.threads[t]) && s'.threads[t].ticket.value.gen == s'.owner[p]
    {
      KillerOwes(s, t, p);
    }
  }

  lemma KillerOwes(s: State, t: Tid, p: Pid)
    requires GuardInv(s) && OwnersSpawn(s) && Flagged(s) && StopShuts(s) && OneStop(s) && StopOkIsFinal(s)
    requires t in s.threads && s.threads[t].Stop? && Holds(s.threads[t], p) && Owed(s, p)
    ensures Awaits(s.threads[t]) && s.threads[t].ticket.value.gen == s.owner[p]
  {
    var touches := Touches(s.threads[t]);
    if s.operation.Some? && s.generation == s.owner[p] {
      RegisteredSpawns(s, p);
    }
    var v :| v in s.threads && s.threads[v].Stop? && s.threads[v].ticket.Some? && s.threads[v].ticket.value.gen == s.owner[p]
             && OperationCanSpawn(s.threads[v].ticket.value.op) && s.threads[v].stage != Returned(false);
    var confirmed := ConfirmedStop(s, v, s.threads[v].ticket.value);
    assert Awaits(s.threads[v]) && InFlight(s.threads[t]);
  }

  // --- a start under a stop ---------------------------------------------------------------------

  // A start that has not handed over its child.
  predicate EarlyStart(th: Thread) {
    Begins(th) || (th.Op? && th.name == Start && (th.phase.Checking? || NeedsEmptySlot(th)))
  }

  // The only starts and autotests at work are starts, registered until they end, and the slot is
  // empty and out of the stop's hands until they fill it.
  ghost predicate OnlyStarts(s: State, u: Tid)
    requires u in s.threads
  {
    forall v :: v in s.threads ==> IsStart(s, u, s.threads[v])
  }

  predicate IsStart(s: State, u: Tid, th: Thread)
    requires u in s.threads
  {
    && (Begins(th) ==> th.op == Start)
    && (Spawner(th) && Guarding(th) ==> th.name == Start && (th.phase.Dropping? || s.operation.Some?))
    && (EarlyStart(th) ==> s.slot.None? && !Borrows(s.threads[u]))
  }

  // The one stop under way touches the child, and all that it owed is done.
  ghost predicate Under(s: State, u: Tid) {
    && Grounds(s) && OneStop(s) && OneBorrower(s)
    && u in s.threads && Awaits(s.threads[u]) && Touches(s.threads[u])
    && OperationOver(s, s.threads[u].ticket.value.gen)
    && (forall p :: p in s.alive && p in s.owner ==> s.owner[p] != s.threads[u].ticket.value.gen)
    && OnlyStarts(s, u)
  }

  lemma UnderLosses(s: State, e: Event, u: Tid)
    requires Under(s, u) && Enabled(s, e) && Orderly(s, e)
    ensures LosesOnlyWrittenOff(s, e)
  {
    assert Respects(s, e, PollSure) && Respects(s, e, ChildDies);
    if WritesSlot(s, e) && !e.Poll? {
      UnderWrites(s, e, u);
    }
  }

  lemma UnderWrites(s: State, e: Event, u: Tid)
    requires PhaseInv(s) && OneBorrower(s) && u in s.threads && OnlyStarts(s, u) && Enabled(s, e) && WritesSlot(s, e) && !e.Poll?
    ensures s.slot.None?
  {
    assert PhaseFits(s.threads[e.t]) && IsStart(s, u, s.threads[e.t]);
    assert e.OwnKill? || e.Kill? ==> Borrows(s.threads[e.t]);
  }

  lemma UnderLeavesNothing(s: State, u: Tid)
    requires Under(s, u)
    ensures forall t :: LeavesNothing(s, t)
  {
    forall t
      ensures LeavesNothing(s, t)
    {
      assert t in s.threads && PastWait(s.threads[t]) && InFlight(s.threads[t]) ==> t == u;
    }
  }

  // How an orderly step may go on under the stop `u`.
  ghost predicate UnderStep(s: State, s': State, t: Tid, u: Tid)
    requires u in s.threads && s.threads[u].Stop?
  {
    && t in s'.threads && u in s'.threads
    && (t == u ==> UnderStopStep(s, s', u))
    && (t != u ==> s'.threads[u] == s.threads[u] && !InFlight(s'.threads[t]) && !Borrows(s'.threads[t]) && IsStart(s', u, s'.threads[t])
                   && (EarlyStart(s'.threads[t]) ==> t in s.threads && EarlyStart(s.threads[t]))
                   && (s'.slot.Some? ==> s'.slot == s.slot || (t in s.threads && EarlyStart(s.threads[t])))
                   && (s.operation.Some? && s'.operation.None? ==> Guarded(s, t) && s'.threads[t].Op? && s'.threads[t].phase.Dropping?))
  }

  ghost predicate UnderStopStep(s: State, s': State, u: Tid)
    requires u in s.threads && s.threads[u].Stop? && u in s'.threads
  {
    && s'.operation == s.operation && s'.threads[u].Stop? && s'.threads[u].ticket == s.threads[u].ticket
    && (Touches(s'.threads[u]) ==> s.slot.Some? && s'.slot.None? && Borrows(s'.threads[u]))
    && (!Touches(s'.threads[u]) ==> s'.slot == s.slot || Borrows(s.threads[u]))
  }

  lemma StopStepGoesUnder(s: State, e: Event, u: Tid)
    requires OneStop(s) && u in s.threads && Awaits(s.threads[u]) && Touches(s.threads[u])
    requires Enabled(s, e) && Respects(s, e, StopsApart) && ByStop(e)
    ensures Actor(e) == Some(u) && UnderStep(s, Apply(s, e), u, u)
  {
  }

  lemma OperationStepGoesUnder(s: State, e: Event, u: Tid, t: Tid)
    requires u in s.threads && s.threads[u].Stop? && Touches(s.threads[u])
    requires Enabled(s, e) && Respects(s, e, BeginsApart) && !ByStop(e) && Actor(e) == Some(t)
    requires t in s.threads ==> PhaseFits(s.threads[t]) && IsStart(s, u, s.threads[t]) && !InFlight(s.threads[t])
    requires t in s.threads && Guarding(s.threads[t]) && s.operation.Some? ==> Current(s, s.threads[t])
    ensures UnderStep(s, Apply(s, e), t, u)
  {
  }

  lemma OnlyTheStopBorrows(s: State, u: Tid)
    requires Under(s, u)
    ensures forall v :: v in s.threads && v != u ==> !Borrows(s.threads[v]) && !InFlight(s.threads[v])
  {
    forall v | v in s.threads && v != u
      ensures !Borrows(s.threads[v]) && !InFlight(s.threads[v])
    {
      assert PhaseFits(s.threads[v]) && IsStart(s, u, s.threads[v]);
    }
  }

  lemma IsStartStays(s: State, s': State, t: Tid, u: Tid, v: Tid)
    requires u in s.threads && s.threads[u].Stop? && UnderStep(s, s', t, u) && OneGuard(s)
    requires v in s.threads && v != t && v != u && IsStart(s, u, s.threads[v])
    ensures IsStart(s', u, s.threads[v])
  {
    if EarlyStart(s.threads[v]) || (Spawner(s.threads[v]) && Guarding(s.threads[v])) {
      assert Guarding(s.threads[v]);
      assert t in s.threads ==> !Guarding(s.threads[t]);
    }
  }

  lemma UnderStepKeeps(s: State, s': State, t: Tid, u: Tid)
    requires Under(s, u) && UnderStep(s, s', t, u)
    requires s'.threads == s.threads[t := s'.threads[t]]
    ensures forall v :: v in s'.threads && v != u ==>
                          IsStart(s', u, s'.threads[v]) && !Borrows(s'.threads[v]) && !InFlight(s'.threads[v])
    ensures Borrows(s'.threads[u]) ==> s'.slot.None?
  {
    OnlyTheStopBorrows(s, u);
    forall v | v in s'.threads && v != u
      ensures IsStart(s', u, s'.threads[v]) && !Borrows(s'.threads[v]) && !InFlight(s'.threads[v])
    {
      if v != t {
        IsStartStays(s, s', t, u, v);
      }
    }
  }

  // While the other threads are as they must be under the stop `u`.
  ghost predicate OthersFit(s: State, u: Tid) {
    && u in s.threads && (Borrows(s.threads[u]) ==> s.slot.None?)
    && forall v :: v in s.threads && v != u ==>
         IsStart(s, u, s.threads[v]) && !Borrows(s.threads[v]) && !InFlight(s.threads[v])
  }

  lemma OthersStillFit(s: State, e: Event, u: Tid)
    requires Under(s, u) && Enabled(s, e) && Orderly(s, e)
    ensures OthersFit(Apply(s, e), u)
  {
    OnlyTheActorMoves(s, e);
    assert Respects(s, e, BeginsApart) && Respects(s, e, StopsApart);
    if Actor(e).None? {
      OnlyTheStopBorrows(s, u);
      forall v | v in s.threads && v != u
        ensures IsStart(Apply(s, e), u, s.threads[v])
      {
        assert IsStart(s, u, s.threads[v]);
      }
    } else {
      if ByStop(e) {
        StopStepGoesUnder(s, e, u);
      } else {
        var t := Actor(e).value;
        assert t in s.threads ==> PhaseFits(s.threads[t]) && IsStart(s, u, s.threads[t]) && (InFlight(s.threads[t]) ==> t == u);
        OperationStepGoesUnder(s, e, u, t);
      }
      UnderStepKeeps(s, Apply(s, e), Actor(e).value, u);
    }
  }

  // What the stop owed stays done.
  lemma StaysDone(s: State, e: Event, u: Tid)
    requires Under(s, u) && Enabled(s, e)
    ensures var g := s.threads[u].ticket.value.gen;
            && OperationOver(Apply(s, e), g)
            && forall p :: p in Apply(s, e).alive && p in Apply(s, e).owner ==> Apply(s, e).owner[p] != g
  {
    var g := s.threads[u].ticket.value.gen;
    OverStaysOver(s, e, g);
    OnlySpawnAddsProcesses(s, e);
    assert e.Spawn? ==> !HasGen(s.threads[e.t], g);
  }

  lemma StopStays(s: State, e: Event, u: Tid)
    requires Enabled(s, e) && u in s.threads && Awaits(s.threads[u])
    ensures u in Apply(s, e).threads && Apply(s, e).threads[u].Stop? && Apply(s, e).threads[u].ticket == s.threads[u].ticket
    ensures Apply(s, e).threads[u].stage.Waiting? ==> Awaits(Apply(s, e).threads[u])
  {
    OnlyTheActorMoves(s, e);
  }

  lemma UnderKept(s: State, e: Event, u: Tid)
    requires Under(s, u) && Enabled(s, e) && Orderly(s, e)
    ensures Under(Apply(s, e), u) || OrderlyInv(Apply(s, e))
    ensures Grounds(Apply(s, e))
  {
    UnderLosses(s, e, u);
    UnderLeavesNothing(s, u);
    GroundsKept(s, e);
    OthersStillFit(s, e, u);
    StaysDone(s, e, u);
    StopStays(s, e, u);
    UnderOrOrderly(Apply(s, e), u);
  }

  lemma UnderOrOrderly(s: State, u: Tid)
    requires Grounds(s) && OthersFit(s, u) && s.threads[u].Stop? && s.threads[u].ticket.Some?
    requires OperationCanSpawn(s.threads[u].ticket.value.op) && OperationOver(s, s.threads[u].ticket.value.gen)
    requires forall p :: p in s.alive && p in s.owner ==> s.owner[p] != s.threads[u].ticket.value.gen
    ensures if Touches(s.threads[u]) then Under(s, u) else OrderlyInv(s)
  {
    if !Touches(s.threads[u]) {
      forall v | v in s.threads && Guarding(s.threads[v])
        ensures NeedsEmptySlot(s.threads[v]) ==> s.slot.None?
        ensures !NeedsDeadSlot(s.threads[v])
        ensures Spawner(s.threads[v]) && !s.threads[v].phase.Dropping? ==> s.operation.Some?
      {
        assert IsStart(s, u, s.threads[v]) && PhaseFits(s.threads[v]);
      }
    }
  }

  // A start called while a stop is about to find the slot empty.
  lemma StartGoesUnder(s: State, e: Event, u: Tid)
    requires OrderlyInv(s) && Grounds(s) && Enabled(s, e) && e.SwapFlag? && e.op == Start && !s.active
    requires u in s.threads && Awaits(s.threads[u]) && s.threads[u].stage.Sweeping? && s.slot.None?
    ensures Under(Apply(s, e), u)
  {
    NothingOwedIsLeft(s, u);
    forall t
      ensures LeavesNothing(s, t)
    {
      OrderlyLeavesNothing(s, t);
    }
    GroundsKept(s, e);
    StartFits(s, e, u);
    UnderOrOrderly(Apply(s, e), u);
  }

  lemma StartFits(s: State, e: Event, u: Tid)
    requires GuardInv(s) && OneStop(s) && Enabled(s, e) && e.SwapFlag? && e.op == Start && !s.active
    requires u in s.threads && Awaits(s.threads[u]) && s.threads[u].stage.Sweeping? && s.slot.None?
    ensures OthersFit(Apply(s, e), u) && Apply(s, e).threads[u] == s.threads[u]
    ensures forall g :: OperationOver(s, g) ==> OperationOver(Apply(s, e), g)
  {
    OnlyTheActorMoves(s, e);
    assert forall v :: v in s.threads ==> !Guarding(s.threads[v]) && (v != u ==> !InFlight(s.threads[v]));
  }

  // When nobody holds the guard and the slot is empty, an awaiting stop that holds no handle has
  // nothing left to kill.
  lemma NothingOwedIsLeft(s: State, u: Tid)
    requires OrderlyInv(s) && u in s.threads && Awaits(s.threads[u]) && s.threads[u].stage.Sweeping? && s.slot.None? && !s.active
    ensures var g := s.threads[u].ticket.value.gen;
            OperationOver(s, g) && forall p :: p in s.alive && p in s.owner ==> s.owner[p] != g
  {
    var g := s.threads[u].ticket.value.gen;
    assert forall v, p :: TakenBy(s, v, p) ==> Guarding(s.threads[v]) || InFlight(s.threads[v]);
    forall p | p in s.alive && p in s.owner && s.owner[p] == g
      ensures false
    {
      OverMeans(s, g, p);
    }
  }

  // --- the steps that do no harm ----------------------------------------------------------------

  // A stop that will find the slot empty and owes the end of an operation.
  predicate SweepsInVain(s: State, th: Thread) {
    Awaits(th) && th.stage.Sweeping? && s.slot.None?
  }

  // The calls may overlap more than the duties allow, as far as this.
  ghost predicate Harmless(s: State, e: Event)
    requires Enabled(s, e)
  {
    && (Respects(s, e, StopsApart) || forall p :: Owed(s, p) ==> !NearSlot(s, p))
    && (Respects(s, e, BeginsApart)
        || (e.op == Start && forall u :: u in s.threads && Touches(s.threads[u]) ==> SweepsInVain(s, s.threads[u])))
    && Respects(s, e, CancelsApart) && Respects(s, e, PollSure) && Respects(s, e, ChildDies)
  }

  ghost predicate Safe(s: State) {
    Grounds(s) && (OrderlyInv(s) || Crowded(s) || exists u :: Under(s, u))
  }

  lemma OrderlyGroundsKept(s: State, e: Event)
    requires OrderlyInv(s) && Grounds(s) && Enabled(s, e) && Orderly(s, e)
    ensures OrderlyInv(Apply(s, e)) && Grounds(Apply(s, e))
  {
    OrderlyInvKept(s, e);
    OwnersSpawnKept(s, e);
    if Apply(s, e).active {
      FlagStep(s, e);
    }
  }

  lemma SafeKept(s: State, e: Event)
    requires Safe(s) && Enabled(s, e) && Orderly(s, e)
    ensures Safe(Apply(s, e))
  {
    if u :| Under(s, u) {
      UnderKept(s, e, u);
    } else if Crowded(s) && !e.Cancel? {
      CrowdedKept(s, e);
    } else {
      if Crowded(s) {
        assert Respects(s, e, StopsApart);
        CrowdDisperses(s);
      }
      OrderlyGroundsKept(s, e);
    }
  }

  lemma {:induction false} SafeRuns(s: State, es: seq<Event>)
    requires Safe(s) && OrderlyRun(s, es)
    ensures CanRun(s, es) && Safe(After(s, es))
    decreases es
  {
    if es != [] {
      SafeKept(s, es[0]);
      SafeRuns(Apply(s, es[0]), es[1..]);
    }
  }

  lemma SafeMeansNoEscape(s: State)
    requires Safe(s)
    ensures !CanEscape(s)
  {
    forall es, t, op, g, p | OrderlyRun(s, es) && CanRun(s, es)
      ensures !Escaped(After(s, es), t, op, g, p)
    {
      SafeRuns(s, es);
    }
  }

  lemma HarmlessCancelIsSafe(s: State, e: Event)
    requires OrderlyInv(s) && Grounds(s) && Enabled(s, e) && Harmless(s, e) && !Respects(s, e, StopsApart)
    ensures Safe(Apply(s, e))
  {
    CancelCrowds(s, e);
  }

  lemma HarmlessBeginIsSafe(s: State, e: Event)
    requires OrderlyInv(s) && Grounds(s) && Enabled(s, e) && Harmless(s, e) && !Respects(s, e, BeginsApart)
    ensures Safe(Apply(s, e))
  {
    var u :| u in s.threads && Touches(s.threads[u]);
    assert SweepsInVain(s, s.threads[u]);
    StartGoesUnder(s, e, u);
  }

  lemma HarmlessIsOrderly(s: State, e: Event)
    requires Enabled(s, e) && Harmless(s, e) && Respects(s, e, StopsApart) && Respects(s, e, BeginsApart)
    ensures Orderly(s, e)
  {
  }

  lemma HarmlessIsSafe(s: State, e: Event)
    requires OrderlyInv(s) && Grounds(s) && Enabled(s, e) && Harmless(s, e)
    ensures Safe(Apply(s, e))
  {
    if !Respects(s, e, StopsApart) {
      HarmlessCancelIsSafe(s, e);
    } else if !Respects(s, e, BeginsApart) {
      HarmlessBeginIsSafe(s, e);
    } else {
      HarmlessIsOrderly(s, e);
      OrderlyGroundsKept(s, e);
    }
  }
}
