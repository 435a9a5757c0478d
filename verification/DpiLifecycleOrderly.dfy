/**
  What it takes for `stop_dpi_runtime` of `src-tauri/src/dpi.rs` to keep its promise: the duties
  of the callers and the system under which a stop that answers Ok leaves no process of the
  operation it cancelled alive.
 */
module DpiLifecycleOrderly {
  import opened Common
  import opened DpiLifecycle

  predicate InFlight(th: Thread) {
    th.Stop? && !th.stage.Returned?
  }

  // A stop under way that holds a child's handle or may still take one: not in its wait.
  predicate Touches(th: Thread) {
    InFlight(th) && !th.stage.Waiting?
  }

  // A stop under way that owes the end of a start or autotest.
  predicate Awaits(th: Thread) {
    InFlight(th) && th.ticket.Some? && OperationCanSpawn(th.ticket.value.op)
  }

  // A start or autotest that has taken the flag and is not registered yet.
  predicate Begins(th: Thread) {
    th.Entered? && OperationCanSpawn(th.op)
  }

  predicate Spawner(th: Thread) {
    th.Op? && OperationCanSpawn(th.name)
  }

  // No stop owes the death of what operation `g` has spawned, or can come to owe it: the operation
  // can no longer be cancelled, and if it was, the stop has failed.
  ghost predicate WrittenOff(s: State, g: nat) {
    && (s.operation.Some? ==> s.generation != g)
    && (forall t :: t in s.threads && s.threads[t].Stop? && s.threads[t].ticket.Some?
                    && s.threads[t].ticket.value.gen == g && OperationCanSpawn(s.threads[t].ticket.value.op) ==>
                      s.threads[t].stage == Returned(false))
  }

  // What callers and the system owe for the strong guarantee.
  datatype Duty =
    | StopsApart    // no stop is called while another one owes the end of an operation
    | BeginsApart   // no start or autotest takes the flag while a stop touches the child
    | CancelsApart  // no stop is called between the two steps of a start's or autotest's begin
    | PollSure      // the status query does not take a living child for dead whose death is owed
    | ChildDies     // an unpublished child dies when it is terminated, if its death is owed

  ghost predicate Respects(s: State, e: Event, d: Duty)
    requires Enabled(s, e)
  {
    match d
    case StopsApart => e.Cancel? ==> forall u :: u in s.threads ==> !Awaits(s.threads[u])
    case BeginsApart =>
      e.SwapFlag? && !s.active && OperationCanSpawn(e.op) ==> forall u :: u in s.threads ==> !Touches(s.threads[u])
    case CancelsApart => e.Cancel? ==> forall u :: u in s.threads ==> !Begins(s.threads[u])
    case PollSure => e.Poll? && !e.known && !SlotDead(s) && s.slot.value in s.owner ==> WrittenOff(s, s.owner[s.slot.value])
    case ChildDies =>
      AbandonsChild(s, e) && s.threads[e.t].phase.pid in s.owner ==> WrittenOff(s, s.owner[s.threads[e.t].phase.pid])
  }

  // The duties of those who call starts, autotests and stops.
  ghost predicate CallsApart(s: State, e: Event)
    requires Enabled(s, e)
  {
    Respects(s, e, StopsApart) && Respects(s, e, BeginsApart) && Respects(s, e, CancelsApart)
  }

  ghost predicate Orderly(s: State, e: Event)
    requires Enabled(s, e)
  {
    forall d :: Respects(s, e, d)
  }

  // Takes a published handle out of the slot for a while.
  predicate Borrows(th: Thread) {
    (th.Op? && th.phase.Reaping?) || (th.Stop? && th.stage.Killing?)
  }

  // A stop that owes the end of an operation is the only one under way; nobody else waits.
  ghost predicate OneStop(s: State) {
    && (forall t, u :: (t in s.threads && u in s.threads && Awaits(s.threads[t]) && InFlight(s.threads[u])) ==> t == u)
    && (forall t :: t in s.threads && s.threads[t].Stop? && s.threads[t].stage.Waiting? ==> Awaits(s.threads[t]))
  }

  // While a stop touches the child, no start or autotest is registered or being begun, and one
  // still holding the guard is the operation that stop has cancelled.
  ghost predicate StopShuts(s: State) {
    forall t :: t in s.threads && Touches(s.threads[t]) ==>
                  && (s.operation.Some? ==> !OperationCanSpawn(s.operation.value))
                  && (forall u :: u in s.threads ==> !Begins(s.threads[u]))
                  && (forall u :: u in s.threads && s.threads[t].ticket.Some? && Spawner(s.threads[u]) && Guarding(s.threads[u]) ==>
                                    HasGen(s.threads[u], s.threads[t].ticket.value.gen))
  }

  // While a stop owes the end of an operation, a start or autotest at work is that operation,
  // or it is registered: begun during the wait.
  ghost predicate WaitKnown(s: State) {
    forall t, u :: (t in s.threads && u in s.threads && Awaits(s.threads[t])
                    && Spawner(s.threads[u]) && Guarding(s.threads[u]) && !s.threads[u].phase.Dropping?) ==>
                     HasGen(s.threads[u], s.threads[t].ticket.value.gen) || s.operation.Some?
  }

  ghost predicate OneBorrower(s: State) {
    && (forall t :: t in s.threads && Borrows(s.threads[t]) ==> s.slot.None?)
    && (forall t, u :: (t in s.threads && u in s.threads && Borrows(s.threads[t]) && Borrows(s.threads[u])) ==> t == u)
  }

  predicate NeedsEmptySlot(th: Thread) {
    th.Op? && (th.phase.Ready? || th.phase.Swept? || th.phase.Holding?)
  }

  predicate NeedsDeadSlot(th: Thread) {
    th.Op? && th.phase.Clearing?
  }

  // What the running operation knows about the slot while it has not been cancelled.
  ghost predicate SlotKnown(s: State) {
    s.operation.Some? ==>
      forall t :: t in s.threads && Guarding(s.threads[t]) ==>
                    && s.threads[t].Op?
                    && (NeedsEmptySlot(s.threads[t]) ==> s.slot.None?)
                    && (NeedsDeadSlot(s.threads[t]) ==> SlotDead(s))
  }

  // The stop that cancelled an autotest about to clear the slot has not put a child back.
  ghost predicate ClearingSafe(s: State) {
    forall t, u :: (t in s.threads && u in s.threads && Awaits(s.threads[t])
                    && HasGen(s.threads[u], s.threads[t].ticket.value.gen) && NeedsDeadSlot(s.threads[u])) ==>
                     SlotDead(s)
  }

  ghost predicate LostAreWrittenOff(s: State) {
    forall p :: p in s.lost && p in s.alive && p in s.owner ==> WrittenOff(s, s.owner[p])
  }

  ghost predicate StopOkIsFinal(s: State) {
    forall t, p :: (t in s.threads && p in s.alive && p in s.owner && s.threads[t].Stop? && s.threads[t].ticket.Some?
                    && ConfirmedStop(s, t, s.threads[t].ticket.value)) ==>
                     s.owner[p] != s.threads[t].ticket.value.gen
  }

  ghost predicate OrderlyInv(s: State) {
    && Inv(s) && OneStop(s) && StopShuts(s) && WaitKnown(s) && OneBorrower(s) && SlotKnown(s)
    && ClearingSafe(s) && LostAreWrittenOff(s) && StopOkIsFinal(s)
  }

  // How a step may change which stops are under way, and what else is.
  ghost predicate ShutStep(s: State, s': State, t: Tid, cancel: bool) {
    && t in s'.threads
    && (cancel ==>
          && t !in s.threads && Touches(s'.threads[t]) && s'.operation.None?
          && (s'.threads[t].ticket.Some? ==>
                s.operation.Some? && s'.threads[t].ticket.value == Ticket(s.operation.value, s.generation))
          && (forall u :: u in s.threads ==> !Begins(s.threads[u]) && !Awaits(s.threads[u])))
    && (!cancel && InFlight(s'.threads[t]) ==>
          && t in s.threads && InFlight(s.threads[t]) && s.threads[t].ticket == s'.threads[t].ticket
          && (s'.threads[t].stage.Waiting? ==> Awaits(s.threads[t]))
          && (Touches(s.threads[t]) || !s.active || !Touches(s'.threads[t]))
          && s'.operation == s.operation)
    && (Begins(s'.threads[t]) ==> forall u :: u in s.threads ==> !Touches(s.threads[u]))
    && (s'.operation.Some? ==>
          s.operation == s'.operation || (t in s.threads && s.threads[t] == Entered(s'.operation.value)))
    && (Spawner(s'.threads[t]) && Guarding(s'.threads[t]) ==>
          && t in s.threads && Guarding(s.threads[t])
          && (Begins(s.threads[t]) || (Spawner(s.threads[t]) && HasGen(s.threads[t], s'.threads[t].gen))))
    && (!cancel && s.operation.Some? && s'.operation.None? ==>
          Guarded(s, t) && s'.threads[t].Op? && s'.threads[t].phase.Dropping?)
    && (t in s.threads && Begins(s.threads[t]) && Spawner(s'.threads[t]) ==> s'.operation.Some?)
    && (t in s.threads && Spawner(s.threads[t]) && s.threads[t].phase.Dropping? && Spawner(s'.threads[t]) ==>
          s'.threads[t].phase.Ended?)
  }

  lemma EveryStepIsAShutStep(s: State, e: Event)
    requires Enabled(s, e) && CallsApart(s, e) && Actor(e).Some?
    ensures ShutStep(s, Apply(s, e), Actor(e).value, e.Cancel?)
  {
    if ByStop(e) {
      StopStepIsAShutStep(s, e);
    } else {
      OperationStepIsAShutStep(s, e);
    }
  }

  lemma StopStepIsAShutStep(s: State, e: Event)
    requires Enabled(s, e) && CallsApart(s, e) && ByStop(e)
    ensures ShutStep(s, Apply(s, e), Actor(e).value, e.Cancel?)
  {
  }

  lemma OperationStepIsAShutStep(s: State, e: Event)
    requires Enabled(s, e) && CallsApart(s, e) && Actor(e).Some? && !ByStop(e)
    ensures ShutStep(s, Apply(s, e), Actor(e).value, e.Cancel?)
  {
  }

  lemma OneStopKept(s: State, e: Event)
    requires OneStop(s) && StopShuts(s) && Enabled(s, e) && CallsApart(s, e)
    ensures OneStop(Apply(s, e))
  {
    OnlyTheActorMoves(s, e);
    if Actor(e).Some? {
      EveryStepIsAShutStep(s, e);
      ShutStepKeepsOneStop(s, Apply(s, e), Actor(e).value, e.Cancel?);
    }
  }

  lemma ShutStepKeepsOneStop(s: State, s': State, t: Tid, cancel: bool)
    requires OneStop(s) && StopShuts(s) && ShutStep(s, s', t, cancel)
    requires t in s'.threads && s'.threads == s.threads[t := s'.threads[t]]
    ensures OneStop(s')
  {
    assert forall v :: v in s.threads && cancel ==> !Awaits(s.threads[v]) && (InFlight(s.threads[v]) ==> Touches(s.threads[v]));
    forall v, u | v in s'.threads && u in s'.threads && Awaits(s'.threads[v]) && InFlight(s'.threads[u])
      ensures v == u
    {
      assert v != t ==> Awaits(s.threads[v]);
      assert u != t ==> InFlight(s.threads[u]);
      if !cancel {
        assert Awaits(s.threads[v]) && InFlight(s.threads[u]);
      }
    }
  }

  lemma ShutStepKeeps(s: State, s': State, t: Tid, cancel: bool)
    requires GuardInv(s) && StopShuts(s) && ShutStep(s, s', t, cancel)
    requires t in s'.threads && s'.threads == s.threads[t := s'.threads[t]]
    ensures StopShuts(s')
  {
    forall v | v in s'.threads && Touches(s'.threads[v])
      ensures s'.operation.Some? ==> !OperationCanSpawn(s'.operation.value)
      ensures forall u :: u in s'.threads ==> !Begins(s'.threads[u])
      ensures forall u :: u in s'.threads && s'.threads[v].ticket.Some? && Spawner(s'.threads[u]) && Guarding(s'.threads[u]) ==>
                            HasGen(s'.threads[u], s'.threads[v].ticket.value.gen)
    {
      if v == t {
        if !cancel && !Touches(s.threads[t]) {
          assert forall u :: u in s.threads ==> !Guarding(s.threads[u]);
        }
      } else {
        assert v in s.threads && Touches(s.threads[v]);
      }
    }
  }

  lemma StopShutsKept(s: State, e: Event)
    requires GuardInv(s) && StopShuts(s) && Enabled(s, e) && CallsApart(s, e)
    ensures StopShuts(Apply(s, e))
  {
    OnlyTheActorMoves(s, e);
    if Actor(e).Some? {
      EveryStepIsAShutStep(s, e);
      ShutStepKeeps(s, Apply(s, e), Actor(e).value, e.Cancel?);
    }
  }

  lemma WaitKnownKept(s: State, e: Event)
    requires GuardInv(s) && OneStop(s) && WaitKnown(s) && Enabled(s, e) && CallsApart(s, e)
    ensures WaitKnown(Apply(s, e))
  {
    OnlyTheActorMoves(s, e);
    if Actor(e).Some? {
      EveryStepIsAShutStep(s, e);
      ShutStepKeepsWaitKnown(s, Apply(s, e), Actor(e).value, e.Cancel?);
    }
  }

  lemma ShutStepKeepsWaitKnown(s: State, s': State, t: Tid, cancel: bool)
    requires GuardInv(s) && OneStop(s) && WaitKnown(s) && ShutStep(s, s', t, cancel)
    requires t in s'.threads && s'.threads == s.threads[t := s'.threads[t]]
    ensures WaitKnown(s')
  {
    forall v, u | v in s'.threads && u in s'.threads && Awaits(s'.threads[v])
                  && Spawner(s'.threads[u]) && Guarding(s'.threads[u]) && !s'.threads[u].phase.Dropping?
      ensures HasGen(s'.threads[u], s'.threads[v].ticket.value.gen) || s'.operation.Some?
    {
      if cancel && v == t {
        assert u in s.threads && Guarding(s.threads[u]);
      } else {
        assert v in s.threads && Awaits(s.threads[v]);
        assert u in s.threads && Guarding(s.threads[u]);
        assert u != t ==> !Guarded(s, t);
      }
    }
  }

  // How a step may move a published handle.
  ghost predicate BorrowStep(s: State, s': State, t: Tid) {
    && t in s'.threads
    && (Borrows(s'.threads[t]) ==> s'.slot.None? && s.slot.Some?)
    && (s'.slot.Some? ==>
          || s'.slot == s.slot
          || (t in s.threads && Borrows(s.threads[t]))
          || (t in s.threads && Guarding(s.threads[t]) && Spawner(s.threads[t]) && !Borrows(s.threads[t]) && s.operation.Some?))
  }

  lemma StopStepIsABorrowStep(s: State, e: Event)
    requires Enabled(s, e) && ByStop(e)
    ensures BorrowStep(s, Apply(s, e), Actor(e).value)
  {
  }

  lemma OperationStepIsABorrowStep(s: State, e: Event)
    requires PhaseInv(s) && Enabled(s, e) && Actor(e).Some? && !ByStop(e)
    ensures BorrowStep(s, Apply(s, e), Actor(e).value)
  {
  }

  lemma EveryStepIsABorrowStep(s: State, e: Event)
    requires PhaseInv(s) && Enabled(s, e) && Actor(e).Some?
    ensures BorrowStep(s, Apply(s, e), Actor(e).value)
  {
    if ByStop(e) {
      StopStepIsABorrowStep(s, e);
    } else {
      OperationStepIsABorrowStep(s, e);
    }
  }

  lemma BorrowStepKeeps(s: State, s': State, t: Tid)
    requires GuardInv(s) && StopShuts(s) && OneBorrower(s) && BorrowStep(s, s', t)
    requires t in s'.threads && s'.threads == s.threads[t := s'.threads[t]]
    ensures OneBorrower(s')
  {
    forall u | u in s'.threads && Borrows(s'.threads[u])
      ensures s'.slot.None?
    {
      if u != t {
        assert Borrows(s.threads[u]) && s.slot.None?;
        assert Guarding(s.threads[u]) || Touches(s.threads[u]);
      }
    }
  }

  lemma OneBorrowerKept(s: State, e: Event)
    requires GuardInv(s) && PhaseInv(s) && StopShuts(s) && OneBorrower(s) && Enabled(s, e)
    ensures OneBorrower(Apply(s, e))
  {
    OnlyTheActorMoves(s, e);
    if Actor(e).Some? {
      EveryStepIsABorrowStep(s, e);
      BorrowStepKeeps(s, Apply(s, e), Actor(e).value);
    }
  }

  // How a step may change the slot under a running operation.
  ghost predicate SlotStep(s: State, s': State, t: Tid) {
    && t in s'.threads
    && (NeedsEmptySlot(s'.threads[t]) ==>
          || s'.slot.None?
          || (s'.slot == s.slot && t in s.threads && (NeedsEmptySlot(s.threads[t]) || Borrows(s.threads[t]))))
    && (NeedsDeadSlot(s'.threads[t]) ==> SlotDead(s'))
    && (s'.operation.Some? ==> s.operation.Some? || (t in s.threads && s.threads[t].Entered?))
    && (t !in s.threads || !Guarding(s.threads[t]) ==>
          && s'.alive <= s.alive
          && (s'.slot == s.slot || s'.slot.None?
              || (t in s.threads && Touches(s.threads[t]) && !InFlight(s'.threads[t]))))
    && (t in s.threads && s.threads[t].Entered? ==> !NeedsEmptySlot(s'.threads[t]) && !NeedsDeadSlot(s'.threads[t]))
    && (Guarding(s'.threads[t]) ==> t !in s.threads || Guarding(s.threads[t]))
    && (s'.threads[t].Entered? ==> s'.operation == s.operation && !s.active)
  }

  lemma StopStepIsASlotStep(s: State, e: Event)
    requires Enabled(s, e) && ByStop(e)
    ensures SlotStep(s, Apply(s, e), Actor(e).value)
  {
  }

  lemma PublicStepIsASlotStep(s: State, e: Event)
    requires Enabled(s, e) && StartsOrPublishes(e)
    ensures SlotStep(s, Apply(s, e), Actor(e).value)
  {
  }

  lemma OperationStepIsASlotStep(s: State, e: Event)
    requires Enabled(s, e) && Actor(e).Some? && !ByStop(e) && !StartsOrPublishes(e)
    ensures SlotStep(s, Apply(s, e), Actor(e).value)
  {
  }

  lemma EveryStepIsASlotStep(s: State, e: Event)
    requires Enabled(s, e) && Actor(e).Some?
    ensures SlotStep(s, Apply(s, e), Actor(e).value)
  {
    if ByStop(e) {
      StopStepIsASlotStep(s, e);
    } else if StartsOrPublishes(e) {
      PublicStepIsASlotStep(s, e);
    } else {
      OperationStepIsASlotStep(s, e);
    }
  }

  lemma SlotStepKeeps(s: State, s': State, t: Tid)
    requires GuardInv(s) && PhaseInv(s) && StopShuts(s) && OneBorrower(s) && SlotKnown(s) && SlotStep(s, s', t)
    requires t in s'.threads && s'.threads == s.threads[t := s'.threads[t]]
    ensures SlotKnown(s')
  {
    if s'.operation.Some? {
      forall u | u in s'.threads && Guarding(s'.threads[u])
        ensures s'.threads[u].Op?
        ensures NeedsEmptySlot(s'.threads[u]) ==> s'.slot.None?
        ensures NeedsDeadSlot(s'.threads[u]) ==> SlotDead(s')
      {
        if u != t {
          assert u in s.threads && Guarding(s.threads[u]) && PhaseFits(s.threads[u]);
          assert !Guarded(s, t);
          assert s.operation.Some? && Current(s, s.threads[u]);
        }
      }
    }
  }

  lemma SlotKnownKept(s: State, e: Event)
    requires GuardInv(s) && PhaseInv(s) && StopShuts(s) && OneBorrower(s) && SlotKnown(s) && Enabled(s, e)
    ensures SlotKnown(Apply(s, e))
  {
    OnlyTheActorMoves(s, e);
    if Actor(e).Some? {
      EveryStepIsASlotStep(s, e);
      SlotStepKeeps(s, Apply(s, e), Actor(e).value);
    }
  }

  lemma SlotStepKeepsClearing(s: State, s': State, t: Tid, cancel: bool)
    requires GuardInv(s) && PhaseInv(s) && OneStop(s) && SlotKnown(s) && ClearingSafe(s)
    requires SlotStep(s, s', t) && ShutStep(s, s', t, cancel)
    requires t in s'.threads && s'.threads == s.threads[t := s'.threads[t]]
    ensures ClearingSafe(s')
  {
    forall v, u | v in s'.threads && u in s'.threads && Awaits(s'.threads[v])
                  && HasGen(s'.threads[u], s'.threads[v].ticket.value.gen) && NeedsDeadSlot(s'.threads[u])
      ensures SlotDead(s')
    {
      if u != t {
        assert u in s.threads && Guarding(s.threads[u]) && !Guarded(s, t);
        if v != t {
          assert Awaits(s.threads[v]);
        }
      }
    }
  }

  lemma ClearingSafeKept(s: State, e: Event)
    requires GuardInv(s) && PhaseInv(s) && OneStop(s) && SlotKnown(s) && ClearingSafe(s) && Enabled(s, e) && CallsApart(s, e)
    ensures ClearingSafe(Apply(s, e))
  {
    OnlyTheActorMoves(s, e);
    if Actor(e).Some? {
      EveryStepIsASlotStep(s, e);
      EveryStepIsAShutStep(s, e);
      SlotStepKeepsClearing(s, Apply(s, e), Actor(e).value, e.Cancel?);
    }
  }

  // Only Spawn touches the owner map or adds a live process.
  lemma OnlySpawnAddsProcesses(s: State, e: Event)
    requires Enabled(s, e)
    ensures e.Spawn? ==> Apply(s, e).owner == s.owner[e.p := s.threads[e.t].gen] && Apply(s, e).alive == s.alive + {e.p}
    ensures !e.Spawn? ==> Apply(s, e).owner == s.owner && Apply(s, e).alive <= s.alive
  {
  }

  // How a step may change what WrittenOff talks about.
  ghost predicate TicketStep(s: State, s': State, t: Tid) {
    && t in s'.threads
    && (s'.operation.Some? ==> s'.generation > s.generation || (s'.operation == s.operation && s'.generation == s.generation))
    && (s'.threads[t].Stop? && s'.threads[t].ticket.Some? ==>
          || (t in s.threads && s.threads[t].Stop? && s.threads[t].ticket == s'.threads[t].ticket
              && s.threads[t].stage != Returned(false))
          || (s.operation.Some? && s'.threads[t].ticket.value.gen == s.generation))
  }

  lemma StopStepIsATicketStep(s: State, e: Event)
    requires Enabled(s, e) && ByStop(e)
    ensures TicketStep(s, Apply(s, e), Actor(e).value)
  {
  }

  lemma OperationStepIsATicketStep(s: State, e: Event)
    requires Enabled(s, e) && Actor(e).Some? && !ByStop(e)
    ensures TicketStep(s, Apply(s, e), Actor(e).value)
  {
  }

  lemma EveryStepIsATicketStep(s: State, e: Event)
    requires Enabled(s, e) && Actor(e).Some?
    ensures TicketStep(s, Apply(s, e), Actor(e).value)
  {
    if ByStop(e) {
      StopStepIsATicketStep(s, e);
    } else {
      OperationStepIsATicketStep(s, e);
    }
  }

  lemma WrittenOffStays(s: State, e: Event, g: nat)
    requires Enabled(s, e) && WrittenOff(s, g) && g <= s.generation
    ensures WrittenOff(Apply(s, e), g)
  {
    OnlyTheActorMoves(s, e);
    if Actor(e).Some? {
      EveryStepIsATicketStep(s, e);
    }
  }

  // In an orderly run a live process can lose its handle only when it is written off: nobody is
  // promised its death.
  lemma LossesAreWrittenOff(s: State, e: Event, p: Pid)
    requires OrderlyInv(s) && Enabled(s, e) && Orderly(s, e)
    requires (WritesSlot(s, e) && s.slot == Some(p) && p in s.alive) || (AbandonsChild(s, e) && s.threads[e.t].phase.pid == p)
    ensures WrittenOff(s, s.owner[p])
  {
    assert Respects(s, e, PollSure) && Respects(s, e, ChildDies);
    if e.ClearSlot? {
      ClearingLosesOnlyWrittenOff(s, e.t, p);
    }
  }

  lemma ClearingLosesOnlyWrittenOff(s: State, t: Tid, p: Pid)
    requires OrderlyInv(s) && InPhase(s, t, Clearing) && s.slot == Some(p) && p in s.alive
    ensures WrittenOff(s, s.owner[p])
  {
    assert Guarding(s.threads[t]) && PhaseFits(s.threads[t]) && NeedsDeadSlot(s.threads[t]);
    forall v | v in s.threads && s.threads[v].Stop? && s.threads[v].ticket.Some?
               && s.threads[v].ticket.value.gen == s.owner[p] && OperationCanSpawn(s.threads[v].ticket.value.op)
      ensures s.threads[v].stage == Returned(false)
    {
      var confirmedByV := ConfirmedStop(s, v, s.threads[v].ticket.value);
      var awaitedByV := Awaits(s.threads[v]);
      var cancelledByV := HasGen(s.threads[t], s.threads[v].ticket.value.gen);
    }
  }

  // What the step loses is written off.
  ghost predicate LosesOnlyWrittenOff(s: State, e: Event)
    requires Enabled(s, e)
  {
    forall p :: (WritesSlot(s, e) && s.slot == Some(p) && p in s.alive) || (AbandonsChild(s, e) && s.threads[e.t].phase.pid == p) ==>
      p in s.owner && WrittenOff(s, s.owner[p])
  }

  lemma LostAreWrittenOffKept(s: State, e: Event)
    requires Inv(s) && LostAreWrittenOff(s) && Enabled(s, e) && LosesOnlyWrittenOff(s, e)
    ensures LostAreWrittenOff(Apply(s, e))
  {
    OnlySpawnAddsProcesses(s, e);
    forall p | p in Apply(s, e).lost && p in Apply(s, e).alive && p in Apply(s, e).owner
      ensures WrittenOff(Apply(s, e), Apply(s, e).owner[p])
    {
      assert p in LostAfter(s, e);
      WrittenOffStays(s, e, s.owner[p]);
    }
  }

  // A stop about to answer Ok: every process of the operation it cancelled is dead, except
  // the one it is killing.
  lemma NothingLeftToKill(s: State, t: Tid, p: Pid)
    requires OrderlyInv(s) && t in s.threads && PastWait(s.threads[t]) && InFlight(s.threads[t])
    requires s.slot.None? && p in s.alive && s.owner[p] == s.threads[t].ticket.value.gen
    ensures Holds(s.threads[t], p)
  {
    var g := s.threads[t].ticket.value.gen;
    var writtenOff := WrittenOff(s, g);
    OverMeans(s, g, p);
    var u :| TakenBy(s, u, p);
    assert Awaits(s.threads[t]) && Touches(s.threads[t]) && PhaseFits(s.threads[u]);
    assert Guarding(s.threads[u]) || InFlight(s.threads[u]);
  }

  // With the slot empty, a stop past its wait has at most one process to kill, in its hands.
  ghost predicate LeavesNothing(s: State, t: Tid) {
    t in s.threads && PastWait(s.threads[t]) && InFlight(s.threads[t]) ==>
      forall p :: p in s.alive && p in s.owner && s.owner[p] == s.threads[t].ticket.value.gen ==>
        Holds(s.threads[t], p) || s.slot.Some?
  }

  lemma OrderlyLeavesNothing(s: State, t: Tid)
    requires OrderlyInv(s)
    ensures LeavesNothing(s, t)
  {
    if t in s.threads && PastWait(s.threads[t]) && InFlight(s.threads[t]) {
      forall p | p in s.alive && p in s.owner && s.owner[p] == s.threads[t].ticket.value.gen
        ensures Holds(s.threads[t], p) || s.slot.Some?
      {
        if s.slot.None? {
          NothingLeftToKill(s, t, p);
        }
      }
    }
  }

  // How a step may make a stop answer Ok after its wait.
  ghost predicate ConfirmStep(s: State, s': State, t: Tid) {
    && t in s'.threads
    && (s'.threads[t].Stop? && s'.threads[t].ticket.Some? && ConfirmedStop(s', t, s'.threads[t].ticket.value) ==>
          && t in s.threads && PastWait(s.threads[t]) && InFlight(s.threads[t])
          && s.threads[t].ticket == s'.threads[t].ticket
          && s'.alive <= s.alive && s'.owner == s.owner
          && (s.slot.None? || Borrows(s.threads[t]))
          && (forall p :: Holds(s.threads[t], p) ==> p !in s'.alive))
  }

  lemma StopStepIsAConfirmStep(s: State, e: Event)
    requires Enabled(s, e) && ByStop(e)
    ensures ConfirmStep(s, Apply(s, e), Actor(e).value)
  {
  }

  lemma EveryStepIsAConfirmStep(s: State, e: Event)
    requires Enabled(s, e) && Actor(e).Some?
    ensures ConfirmStep(s, Apply(s, e), Actor(e).value)
  {
    if ByStop(e) {
      StopStepIsAConfirmStep(s, e);
    }
  }

  lemma ConfirmStepKeeps(s: State, s': State, t: Tid, p: Pid)
    requires OneBorrower(s) && LeavesNothing(s, t) && ConfirmStep(s, s', t)
    requires s'.threads[t].Stop? && s'.threads[t].ticket.Some? && ConfirmedStop(s', t, s'.threads[t].ticket.value)
    requires p in s'.alive && p in s'.owner
    ensures s'.owner[p] != s'.threads[t].ticket.value.gen
  {
  }

  // A process spawned now belongs to an operation no earlier stop has confirmed.
  lemma ConfirmedStaysFinal(s: State, e: Event, t: Tid, p: Pid)
    requires Inv(s) && StopOkIsFinal(s) && Enabled(s, e)
    requires t in s.threads && s.threads[t].Stop? && s.threads[t].ticket.Some?
    requires ConfirmedStop(s, t, s.threads[t].ticket.value)
    requires p in Apply(s, e).alive && p in Apply(s, e).owner
    ensures Apply(s, e).owner[p] != s.threads[t].ticket.value.gen
  {
    OnlySpawnAddsProcesses(s, e);
    assert PastWait(s.threads[t]);
    if e.Spawn? && e.p == p {
      assert OperationOver(s, s.threads[t].ticket.value.gen);
    }
  }

  lemma StopOkIsFinalKept(s: State, e: Event)
    requires Inv(s) && OneBorrower(s) && StopOkIsFinal(s) && Enabled(s, e) && forall t :: LeavesNothing(s, t)
    ensures StopOkIsFinal(Apply(s, e))
  {
    OnlyTheActorMoves(s, e);
    if Actor(e).Some? {
      EveryStepIsAConfirmStep(s, e);
    }
    var s' := Apply(s, e);
    forall t, p | t in s'.threads && p in s'.alive && p in s'.owner && s'.threads[t].Stop? && s'.threads[t].ticket.Some?
                  && ConfirmedStop(s', t, s'.threads[t].ticket.value)
      ensures s'.owner[p] != s'.threads[t].ticket.value.gen
    {
      if Actor(e) == Some(t) {
        ConfirmStepKeeps(s, s', t, p);
      } else {
        ConfirmedStaysFinal(s, e, t, p);
      }
    }
  }

  lemma OrderlyInvKept(s: State, e: Event)
    requires OrderlyInv(s) && Enabled(s, e) && Orderly(s, e)
    ensures OrderlyInv(Apply(s, e))
  {
    InvKept(s, e);
    assert CallsApart(s, e) by {
      assert Respects(s, e, StopsApart) && Respects(s, e, BeginsApart) && Respects(s, e, CancelsApart);
    }
    OneStopKept(s, e);
    StopShutsKept(s, e);
    WaitKnownKept(s, e);
    OneBorrowerKept(s, e);
    SlotKnownKept(s, e);
    ClearingSafeKept(s, e);
    forall p | (WritesSlot(s, e) && s.slot == Some(p) && p in s.alive) || (AbandonsChild(s, e) && s.threads[e.t].phase.pid == p)
      ensures p in s.owner && WrittenOff(s, s.owner[p])
    {
      LossesAreWrittenOff(s, e, p);
    }
    LostAreWrittenOffKept(s, e);
    forall t
      ensures LeavesNothing(s, t)
    {
      OrderlyLeavesNothing(s, t);
    }
    StopOkIsFinalKept(s, e);
  }

  ghost predicate OrderlyRun(s: State, es: seq<Event>)
    decreases es
  {
    es != [] ==> Enabled(s, es[0]) && Orderly(s, es[0]) && OrderlyRun(Apply(s, es[0]), es[1..])
  }

  lemma {:induction false} OrderlyInvAlways(s: State, es: seq<Event>)
    requires OrderlyInv(s) && OrderlyRun(s, es)
    ensures CanRun(s, es) && OrderlyInv(After(s, es))
    decreases es
  {
    if es != [] {
      OrderlyInvKept(s, es[0]);
      OrderlyInvAlways(Apply(s, es[0]), es[1..]);
    }
  }

  // The guarantee stop_dpi_runtime is written for: in every orderly run, once a stop that
  // cancelled a start or autotest has answered Ok, that operation is over and none of the
  // processes it ever spawned is alive: not one spawned but unpublished, not one put back
  // into the slot after a failed kill.
  lemma StopOkKillsEverything(es: seq<Event>, t: Tid, ticket: Ticket)
    requires OrderlyRun(INITIAL, es)
    ensures CanRun(INITIAL, es)
    ensures var s := After(INITIAL, es);
            ConfirmedStop(s, t, ticket) ==>
              OperationOver(s, ticket.gen) && forall p :: p in s.alive ==> p in s.owner && s.owner[p] != ticket.gen
  {
    OrderlyInvAlways(INITIAL, es);
    var s := After(INITIAL, es);
    if ConfirmedStop(s, t, ticket) {
      assert PastWait(s.threads[t]);
    }
  }

  // A stop has confirmed the end of its operation and yet one of the processes lives on.
  ghost predicate Escaped(s: State, t: Tid, op: OpName, g: nat, p: Pid) {
    ConfirmedStop(s, t, Ticket(op, g)) && p in s.alive && p in s.owner && s.owner[p] == g
  }
}
