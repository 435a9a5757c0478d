/**
  `DpiState` of `src-tauri/src/dpi.rs` as the object it is: one method for every section, under a
  lock or on the flag, that changes what the threads share or decides by the child.  Each method is
  tied to the corresponding step of `DpiLifecycle`, so what is proved there about all interleavings
  is about these methods.
 */
module DpiStateObject {
  import opened Common
  import opened DpiLifecycle

  // The fields the threads share.
  datatype Shared = Shared(generation: nat, operation: Option<OpName>, active: bool, slot: Option<Pid>)

  function SharedOf(s: State): Shared {
    Shared(s.generation, s.operation, s.active, s.slot)
  }

  // In every lifecycle state with shared fields `before`, step `e` leaves them as `after`.
  ghost predicate Performs(before: Shared, e: Event, after: Shared) {
    forall s: State :: SharedOf(s) == before && Enabled(s, e) ==> SharedOf(Apply(s, e)) == after
  }

  // What `try_wait` says of the child in the slot.
  datatype Reply = Exited | Runs | Unknown

  // The reply is what the lifecycle state says; not to know counts as running.
  ghost predicate Truthful(s: State, reply: Reply) {
    s.slot.Some? ==> (reply == Exited <==> s.slot.value !in s.alive)
  }

  lemma PollLeaves(s: State, known: bool)
    requires s.slot.Some?
    ensures SharedOf(Apply(s, Poll(known))) ==
            SharedOf(s).(slot := if known && s.slot.value in s.alive then s.slot else None)
  {
  }

  class DpiState {
    var child: Option<Pid>
    var generation: nat
    var operation: Option<OpName>
    var operationActive: bool

    constructor ()
      ensures Fields() == SharedOf(INITIAL)
    {
      child, generation, operation, operationActive := None, 0, None, false;
    }

    ghost function Fields(): Shared
      reads this
    {
      Shared(generation, operation, operationActive, child)
    }

    // `operation_active.swap(true)`: true means somebody else holds the flag.
    method RaiseFlag() returns (busy: bool)
      modifies this`operationActive
      ensures busy == old(operationActive)
      ensures forall t, op :: Performs(old(Fields()), SwapFlag(t, op), Fields())
    {
      busy := operationActive;
      operationActive := true;
    }

    // The control section of begin_dpi_operation.
    method Register(op: OpName) returns (r: Result<nat, ()>)
      modifies this`generation, this`operation, this`operationActive
      ensures r.Ok? <==> old(operation).None?
      ensures r.Ok? ==> r.value == generation == old(generation) + 1 && operation == Some(op)
      ensures forall s: State, t :: SharedOf(s) == old(Fields()) && t in s.threads && s.threads[t] == Entered(op) ==>
                                      SharedOf(Apply(s, EnterControl(t))) == Fields()
    {
      if operation.Some? {
        operationActive := false;
        return Err(());
      }
      generation := generation + 1;
      operation := Some(op);
      return Ok(generation);
    }

    method CancelDpiOperation() returns (cancelled: Option<OpName>)
      modifies this`generation, this`operation
      ensures cancelled == old(operation)
      ensures forall t :: Performs(old(Fields()), Cancel(t), Fields())
    {
      generation := generation + 1;
      cancelled := operation;
      operation := None;
    }

    // The first half of DpiOperationGuard::drop.
    method Unregister(gen: nat)
      modifies this`operation
      ensures forall s: State, t :: SharedOf(s) == old(Fields()) && InPhase(s, t, Leaving) && HasGen(s.threads[t], gen) ==>
                                      SharedOf(Apply(s, DropControl(t))) == Fields()
    {
      if generation == gen {
        operation := None;
      }
    }

    // The second half.
    method LowerFlag()
      modifies this`operationActive
      ensures forall t :: Performs(old(Fields()), DropFlag(t), Fields())
    {
      operationActive := false;
    }

    // The first section of stop_managed_child.
    method TakeChild() returns (taken: Option<Pid>)
      modifies this`child
      ensures taken == old(child)
      ensures forall t :: Performs(old(Fields()), Take(t), Fields()) && Performs(old(Fields()), TakeOwn(t), Fields())
    {
      taken := child;
      child := None;
    }

    // The second one, after a kill that could not be confirmed.
    method PutChildBack(p: Pid)
      modifies this`child
      ensures forall s: State, t :: SharedOf(s) == old(Fields()) && t in s.threads && Holds(s.threads[t], p) ==>
                                      && (Enabled(s, Kill(t, false)) ==> SharedOf(Apply(s, Kill(t, false))) == Fields())
                                      && (Enabled(s, OwnKill(t, false)) ==> SharedOf(Apply(s, OwnKill(t, false))) == Fields())
    {
      child := Some(p);
    }

    // The publication check of dpi_start and dpi_autotest, under the control lock.
    method PublishChild(gen: nat, p: Pid) returns (published: bool)
      modifies this`child
      ensures published <==> old(generation) == gen && old(operation).Some?
      ensures forall s: State, t :: SharedOf(s) == old(Fields()) && t in s.threads && s.threads[t].Op?
                                    && s.threads[t].gen == gen && s.threads[t].phase == Holding(p) ==>
                                      && SharedOf(Apply(s, Publish(t))) == Fields()
                                      && (published <==> Apply(s, Publish(t)).threads[t].phase == Published)
    {
      if generation != gen || operation.None? {
        return false;
      }
      child := Some(p);
      return true;
    }

    // The first section of dpi_start: a dead child is cleared away, any other refuses the start.
    method MakeRoom(reply: Reply) returns (free: bool)
      modifies this`child
      ensures forall s: State, t :: SharedOf(s) == old(Fields()) && Truthful(s, reply) && Enabled(s, LookAtSlot(t)) ==>
                                      && SharedOf(Apply(s, LookAtSlot(t))) == Fields()
                                      && (free <==> Apply(s, LookAtSlot(t)).threads[t].phase == Ready)
    {
      if child.Some? && reply != Exited {
        return false;
      }
      child := None;
      return true;
    }

    // The last one: a child that has exited meanwhile is cleared away.
    method ForgetIfDead(reply: Reply) returns (died: bool)
      modifies this`child
      ensures died <==> old(child).Some? && reply == Exited
      ensures forall s: State, t :: SharedOf(s) == old(Fields()) && Truthful(s, reply) && Enabled(s, SettleStart(t)) ==>
                                      SharedOf(Apply(s, SettleStart(t))) == Fields()
    {
      died := child.Some? && reply == Exited;
      if died {
        child := None;
      }
    }

    // The autotest's look at its child, which decides whether the slot is to be cleared.
    method ChildLives(reply: Reply) returns (lives: bool)
      ensures forall s: State, t ::
                (SharedOf(s) == Fields() && Truthful(s, reply) && InPhase(s, t, Published) && s.threads[t].name == Autotest) ==>
                  (Enabled(s, FindDead(t)) <==> !lives)
    {
      lives := child.Some? && reply != Exited;
    }

    method ForgetChild()
      modifies this`child
      ensures forall t :: Performs(old(Fields()), ClearSlot(t), Fields())
    {
      child := None;
    }

    // `dpi_running`: forgets a child it does not know to be running.
    method IsRunning(reply: Reply) returns (running: bool)
      modifies this`child
      ensures running <==> old(child).Some? && reply == Runs
      ensures forall s: State ::
                (SharedOf(s) == old(Fields()) && s.slot.Some?
                 && (reply == Runs ==> s.slot.value in s.alive) && (reply == Exited ==> s.slot.value !in s.alive)) ==>
                  SharedOf(Apply(s, Poll(reply != Unknown))) == Fields()
    {
      running := child.Some? && reply == Runs;
      forall s: State | s.slot.Some?
        ensures SharedOf(Apply(s, Poll(reply != Unknown))) ==
                SharedOf(s).(slot := if reply != Unknown && s.slot.value in s.alive then s.slot else None)
      {
        PollLeaves(s, reply != Unknown);
      }
      if !running {
        child := None;
      }
    }
  }
}
