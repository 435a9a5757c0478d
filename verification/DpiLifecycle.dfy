/**
  The winws lifecycle of `src-tauri/src/dpi.rs`: start, autotest, sync and stop as
  interleaved steps of any number of threads.

  Every mutex section and every access to the `operation_active` flag is one step; so are
  spawning, publishing, killing, the sweep for stray processes and the two halves of dropping
  the operation guard.  A process is alive until it is killed, swept away or exits by itself.
  `lost` is bookkeeping: the live processes whose only handle the program has dropped.
 */
module DpiLifecycle {
  import opened Common

  type Tid = nat
  type Pid = nat

  datatype OpName = Start | Autotest | SyncChannel

  // Operations that launch winws; only these must be awaited by a stop.
  predicate OperationCanSpawn(name: OpName) {
    name == Start || name == Autotest
  }

  // What a stop took out of `control.operation`, with the generation it belonged to.
  datatype Ticket = Ticket(op: OpName, gen: nat)

  datatype OpPhase =
    | Checking              // guard held, child slot not looked at yet
    | Ready                 // this operation saw the slot empty
    | Swept                 // a start has been through the stray processes
    | Holding(pid: Pid)     // spawned, not published
    | Condemned(pid: Pid)   // publication refused, about to terminate the child
    | Published             // child handed to the slot
    | Clearing              // autotest found no live child and will write None
    | Reaping(pid: Pid)     // inside stop_managed_child, handle taken
    | Leaving               // returning: the guard is about to drop
    | Dropping              // guard dropped `control`, flag still raised
    | Ended

  datatype StopPhase =
    | Sweeping(last: bool)            // about to take the handle
    | Killing(last: bool, pid: Pid)   // handle taken, waiting for the process to die
    | Waiting                         // waiting for the cancelled operation to finish
    | Returned(ok: bool)

  datatype Thread =
    | Entered(op: OpName)   // raised the flag, control section not run yet
    | Rejected              // begin answered "busy"
    | Op(name: OpName, gen: nat, phase: OpPhase)
    | Stop(ticket: Option<Ticket>, stage: StopPhase)

  datatype State = State(
    generation: nat,
    operation: Option<OpName>,
    active: bool,
    slot: Option<Pid>,
    alive: set<Pid>,
    owner: map<Pid, nat>,        // generation of the operation that spawned a process
    lost: set<Pid>,
    threads: map<Tid, Thread>)

  datatype Event =
    | SwapFlag(t: Tid, op: OpName)
    | EnterControl(t: Tid)
    | LookAtSlot(t: Tid)
    | TakeOwn(t: Tid)
    | OwnKill(t: Tid, ok: bool)
    | KillStrays(t: Tid, victims: set<Pid>)
    | Spawn(t: Tid, p: Pid)
    | Publish(t: Tid)
    | Terminate(t: Tid, ok: bool)
    | FindDead(t: Tid)
    | ClearSlot(t: Tid)
    | SettleStart(t: Tid)
    | Leave(t: Tid)
    | DropControl(t: Tid)
    | DropFlag(t: Tid)
    | Cancel(t: Tid)
    | Take(t: Tid)
    | Kill(t: Tid, ok: bool)
    | SeeIdle(t: Tid)
    | GiveUp(t: Tid)
    | Exit(p: Pid)
    | Poll(known: bool)

  const INITIAL := State(0, None, false, None, {}, map[], {}, map[])

  // --- the steps -----------------------------------------------------------------------

  predicate InPhase(s: State, t: Tid, phase: OpPhase) {
    t in s.threads && s.threads[t].Op? && s.threads[t].phase == phase
  }

  predicate SlotDead(s: State) {
    s.slot.Some? ==> s.slot.value !in s.alive
  }

  predicate Enabled(s: State, e: Event) {
    match e
    case SwapFlag(t, _) => t !in s.threads
    case EnterControl(t) => t in s.threads && s.threads[t].Entered?
    case LookAtSlot(t) => InPhase(s, t, Checking) && s.threads[t].name == Start
    case TakeOwn(t) => (InPhase(s, t, Checking) || InPhase(s, t, Published)) && s.threads[t].name == Autotest
    case OwnKill(t, _) => t in s.threads && s.threads[t].Op? && s.threads[t].phase.Reaping?
    case KillStrays(t, victims) => InPhase(s, t, Ready) && s.threads[t].name == Start && victims <= s.alive
    case Spawn(t, p) =>
      (InPhase(s, t, Swept) || (InPhase(s, t, Ready) && s.threads[t].name == Autotest)) && p !in s.owner
    case Publish(t) => t in s.threads && s.threads[t].Op? && s.threads[t].phase.Holding?
    case Terminate(t, _) => t in s.threads && s.threads[t].Op? && s.threads[t].phase.Condemned?
    case FindDead(t) => InPhase(s, t, Published) && s.threads[t].name == Autotest && SlotDead(s)
    case ClearSlot(t) => InPhase(s, t, Clearing)
    case SettleStart(t) => InPhase(s, t, Published) && s.threads[t].name == Start
    case Leave(t) => InPhase(s, t, Checking) || InPhase(s, t, Ready) || InPhase(s, t, Swept) || InPhase(s, t, Published)
    case DropControl(t) => InPhase(s, t, Leaving)
    case DropFlag(t) => InPhase(s, t, Dropping)
    case Cancel(t) => t !in s.threads
    case Take(t) => t in s.threads && s.threads[t].Stop? && s.threads[t].stage.Sweeping?
    case Kill(t, _) => t in s.threads && s.threads[t].Stop? && s.threads[t].stage.Killing?
    case SeeIdle(t) => t in s.threads && s.threads[t].Stop? && s.threads[t].stage.Waiting? && !s.active
    case GiveUp(t) => t in s.threads && s.threads[t].Stop? && s.threads[t].stage.Waiting? && s.active
    case Exit(p) => p in s.alive
    case Poll(_) => s.slot.Some?
  }

  // The live process whose handle a write to the slot would drop.
  function Displaced(s: State): set<Pid> {
    if s.slot.Some? && s.slot.value in s.alive then {s.slot.value} else {}
  }

  // A write to the slot: whatever handle was there is gone.
  function WriteSlot(s: State, slot: Option<Pid>): State {
    s.(slot := slot, lost := s.lost + Displaced(s))
  }

  function At(s: State, t: Tid, th: Thread): State {
    s.(threads := s.threads[t := th])
  }

  function Move(s: State, t: Tid, phase: OpPhase): State
    requires t in s.threads && s.threads[t].Op?
  {
    At(s, t, s.threads[t].(phase := phase))
  }

  // Where stop_dpi_runtime goes after a stop_managed_child that returned Ok.
  function AfterSweep(ticket: Option<Ticket>, last: bool): StopPhase {
    if !last && ticket.Some? && OperationCanSpawn(ticket.value.op) then Waiting else Returned(true)
  }

  function Apply(s: State, e: Event): State
    requires Enabled(s, e)
  {
    match e
    case SwapFlag(t, op) =>
      At(s.(active := true), t, if s.active then Rejected else Entered(op))
    case EnterControl(t) =>
      if s.operation.Some? then At(s.(active := false), t, Rejected)
      else
        var op := s.threads[t].op;
        At(s.(generation := s.generation + 1, operation := Some(op)), t, Op(op, s.generation + 1, Checking))
    case LookAtSlot(t) =>
      if SlotDead(s) then Move(s.(slot := None), t, Ready) else Move(s, t, Leaving)
    case TakeOwn(t) =>
      if s.slot.None? then Move(s, t, Ready) else Move(s.(slot := None), t, Reaping(s.slot.value))
    case OwnKill(t, ok) =>
      var p := s.threads[t].phase.pid;
      if ok then Move(s.(alive := s.alive - {p}), t, Ready) else Move(WriteSlot(s, Some(p)), t, Leaving)
    case KillStrays(t, victims) =>
      // Best effort: any of the processes, whoever has their handles.
      Move(s.(alive := s.alive - victims), t, Swept)
    case Spawn(t, p) =>
      Move(s.(alive := s.alive + {p}, owner := s.owner[p := s.threads[t].gen]), t, Holding(p))
    case Publish(t) =>
      var p := s.threads[t].phase.pid;
      if s.generation != s.threads[t].gen || s.operation.None? then Move(s, t, Condemned(p))
      else Move(WriteSlot(s, Some(p)), t, Published)
    case Terminate(t, ok) =>
      var p := s.threads[t].phase.pid;
      Move(if ok || p !in s.alive then s.(alive := s.alive - {p}) else s.(lost := s.lost + {p}), t, Leaving)
    case FindDead(t) => Move(s, t, Clearing)
    case ClearSlot(t) => Move(WriteSlot(s, None), t, Ready)
    case SettleStart(t) => Move(if SlotDead(s) then s.(slot := None) else s, t, Leaving)
    case Leave(t) => Move(s, t, Leaving)
    case DropControl(t) =>
      Move(if s.generation == s.threads[t].gen then s.(operation := None) else s, t, Dropping)
    case DropFlag(t) => Move(s.(active := false), t, Ended)
    case Cancel(t) =>
      var ticket := if s.operation.Some? then Some(Ticket(s.operation.value, s.generation)) else None;
      At(s.(generation := s.generation + 1, operation := None), t, Stop(ticket, Sweeping(false)))
    case Take(t) =>
      var th := s.threads[t];
      if s.slot.None? then At(s, t, th.(stage := AfterSweep(th.ticket, th.stage.last)))
      else At(s.(slot := None), t, th.(stage := Killing(th.stage.last, s.slot.value)))
    case Kill(t, ok) =>
      var th := s.threads[t];
      var p := th.stage.pid;
      if ok then At(s.(alive := s.alive - {p}), t, th.(stage := AfterSweep(th.ticket, th.stage.last)))
      else At(WriteSlot(s, Some(p)), t, th.(stage := Returned(false)))
    case SeeIdle(t) => At(s, t, s.threads[t].(stage := Sweeping(true)))
    case GiveUp(t) => At(s, t, s.threads[t].(stage := Returned(false)))
    case Exit(p) => s.(alive := s.alive - {p})
    case Poll(known) => if known && s.slot.value in s.alive then s else WriteSlot(s, None)
  }

  // --- what every step keeps ------------------------------------------------------------

  predicate Guarding(th: Thread) {
    th.Entered? || (th.Op? && !th.phase.Ended?)
  }

  // The holder of the guard while `operation` is set: the operation of this generation.
  predicate Current(s: State, th: Thread)
    requires s.operation.Some?
  {
    th.Op? && th.gen == s.generation && th.name == s.operation.value && !th.phase.Dropping? && !th.phase.Ended?
  }

  ghost predicate OneGuard(s: State) {
    forall t, u ::
      (t in s.threads && u in s.threads && Guarding(s.threads[t]) && Guarding(s.threads[u])) ==> t == u
  }

  // At most one guard; the flag is up while it is held; `operation` is set only while the
  // flag is up, and then the guard belongs to it.
  ghost predicate GuardInv(s: State) {
    && OneGuard(s)
    && (s.operation.Some? ==> s.active)
    && (forall t :: t in s.threads && Guarding(s.threads[t]) ==>
                      s.active && (s.operation.Some? ==> Current(s, s.threads[t])))
  }

  predicate HasGen(th: Thread, gen: nat) {
    th.Op? && th.gen == gen
  }

  predicate HasTicket(th: Thread, ticket: Ticket) {
    th.Stop? && th.ticket == Some(ticket)
  }

  // The child an operation spawned and has not handed over yet.
  predicate Unpublished(th: Thread) {
    th.Op? && (th.phase.Holding? || th.phase.Condemned?)
  }

  // Generations identify operations, and no operation is cancelled twice.
  ghost predicate GensDiffer(s: State) {
    forall t, u ::
      (t in s.threads && u in s.threads && s.threads[t].Op? && HasGen(s.threads[u], s.threads[t].gen)) ==> t == u
  }

  ghost predicate TicketsDiffer(s: State) {
    forall t, u ::
      (t in s.threads && u in s.threads && s.threads[t].Stop? && s.threads[t].ticket.Some?
       && HasTicket(s.threads[u], s.threads[t].ticket.value)) ==> t == u
  }

  ghost predicate GenInv(s: State) {
    && (forall t :: t in s.threads && s.threads[t].Op? ==> s.threads[t].gen <= s.generation)
    && (forall t :: t in s.threads && s.threads[t].Stop? && s.threads[t].ticket.Some? ==>
                      s.threads[t].ticket.value.gen < s.generation)
    && GensDiffer(s) && TicketsDiffer(s)
    && (forall p :: p in s.owner ==> s.owner[p] <= s.generation)
    && (forall t :: t in s.threads && Unpublished(s.threads[t]) ==>
                      s.threads[t].phase.pid in s.owner && s.owner[s.threads[t].phase.pid] == s.threads[t].gen)
  }

  function HeldBy(th: Thread): Option<Pid> {
    if th.Op? && (th.phase.Holding? || th.phase.Condemned? || th.phase.Reaping?) then Some(th.phase.pid)
    else if th.Stop? && th.stage.Killing? then Some(th.stage.pid)
    else None
  }

  predicate Holds(th: Thread, p: Pid) {
    HeldBy(th) == Some(p)
  }

  // Handles are conserved: a live process has exactly one handle, or its handle was lost.
  ghost predicate HandleInv(s: State) {
    && s.alive <= s.owner.Keys && s.lost <= s.owner.Keys
    && (s.slot.Some? ==> s.slot.value in s.owner && s.slot.value !in s.lost)
    && (forall t :: t in s.threads && HeldBy(s.threads[t]).Some? ==>
                      && HeldBy(s.threads[t]) != s.slot
                      && HeldBy(s.threads[t]).value in s.owner
                      && HeldBy(s.threads[t]).value !in s.lost)
    && (forall t, u ::
          (t in s.threads && u in s.threads && HeldBy(s.threads[t]).Some?
           && Holds(s.threads[u], HeldBy(s.threads[t]).value)) ==> t == u)
    && (forall p :: p in s.alive ==>
                      p in s.lost || s.slot == Some(p) || exists t :: t in s.threads && Holds(s.threads[t], p))
  }

  // The operation of generation `g` has returned: its guard is gone.
  ghost predicate OperationOver(s: State, g: nat) {
    forall t :: t in s.threads && HasGen(s.threads[t], g) ==> s.threads[t].phase.Ended?
  }

  // A stop that had to wait for the operation it cancelled, and is past that wait.
  predicate PastWait(th: Thread) {
    && th.Stop? && th.ticket.Some? && OperationCanSpawn(th.ticket.value.op)
    && (th.stage == Sweeping(true) || (th.stage.Killing? && th.stage.last) || th.stage == Returned(true))
  }

  ghost predicate WaitInv(s: State) {
    forall t :: t in s.threads && PastWait(s.threads[t]) ==> OperationOver(s, s.threads[t].ticket.value.gen)
  }

  // What each operation can be doing: a sync never comes near the slot, only an autotest
  // clears it or kills a child of its own.
  predicate PhaseFits(th: Thread) {
    th.Op? ==>
      && ((th.phase.Clearing? || th.phase.Reaping?) ==> th.name == Autotest)
      && (th.phase.Swept? ==> th.name == Start)
      && (!OperationCanSpawn(th.name) ==>
            th.phase.Checking? || th.phase.Leaving? || th.phase.Dropping? || th.phase.Ended?)
  }

  ghost predicate PhaseInv(s: State) {
    forall t :: t in s.threads ==> PhaseFits(s.threads[t])
  }

  ghost predicate Inv(s: State) {
    GuardInv(s) && GenInv(s) && HandleInv(s) && WaitInv(s) && PhaseInv(s)
  }

  // --- preservation, one conjunct at a time --------------------------------------------

  // The thread an event belongs to.
  function Actor(e: Event): Option<Tid> {
    match e
    case Exit(_) => None
    case Poll(_) => None
    case _ => Some(e.t)
  }

  predicate ByStop(e: Event) {
    e.Cancel? || e.Take? || e.Kill? || e.SeeIdle? || e.GiveUp?
  }

  predicate StartsOrPublishes(e: Event) {
    e.SwapFlag? || e.EnterControl? || e.Spawn? || e.Publish? || e.Terminate?
  }

  lemma OnlyTheActorMoves(s: State, e: Event)
    requires Enabled(s, e)
    ensures Actor(e).None? ==> Apply(s, e).threads == s.threads
    ensures Actor(e).Some? ==> Actor(e).value in Apply(s, e).threads
    ensures Actor(e).Some? ==> Apply(s, e).threads == s.threads[Actor(e).value := Apply(s, e).threads[Actor(e).value]]
  {
  }

  ghost predicate Guarded(s: State, t: Tid) {
    t in s.threads && Guarding(s.threads[t])
  }

  // How a step may change the guard bookkeeping of its own thread.
  ghost predicate GuardStep(s: State, s': State, t: Tid) {
    && (Guarded(s', t) ==> s'.active && (Guarded(s, t) || !s.active))
    && (s.active && !s'.active ==> Guarded(s, t) && !Guarded(s', t))
    && (s'.operation.Some? ==> s'.active)
    && (s'.operation.Some? && Guarded(s', t) ==> Current(s', s'.threads[t]))
    && (s'.operation.Some? && !Guarded(s', t) ==> s'.operation == s.operation && s'.generation == s.generation)
    && (s'.operation.Some? && !Guarded(s', t) ==> s'.active == s.active)
  }

  lemma StopStepIsAGuardStep(s: State, e: Event)
    requires GuardInv(s) && Enabled(s, e) && ByStop(e)
    ensures GuardStep(s, Apply(s, e), Actor(e).value)
  {
  }

  lemma OperationStepIsAGuardStep(s: State, e: Event)
    requires GuardInv(s) && Enabled(s, e) && Actor(e).Some? && !ByStop(e)
    ensures GuardStep(s, Apply(s, e), Actor(e).value)
  {
  }

  lemma EveryStepIsAGuardStep(s: State, e: Event)
    requires GuardInv(s) && Enabled(s, e) && Actor(e).Some?
    ensures GuardStep(s, Apply(s, e), Actor(e).value)
  {
    if ByStop(e) {
      StopStepIsAGuardStep(s, e);
    } else {
      OperationStepIsAGuardStep(s, e);
    }
  }

  lemma GuardStepKeeps(s: State, s': State, t: Tid)
    requires GuardInv(s) && GuardStep(s, s', t)
    requires t in s'.threads && s'.threads == s.threads[t := s'.threads[t]]
    ensures GuardInv(s')
  {
  }

  lemma GuardKept(s: State, e: Event)
    requires GuardInv(s) && Enabled(s, e)
    ensures GuardInv(Apply(s, e))
  {
    OnlyTheActorMoves(s, e);
    if Actor(e).Some? {
      EveryStepIsAGuardStep(s, e);
      GuardStepKeeps(s, Apply(s, e), Actor(e).value);
    }
  }

  // How a step may change generations: a new operation takes the next one, a new ticket is
  // the current one and makes it past.
  ghost predicate GenStep(s: State, s': State, t: Tid) {
    && s.generation <= s'.generation
    && t in s'.threads
    && (s'.threads[t].Op? ==> s'.threads[t].gen <= s'.generation)
    && (s'.threads[t].Op? ==> s'.threads[t].gen > s.generation || (t in s.threads && HasGen(s.threads[t], s'.threads[t].gen)))
    && (s'.threads[t].Stop? && s'.threads[t].ticket.Some? ==>
          && s'.threads[t].ticket.value.gen < s'.generation
          && (s'.threads[t].ticket.value.gen >= s.generation
              || (t in s.threads && HasTicket(s.threads[t], s'.threads[t].ticket.value))))
    && s.owner.Keys <= s'.owner.Keys
    && (forall p :: p in s.owner ==> s'.owner[p] == s.owner[p])
    && (forall p :: p in s'.owner && p !in s.owner ==> s'.owner[p] <= s'.generation)
    && (Unpublished(s'.threads[t]) ==>
          s'.threads[t].phase.pid in s'.owner && s'.owner[s'.threads[t].phase.pid] == s'.threads[t].gen)
  }

  lemma OperationStepIsAGenStep(s: State, e: Event)
    requires GenInv(s) && Enabled(s, e) && Actor(e).Some? && !ByStop(e) && !StartsOrPublishes(e)
    ensures GenStep(s, Apply(s, e), Actor(e).value)
  {
  }

  lemma PublicStepIsAGenStep(s: State, e: Event)
    requires GenInv(s) && Enabled(s, e) && StartsOrPublishes(e)
    ensures GenStep(s, Apply(s, e), Actor(e).value)
  {
  }

  lemma StopStepIsAGenStep(s: State, e: Event)
    requires GenInv(s) && Enabled(s, e) && ByStop(e)
    ensures GenStep(s, Apply(s, e), Actor(e).value)
  {
  }

  lemma EveryStepIsAGenStep(s: State, e: Event)
    requires GenInv(s) && Enabled(s, e) && Actor(e).Some?
    ensures GenStep(s, Apply(s, e), Actor(e).value)
  {
    if ByStop(e) {
      StopStepIsAGenStep(s, e);
    } else if StartsOrPublishes(e) {
      PublicStepIsAGenStep(s, e);
    } else {
      OperationStepIsAGenStep(s, e);
    }
  }

  lemma GenStepKeeps(s: State, s': State, t: Tid)
    requires GenInv(s) && GenStep(s, s', t)
    requires t in s'.threads && s'.threads == s.threads[t := s'.threads[t]]
    ensures GenInv(s')
  {
    GensStayApart(s, s', t);
    TicketsStayApart(s, s', t);
  }

  lemma GensStayApart(s: State, s': State, t: Tid)
    requires GenInv(s) && GenStep(s, s', t)
    requires t in s'.threads && s'.threads == s.threads[t := s'.threads[t]]
    ensures GensDiffer(s')
  {
  }

  lemma TicketsStayApart(s: State, s': State, t: Tid)
    requires GenInv(s) && GenStep(s, s', t)
    requires t in s'.threads && s'.threads == s.threads[t := s'.threads[t]]
    ensures TicketsDiffer(s')
  {
  }

  lemma GensKept(s: State, e: Event)
    requires GenInv(s) && Enabled(s, e)
    ensures GenInv(Apply(s, e))
  {
    OnlyTheActorMoves(s, e);
    if Actor(e).Some? {
      EveryStepIsAGenStep(s, e);
      GenStepKeeps(s, Apply(s, e), Actor(e).value);
    }
  }

  // How a step may change who holds which handle.
  ghost predicate HandleStep(s: State, s': State, t: Tid) {
    var h := if t in s.threads then HeldBy(s.threads[t]) else None;
    var h' := if t in s'.threads then HeldBy(s'.threads[t]) else None;
    && s.owner.Keys <= s'.owner.Keys && s'.lost <= s'.owner.Keys
    && (forall p :: p in s'.alive ==> p in s'.owner && (p in s.alive || (p !in s.owner && h' == Some(p))))
    && (forall p :: p in s'.lost && p !in s.lost ==> s.slot == Some(p) || h == Some(p))
    && (h'.Some? ==> h'.value in s'.owner && h'.value !in s'.lost && h' != s'.slot)
    && (h'.Some? ==> h' == h || h' == s.slot || h'.value !in s.owner)
    && (s'.slot.Some? ==> s'.slot.value in s'.owner && s'.slot.value !in s'.lost)
    && (s'.slot == s.slot || s'.slot == None || s'.slot == h)
    && (forall p :: p in s'.alive && s.slot == Some(p) ==> s'.slot == Some(p) || p in s'.lost || h' == Some(p))
    && (forall p :: p in s'.alive && h == Some(p) ==> s'.slot == Some(p) || p in s'.lost || h' == Some(p))
    && s.lost <= s'.lost
  }

  // What HandleInv says about one thread and the slot.
  ghost predicate HandlesOf(s: State, t: Tid) {
    && s.alive <= s.owner.Keys && s.lost <= s.owner.Keys
    && (s.slot.Some? ==> s.slot.value in s.owner && s.slot.value !in s.lost)
    && (t in s.threads && HeldBy(s.threads[t]).Some? ==>
          && HeldBy(s.threads[t]) != s.slot
          && HeldBy(s.threads[t]).value in s.owner
          && HeldBy(s.threads[t]).value !in s.lost)
  }

  predicate MovesOwnHandle(e: Event) {
    e.TakeOwn? || e.OwnKill? || e.ClearSlot?
  }

  predicate LooksAtProcesses(e: Event) {
    e.LookAtSlot? || e.SettleStart? || e.KillStrays?
  }

  lemma OwnKillIsAHandleStep(s: State, e: Event)
    requires Enabled(s, e) && Actor(e).Some? && HandlesOf(s, Actor(e).value) && e.OwnKill?
    ensures HandleStep(s, Apply(s, e), Actor(e).value)
  {
  }

  lemma LookIsAHandleStep(s: State, e: Event)
    requires Enabled(s, e) && Actor(e).Some? && HandlesOf(s, Actor(e).value) && LooksAtProcesses(e)
    ensures HandleStep(s, Apply(s, e), Actor(e).value)
  {
  }

  lemma OwnHandleStepIsAHandleStep(s: State, e: Event)
    requires Enabled(s, e) && Actor(e).Some? && HandlesOf(s, Actor(e).value) && MovesOwnHandle(e) && !e.OwnKill?
    ensures HandleStep(s, Apply(s, e), Actor(e).value)
  {
  }

  lemma OperationStepIsAHandleStep(s: State, e: Event)
    requires Enabled(s, e) && Actor(e).Some? && HandlesOf(s, Actor(e).value)
    requires !ByStop(e) && !StartsOrPublishes(e) && !MovesOwnHandle(e) && !LooksAtProcesses(e)
    ensures HandleStep(s, Apply(s, e), Actor(e).value)
  {
  }

  lemma BeginningIsAHandleStep(s: State, e: Event)
    requires Enabled(s, e) && Actor(e).Some? && HandlesOf(s, Actor(e).value) && (e.SwapFlag? || e.EnterControl? || e.Spawn?)
    ensures HandleStep(s, Apply(s, e), Actor(e).value)
  {
  }

  lemma PublicStepIsAHandleStep(s: State, e: Event)
    requires Enabled(s, e) && Actor(e).Some? && HandlesOf(s, Actor(e).value) && (e.Publish? || e.Terminate?)
    ensures HandleStep(s, Apply(s, e), Actor(e).value)
  {
  }

  lemma StopStepIsAHandleStep(s: State, e: Event)
    requires Enabled(s, e) && Actor(e).Some? && HandlesOf(s, Actor(e).value) && ByStop(e) && !e.Kill?
    ensures HandleStep(s, Apply(s, e), Actor(e).value)
  {
  }

  lemma KillIsAHandleStep(s: State, e: Event)
    requires Enabled(s, e) && Actor(e).Some? && HandlesOf(s, Actor(e).value) && e.Kill?
    ensures HandleStep(s, Apply(s, e), Actor(e).value)
  {
  }

  lemma EveryStepIsAHandleStep(s: State, e: Event)
    requires HandleInv(s) && Enabled(s, e) && Actor(e).Some?
    ensures HandleStep(s, Apply(s, e), Actor(e).value)
  {
    if e.Kill? {
      KillIsAHandleStep(s, e);
    } else if ByStop(e) {
      StopStepIsAHandleStep(s, e);
    } else if e.Publish? || e.Terminate? {
      PublicStepIsAHandleStep(s, e);
    } else if StartsOrPublishes(e) {
      BeginningIsAHandleStep(s, e);
    } else if e.OwnKill? {
      OwnKillIsAHandleStep(s, e);
    } else if MovesOwnHandle(e) {
      OwnHandleStepIsAHandleStep(s, e);
    } else if LooksAtProcesses(e) {
      LookIsAHandleStep(s, e);
    } else {
      OperationStepIsAHandleStep(s, e);
    }
  }

  lemma HandleStepKeeps(s: State, s': State, t: Tid)
    requires HandleInv(s) && HandleStep(s, s', t)
    requires t in s'.threads && s'.threads == s.threads[t := s'.threads[t]]
    ensures HandleInv(s')
  {
    forall p | p in s'.alive
      ensures p in s'.lost || s'.slot == Some(p) || exists u :: u in s'.threads && Holds(s'.threads[u], p)
    {
      if p in s.alive && p !in s.lost && s.slot != Some(p) {
        var u :| u in s.threads && Holds(s.threads[u], p);
        assert u in s'.threads;
      }
      assert t in s'.threads;
    }
  }

  lemma HandlesKept(s: State, e: Event)
    requires HandleInv(s) && Enabled(s, e)
    ensures HandleInv(Apply(s, e))
  {
    OnlyTheActorMoves(s, e);
    if Actor(e).Some? {
      EveryStepIsAHandleStep(s, e);
      HandleStepKeeps(s, Apply(s, e), Actor(e).value);
    }
  }

  // Once over, an operation stays over: its generation is never handed out again.
  lemma OverStaysOver(s: State, e: Event, g: nat)
    requires GenInv(s) && Enabled(s, e) && OperationOver(s, g) && g <= s.generation
    ensures OperationOver(Apply(s, e), g)
  {
    OnlyTheActorMoves(s, e);
    if Actor(e).Some? {
      EveryStepIsAGenStep(s, e);
    }
  }

  lemma WaitsOnlyForItsTicket(s: State, e: Event, t: Tid)
    requires GuardInv(s) && Enabled(s, e) && t in Apply(s, e).threads && PastWait(Apply(s, e).threads[t])
    ensures t in s.threads && s.threads[t].Stop? && s.threads[t].ticket == Apply(s, e).threads[t].ticket
    ensures PastWait(s.threads[t]) || forall u :: u in s.threads ==> !Guarding(s.threads[u])
  {
    OnlyTheActorMoves(s, e);
  }

  lemma WaitKept(s: State, e: Event)
    requires GuardInv(s) && GenInv(s) && WaitInv(s) && Enabled(s, e)
    ensures WaitInv(Apply(s, e))
  {
    OnlyTheActorMoves(s, e);
    var s' := Apply(s, e);
    forall t | t in s'.threads && PastWait(s'.threads[t])
      ensures OperationOver(s', s'.threads[t].ticket.value.gen)
    {
      WaitsOnlyForItsTicket(s, e, t);
      OverStaysOver(s, e, s.threads[t].ticket.value.gen);
    }
  }

  lemma PhaseKept(s: State, e: Event)
    requires PhaseInv(s) && Enabled(s, e)
    ensures PhaseInv(Apply(s, e))
  {
    OnlyTheActorMoves(s, e);
  }

  // --- runs -----------------------------------------------------------------------------

  ghost predicate CanRun(s: State, es: seq<Event>)
    decreases es
  {
    es != [] ==> Enabled(s, es[0]) && CanRun(Apply(s, es[0]), es[1..])
  }

  function After(s: State, es: seq<Event>): State
    requires CanRun(s, es)
    decreases es
  {
    if es == [] then s else After(Apply(s, es[0]), es[1..])
  }

  lemma InvKept(s: State, e: Event)
    requires Inv(s) && Enabled(s, e)
    ensures Inv(Apply(s, e))
  {
    GuardKept(s, e);
    GensKept(s, e);
    HandlesKept(s, e);
    WaitKept(s, e);
    PhaseKept(s, e);
  }

  lemma {:induction false} InvAlways(s: State, es: seq<Event>)
    requires Inv(s) && CanRun(s, es)
    ensures Inv(After(s, es))
    decreases es
  {
    if es != [] {
      InvKept(s, es[0]);
      InvAlways(Apply(s, es[0]), es[1..]);
    }
  }

  // --- safety of every run ---------------------------------------------------------------

  // One guard at a time, `operation` only under the flag, and no begin ever reaches the
  // control section while an operation is registered: its second busy branch is dead.
  lemma AtMostOneOperation(es: seq<Event>)
    requires CanRun(INITIAL, es)
    ensures OneGuard(After(INITIAL, es))
    ensures After(INITIAL, es).operation.Some? ==> After(INITIAL, es).active
    ensures forall t :: Enabled(After(INITIAL, es), EnterControl(t)) ==> After(INITIAL, es).operation.None?
  {
    InvAlways(INITIAL, es);
  }

  lemma {:induction false} GenerationsGrow(s: State, es: seq<Event>)
    requires CanRun(s, es)
    ensures s.generation <= After(s, es).generation
    decreases es
  {
    if es != [] {
      GenerationsGrow(Apply(s, es[0]), es[1..]);
    }
  }

  lemma {:induction false} OperationKeepsItsGeneration(s: State, es: seq<Event>, t: Tid)
    requires CanRun(s, es) && t in s.threads && s.threads[t].Op?
    ensures t in After(s, es).threads && HasGen(After(s, es).threads[t], s.threads[t].gen)
    decreases es
  {
    if es != [] {
      OnlyTheActorMoves(s, es[0]);
      OperationKeepsItsGeneration(Apply(s, es[0]), es[1..], t);
    }
  }

  // A cancel is a fence: an operation begun before it never publishes after it, however the
  // steps interleave.
  lemma NothingBegunBeforeACancelPublishes(before: seq<Event>, c: Tid, between: seq<Event>, t: Tid)
    requires CanRun(INITIAL, before)
    requires Enabled(After(INITIAL, before), Cancel(c))
    requires CanRun(Apply(After(INITIAL, before), Cancel(c)), between)
    requires t in After(INITIAL, before).threads && After(INITIAL, before).threads[t].Op?
    requires Enabled(After(Apply(After(INITIAL, before), Cancel(c)), between), Publish(t))
    ensures var s := After(Apply(After(INITIAL, before), Cancel(c)), between);
            Apply(s, Publish(t)).slot == s.slot && Apply(s, Publish(t)).threads[t].phase.Condemned?
  {
    var s0 := After(INITIAL, before);
    InvAlways(INITIAL, before);
    var s1 := Apply(s0, Cancel(c));
    GenerationsGrow(s1, between);
    OperationKeepsItsGeneration(s1, between, t);
  }

  // A child enters the slot only from the operation whose generation is current, or back
  // from a failed kill.
  lemma WhoFillsTheSlot(s: State, e: Event, p: Pid)
    requires GuardInv(s) && Enabled(s, e) && Apply(s, e).slot == Some(p) && s.slot != Some(p)
    ensures Actor(e).Some? && Actor(e).value in s.threads && Holds(s.threads[Actor(e).value], p)
    ensures e.Publish? ==> s.operation.Some? && Current(s, s.threads[e.t])
    ensures e.Publish? || (e.OwnKill? && !e.ok) || (e.Kill? && !e.ok)
  {
  }

  // The write of the slot a step performs, if any.
  predicate WritesSlot(s: State, e: Event)
    requires Enabled(s, e)
  {
    match e
    case OwnKill(_, ok) => !ok
    case Kill(_, ok) => !ok
    case Publish(t) => s.operation.Some? && s.threads[t].gen == s.generation
    case ClearSlot(_) => true
    case Poll(known) => !known || s.slot.value !in s.alive
    case _ => false
  }

  predicate AbandonsChild(s: State, e: Event)
    requires Enabled(s, e)
  {
    e.Terminate? && !e.ok && s.threads[e.t].phase.pid in s.alive
  }

  // A live process loses its only handle exactly when the slot is written while it holds a
  // live child, or when an unpublished child could not be terminated.
  lemma HandlesAreLostExactlyThen(s: State, e: Event)
    requires Inv(s) && Enabled(s, e)
    ensures Apply(s, e).lost != s.lost <==> (WritesSlot(s, e) && !SlotDead(s)) || AbandonsChild(s, e)
  {
    assert Apply(s, e).lost == LostAfter(s, e);
    if WritesSlot(s, e) && !SlotDead(s) {
      assert s.slot.value in LostAfter(s, e);
    } else if AbandonsChild(s, e) {
      var p := s.threads[e.t].phase.pid;
      assert HeldBy(s.threads[e.t]) == Some(p);
      assert p in LostAfter(s, e);
    }
  }

  function LostAfter(s: State, e: Event): (lost: set<Pid>)
    requires Enabled(s, e)
    ensures Apply(s, e).lost == lost
  {
    if WritesSlot(s, e) then s.lost + Displaced(s)
    else if AbandonsChild(s, e) then s.lost + {s.threads[e.t].phase.pid}
    else s.lost
  }

  // A lost process dies in two ways only: by exiting, or in the sweep of a start.  No stop, no
  // autotest, no poll and no kill of a child can reach it.
  lemma LostProcessesDieOnlyThen(s: State, e: Event, p: Pid)
    requires HandleInv(s) && Enabled(s, e) && p in s.lost && p in s.alive
    ensures p in Apply(s, e).lost
    ensures p !in Apply(s, e).alive <==> e == Exit(p) || (e.KillStrays? && p in e.victims)
  {
    assert Apply(s, e).lost == LostAfter(s, e);
    if e.OwnKill? || e.Terminate? || e.Kill? {
      NoHandleIsLost(s, e.t, p);
    }
  }

  lemma NoHandleIsLost(s: State, t: Tid, p: Pid)
    requires HandleInv(s) && t in s.threads && HeldBy(s.threads[t]).Some? && p in s.lost
    ensures HeldBy(s.threads[t]).value != p
  {
  }

  // So it survives every run without those two, however many stops answer Ok in it.
  lemma {:induction false} LostProcessesSurvive(s: State, es: seq<Event>, p: Pid)
    requires Inv(s) && CanRun(s, es) && p in s.lost && p in s.alive
    requires forall e :: e in es ==> e != Exit(p) && !(e.KillStrays? && p in e.victims)
    ensures p in After(s, es).lost && p in After(s, es).alive
    decreases es
  {
    if es != [] {
      InvKept(s, es[0]);
      LostProcessesDieOnlyThen(s, es[0], p);
      assert forall e :: e in es[1..] ==> e in es;
      LostProcessesSurvive(Apply(s, es[0]), es[1..], p);
    }
  }

  // A start that has not spawned yet was begun after every process that exists.
  ghost predicate SweepInv(s: State) {
    forall t, p :: (t in s.threads && p in s.owner && BeforeSpawn(s.threads[t])) ==> s.owner[p] < s.threads[t].gen
  }

  predicate BeforeSpawn(th: Thread) {
    th.Op? && th.name == Start && (th.phase.Checking? || th.phase.Ready? || th.phase.Swept?)
  }

  lemma OnlySpawnsAddOwners(s: State, e: Event)
    requires Enabled(s, e) && !e.Spawn?
    ensures Apply(s, e).owner == s.owner
  {
  }

  lemma OnlyBeginningsComeBefore(s: State, e: Event)
    requires PhaseInv(s) && Enabled(s, e) && !e.Spawn?
    ensures Actor(e).Some? && BeforeSpawn(Apply(s, e).threads[Actor(e).value]) ==>
              var t := Actor(e).value;
              || Apply(s, e).threads[t].gen > s.generation
              || (t in s.threads && BeforeSpawn(s.threads[t]) && s.threads[t].gen == Apply(s, e).threads[t].gen)
  {
  }

  lemma SweepKept(s: State, e: Event)
    requires GuardInv(s) && GenInv(s) && PhaseInv(s) && SweepInv(s) && Enabled(s, e)
    ensures SweepInv(Apply(s, e))
  {
    if e.Spawn? {
      SpawnIsAfterTheSweep(s, e);
    } else {
      OnlyTheActorMoves(s, e);
      OnlySpawnsAddOwners(s, e);
      OnlyBeginningsComeBefore(s, e);
    }
  }

  lemma SpawnIsAfterTheSweep(s: State, e: Event)
    requires GuardInv(s) && Enabled(s, e) && e.Spawn?
    ensures forall t :: t in Apply(s, e).threads ==> !BeforeSpawn(Apply(s, e).threads[t])
  {
    assert Guarding(s.threads[e.t]);
    forall t | t in s.threads && BeforeSpawn(s.threads[t])
      ensures t == e.t
    {
      assert Guarding(s.threads[t]);
    }
  }

  lemma {:induction false} SweepAlways(s: State, es: seq<Event>)
    requires Inv(s) && SweepInv(s) && CanRun(s, es)
    ensures SweepInv(After(s, es))
    decreases es
  {
    if es != [] {
      InvKept(s, es[0]);
      SweepKept(s, es[0]);
      SweepAlways(Apply(s, es[0]), es[1..]);
    }
  }

  // The sweep that reaches a process is one of a start begun after the operation that spawned
  // it: whatever escapes an operation survives at least until the next start.
  lemma OnlyLaterStartsSweep(es: seq<Event>, t: Tid, victims: set<Pid>, p: Pid)
    requires CanRun(INITIAL, es) && Enabled(After(INITIAL, es), KillStrays(t, victims)) && p in victims
    ensures var s := After(INITIAL, es); p in s.owner && s.owner[p] < s.threads[t].gen
  {
    InvAlways(INITIAL, es);
    SweepAlways(INITIAL, es);
  }

  // Some other thread took the handle of `p` out of the slot.
  ghost predicate TakenBy(s: State, u: Tid, p: Pid) {
    u in s.threads && Holds(s.threads[u], p) && !Unpublished(s.threads[u])
  }

  // Every process of an operation that is over: lost, put back, or taken by somebody.
  lemma OverMeans(s: State, g: nat, p: Pid)
    requires Inv(s) && OperationOver(s, g) && p in s.alive && s.owner[p] == g
    ensures p in s.lost || s.slot == Some(p) || exists u :: TakenBy(s, u, p)
  {
    if p !in s.lost && s.slot != Some(p) {
      var u :| u in s.threads && Holds(s.threads[u], p);
      if Unpublished(s.threads[u]) {
        assert HasGen(s.threads[u], g);
      }
      assert TakenBy(s, u, p);
    }
  }

  ghost predicate ConfirmedStop(s: State, t: Tid, ticket: Ticket) {
    && t in s.threads && s.threads[t] == Stop(Some(ticket), Returned(true))
    && OperationCanSpawn(ticket.op)
  }

  // In every interleaving: after a stop that cancelled a start or autotest answered Ok, the
  // operation has ended completely, and a process it spawned can still be alive only if its
  // handle was lost, or put back or held by another thread.
  lemma StopOkMeans(es: seq<Event>, t: Tid, ticket: Ticket)
    requires CanRun(INITIAL, es) && ConfirmedStop(After(INITIAL, es), t, ticket)
    ensures var s := After(INITIAL, es);
            && OperationOver(s, ticket.gen)
            && (forall p :: p in s.alive && p in s.owner && s.owner[p] == ticket.gen ==>
                  p in s.lost || s.slot == Some(p) || exists u :: TakenBy(s, u, p))
            && (forall u, p :: TakenBy(s, u, p) ==> u != t)
  {
    InvAlways(INITIAL, es);
    var s := After(INITIAL, es);
    assert PastWait(s.threads[t]);
    forall p | p in s.alive && p in s.owner && s.owner[p] == ticket.gen
      ensures p in s.lost || s.slot == Some(p) || exists u :: TakenBy(s, u, p)
    {
      OverMeans(s, ticket.gen, p);
    }
  }

  // --- the flag --------------------------------------------------------------------------

  ghost predicate SomeGuard(s: State) {
    exists t :: Guarded(s, t)
  }

  lemma FlagStep(s: State, e: Event)
    requires GuardInv(s) && Enabled(s, e) && (s.active ==> SomeGuard(s)) && Apply(s, e).active
    ensures SomeGuard(Apply(s, e))
  {
    OnlyTheActorMoves(s, e);
    if Actor(e).Some? && !Guarded(Apply(s, e), Actor(e).value) {
      var u :| Guarded(s, u);
      assert u != Actor(e).value;
      assert Guarded(Apply(s, e), u);
    } else if Actor(e).None? {
      var u :| Guarded(s, u);
      assert Guarded(Apply(s, e), u);
    }
  }

  lemma {:induction false} FlagAlways(s: State, es: seq<Event>)
    requires Inv(s) && CanRun(s, es) && (s.active ==> SomeGuard(s))
    ensures After(s, es).active ==> SomeGuard(After(s, es))
    decreases es
  {
    if es != [] {
      InvKept(s, es[0]);
      if Apply(s, es[0]).active {
        FlagStep(s, es[0]);
      }
      FlagAlways(Apply(s, es[0]), es[1..]);
    }
  }

  // `operation_active` outlives a cancellation but never its operation: in every run it is up
  // exactly while some operation still holds its guard.
  lemma FlagExactlyWhileGuarded(es: seq<Event>)
    requires CanRun(INITIAL, es)
    ensures After(INITIAL, es).active <==> SomeGuard(After(INITIAL, es))
  {
    InvAlways(INITIAL, es);
    FlagAlways(INITIAL, es);
  }
}
