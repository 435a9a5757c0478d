/**
  Every overlap of calls beyond the harmless ones is one that an orderly run can turn into an
  escape.  With `DpiLifecycleOverlap` this makes the condition on a step exact, for every step.
 */
module DpiLifecycleExact {
  import opened Common
  import opened DpiLifecycle
  import opened DpiLifecycleOrderly
  import opened DpiLifecycleProgress
  import opened DpiLifecycleOverlap

  // Steps that no duty is about.
  predicate IsPlain(e: Event) { !e.Cancel? && !e.SwapFlag? && !e.Poll? && !e.Terminate? }

  ghost predicate Goes(s: State, e: Event, s': State) {
    IsPlain(e) && Enabled(s, e) && s' == Apply(s, e)
  }

  lemma Plain(s: State, e: Event, s': State)
    requires Inv(s) && Goes(s, e, s')
    ensures Inv(s') && (CanEscape(s') ==> CanEscape(s))
  {
    InvKept(s, e);
    if CanEscape(s') {
      PlainIsOrderly(s, e);
      EscapeOneStepEarlier(s, e);
    }
  }

  lemma PlainIsOrderly(s: State, e: Event)
    requires Enabled(s, e) && IsPlain(e)
    ensures Orderly(s, e)
  {
  }

  // --- an operation begun while a stop touches the child ----------------------------------------

  // The begin is through, and the operation about to spawn.
  function Begun(s: State, b: Tid): State
    requires b in s.threads && s.threads[b].Entered?
  {
    var op := s.threads[b].op;
    At(s.(generation := s.generation + 1, operation := Some(op)), b,
       Op(op, s.generation + 1, if op == Start then Swept else Ready))
  }

  lemma EscapesFromBegun(s: State, b: Tid)
    requires Inv(s) && b in s.threads && Begins(s.threads[b]) && s.slot.None?
    ensures Inv(Begun(s, b)) && (CanEscape(Begun(s, b)) ==> CanEscape(s))
  {
    assert Guarding(s.threads[b]);
    if s.threads[b].op == Start {
      var s1, s2 := StartBegins(s, b);
      Plain(s, EnterControl(b), s1);
      Plain(s1, LookAtSlot(b), s2);
      Plain(s2, KillStrays(b, {}), Begun(s, b));
    } else {
      var s1 := AutotestBegins(s, b);
      Plain(s, EnterControl(b), s1);
      Plain(s1, TakeOwn(b), Begun(s, b));
    }
  }

  lemma StartBegins(s: State, b: Tid) returns (s1: State, s2: State)
    requires b in s.threads && s.threads[b] == Entered(Start) && s.operation.None? && s.slot.None?
    ensures Goes(s, EnterControl(b), s1) && Goes(s1, LookAtSlot(b), s2) && Goes(s2, KillStrays(b, {}), Begun(s, b))
  {
    s1 := Apply(s, EnterControl(b));
    s2 := Apply(s1, LookAtSlot(b));
    assert s2.alive - {} == s2.alive;
  }

  lemma AutotestBegins(s: State, b: Tid) returns (s1: State)
    requires b in s.threads && s.threads[b] == Entered(Autotest) && s.operation.None? && s.slot.None?
    ensures Goes(s, EnterControl(b), s1) && Goes(s1, TakeOwn(b), Begun(s, b))
  {
    s1 := Apply(s, EnterControl(b));
  }

  // The operation registered now is about to spawn.
  predicate AboutToSpawn(s: State, b: Tid) {
    && b in s.threads && Spawner(s.threads[b]) && s.operation.Some? && s.threads[b].gen == s.generation
    && (InPhase(s, b, Swept) || (InPhase(s, b, Ready) && s.threads[b].name == Autotest))
  }

  // It has spawned `p` and published it.
  function Launched(s: State, b: Tid, p: Pid): State
    requires b in s.threads && s.threads[b].Op?
  {
    Move(s.(slot := Some(p), alive := s.alive + {p}, owner := s.owner[p := s.threads[b].gen]), b, Published)
  }

  lemma EscapesFromLaunched(s: State, b: Tid, p: Pid)
    requires Inv(s) && AboutToSpawn(s, b) && s.slot.None? && p !in s.owner
    ensures Inv(Launched(s, b, p)) && (CanEscape(Launched(s, b, p)) ==> CanEscape(s))
  {
    var s1 := SpawnsAndPublishes(s, b, p);
    Plain(s, Spawn(b, p), s1);
    Plain(s1, Publish(b), Launched(s, b, p));
  }

  lemma SpawnsAndPublishes(s: State, b: Tid, p: Pid) returns (s1: State)
    requires AboutToSpawn(s, b) && s.slot.None? && p !in s.owner
    ensures Goes(s, Spawn(b, p), s1) && Goes(s1, Publish(b), Launched(s, b, p))
  {
    s1 := Apply(s, Spawn(b, p));
    assert s1.lost + {} == s1.lost;
  }

  // It has published `p`, and no other stop than `u` owes anything.
  ghost predicate PublishedUnder(s: State, b: Tid, u: Tid, p: Pid) {
    && Inv(s) && InPhase(s, b, Published) && Spawner(s.threads[b]) && IsRegistered(s, b)
    && p in s.alive && s.owner[p] == s.generation && s.slot == Some(p)
    && u in s.threads && Touches(s.threads[u]) && OthersOweNothing(s, u)
  }

  predicate IsRegistered(s: State, b: Tid)
    requires b in s.threads && s.threads[b].Op?
  {
    s.operation.Some? && s.threads[b].gen == s.generation
  }

  ghost predicate OthersOweNothing(s: State, u: Tid) {
    forall v :: v in s.threads && v != u ==> !Awaits(s.threads[v])
  }

  // The stop fails to kill the old child and puts it back over the new one.
  lemma PutBackOver(s: State, b: Tid, u: Tid, p: Pid)
    requires PublishedUnder(s, b, u, p) && Borrows(s.threads[u])
    ensures CanEscape(s)
  {
    var s1 := Apply(s, Kill(u, false));
    Plain(s, Kill(u, false), s1);
    assert p in s1.lost && Guarded(s1, b);
    CancelledAndOutOfReach(s1, b, p);
  }

  // The stop, which owes nothing, takes the new child.
  lemma TakenBySomebodyElse(s: State, b: Tid, u: Tid, p: Pid)
    requires PublishedUnder(s, b, u, p) && !Borrows(s.threads[u]) && !Awaits(s.threads[u])
    ensures CanEscape(s)
  {
    var s1 := Apply(s, Take(u));
    Plain(s, Take(u), s1);
    assert KilledBy(s1, u, p) && Guarded(s1, b);
    CancelledAndOutOfReach(s1, b, p);
  }

  // The stop takes the new child, and the autotest makes another one.
  lemma TakenAndReplaced(s: State, b: Tid, u: Tid, p: Pid)
    requires PublishedUnder(s, b, u, p) && !Borrows(s.threads[u]) && s.threads[b].name == Autotest
    ensures CanEscape(s)
  {
    var s1, s2 := TakenFromBoth(s, b, u, p);
    Plain(s, Take(u), s1);
    Plain(s1, TakeOwn(b), s2);
    var p2 := FreshThread(s2.owner.Keys);
    EscapesFromLaunched(s2, b, p2);
    PutBackOver(Launched(s2, b, p2), b, u, p2);
  }

  // What is left when the stop has taken the child and the autotest looks for one.
  lemma TakenFromBoth(s: State, b: Tid, u: Tid, p: Pid) returns (s1: State, s2: State)
    requires InPhase(s, b, Published) && s.threads[b].name == Autotest && IsRegistered(s, b) && s.slot == Some(p)
    requires u in s.threads && Touches(s.threads[u]) && !Borrows(s.threads[u]) && OthersOweNothing(s, u)
    ensures Goes(s, Take(u), s1) && Goes(s1, TakeOwn(b), s2)
    ensures AboutToSpawn(s2, b) && s2.slot.None? && s2.generation == s.generation
    ensures u in s2.threads && u != b && Borrows(s2.threads[u]) && Touches(s2.threads[u]) && OthersOweNothing(s2, u)
  {
    s1 := Apply(s, Take(u));
    s2 := Apply(s1, TakeOwn(b));
  }

  lemma BegunUnder(s: State, b: Tid, u: Tid)
    requires b in s.threads && Begins(s.threads[b])
    requires u in s.threads && s.threads[u].Stop? && OthersOweNothing(s, u)
    ensures AboutToSpawn(Begun(s, b), b)
    ensures forall p :: var s2 := Launched(Begun(s, b), b, p);
                        && InPhase(s2, b, Published) && IsRegistered(s2, b) && s2.threads[b].name == s.threads[b].op
                        && s2.owner[p] == s2.generation && s2.threads[u] == s.threads[u] && OthersOweNothing(s2, u)
  {
  }

  // A start or autotest comes to its child while the stop `u` is at the slot.
  lemma BeginMeetsStop(s: State, b: Tid, u: Tid)
    requires Inv(s) && b in s.threads && Begins(s.threads[b]) && s.slot.None?
    requires u in s.threads && Touches(s.threads[u]) && OthersOweNothing(s, u)
    requires Borrows(s.threads[u]) || !Awaits(s.threads[u]) || s.threads[b].op == Autotest
    ensures CanEscape(s)
  {
    EscapesFromBegun(s, b);
    var s1 := Begun(s, b);
    var p := FreshThread(s1.owner.Keys);
    BegunUnder(s, b, u);
    EscapesFromLaunched(s1, b, p);
    var s2 := Launched(s1, b, p);
    if Borrows(s.threads[u]) {
      PutBackOver(s2, b, u, p);
    } else if !Awaits(s.threads[u]) {
      TakenBySomebodyElse(s2, b, u, p);
    } else {
      TakenAndReplaced(s2, b, u, p);
    }
  }

  // The same when there still is a child in the slot for the stop to take.
  lemma BeginAndStop(s: State, b: Tid, u: Tid)
    requires Inv(s) && b in s.threads && Begins(s.threads[b])
    requires u in s.threads && Touches(s.threads[u]) && OthersOweNothing(s, u) && (Borrows(s.threads[u]) ==> s.slot.None?)
    requires !SweepsInVain(s, s.threads[u]) || s.threads[b].op == Autotest
    ensures CanEscape(s)
  {
    if s.slot.None? {
      BeginMeetsStop(s, b, u);
    } else {
      Plain(s, Take(u), Apply(s, Take(u)));
      BeginMeetsStop(Apply(s, Take(u)), b, u);
    }
  }

  lemma BeginHarms(s: State, e: Event)
    requires OrderlyInv(s) && Enabled(s, e) && !Respects(s, e, BeginsApart)
    requires e.op == Start ==> exists u :: u in s.threads && Touches(s.threads[u]) && !SweepsInVain(s, s.threads[u])
    ensures CanEscape(Apply(s, e))
  {
    InvKept(s, e);
    var u :| u in s.threads && Touches(s.threads[u]) && (e.op == Start ==> !SweepsInVain(s, s.threads[u]));
    BeginComesLast(s, e, u);
    BeginAndStop(Apply(s, e), e.t, u);
  }

  lemma BeginComesLast(s: State, e: Event, u: Tid)
    requires OneStop(s) && OneBorrower(s) && Enabled(s, e) && !Respects(s, e, BeginsApart) && u in s.threads && Touches(s.threads[u])
    ensures var s1 := Apply(s, e);
            && s1.threads[u] == s.threads[u] && s1.slot == s.slot && OthersOweNothing(s1, u)
            && s1.threads[e.t] == Entered(e.op) && (Borrows(s.threads[u]) ==> s.slot.None?)
  {
    assert forall v :: v in s.threads && v != u && Awaits(s.threads[v]) ==> !InFlight(s.threads[u]);
  }

  // --- a stop called in the middle of a begin ---------------------------------------------------

  lemma CancelSplitsBegin(s: State, e: Event)
    requires OrderlyInv(s) && Enabled(s, e) && !Respects(s, e, CancelsApart)
    ensures CanEscape(Apply(s, e))
  {
    InvKept(s, e);
    var b :| b in s.threads && Begins(s.threads[b]);
    NothingRegisteredYet(s, b);
    SplitBeginEscapes(s, e, b);
  }

  lemma SplitBeginEscapes(s: State, e: Event, b: Tid)
    requires OneStop(s) && Enabled(s, e) && e.Cancel? && Inv(Apply(s, e)) && b in s.threads && Begins(s.threads[b])
    requires s.active && s.operation.None? && forall w :: w in s.threads ==> !Touches(s.threads[w])
    ensures CanEscape(Apply(s, e))
  {
    if w :| w in s.threads && Awaits(s.threads[w]) {
      WaitGivenUp(s, e, b, w);
    } else {
      NewStopIsAlone(s, e);
      BeginAndStop(Apply(s, e), b, e.t);
    }
  }

  lemma NewStopIsAlone(s: State, e: Event)
    requires Enabled(s, e) && e.Cancel? && s.operation.None? && forall w :: w in s.threads ==> !Awaits(s.threads[w])
    ensures var s1 := Apply(s, e);
            OthersOweNothing(s1, e.t) && Touches(s1.threads[e.t]) && !Borrows(s1.threads[e.t]) && !Awaits(s1.threads[e.t])
  {
  }

  lemma NothingRegisteredYet(s: State, b: Tid)
    requires GuardInv(s) && StopShuts(s) && b in s.threads && Begins(s.threads[b])
    ensures s.active && s.operation.None? && forall w :: w in s.threads ==> !Touches(s.threads[w])
  {
    assert Guarding(s.threads[b]);
  }

  // The stop that was waiting gives up first.
  lemma WaitGivenUp(s: State, e: Event, b: Tid, w: Tid)
    requires OneStop(s) && Enabled(s, e) && e.Cancel? && s.active && s.operation.None? && Inv(Apply(s, e))
    requires b in s.threads && Begins(s.threads[b])
    requires w in s.threads && Awaits(s.threads[w]) && s.threads[w].stage.Waiting?
    ensures CanEscape(Apply(s, e))
  {
    var s1, s2 := GivesUp(s, e, w);
    Plain(s1, GiveUp(w), s2);
    BeginAndStop(s2, b, e.t);
  }

  lemma GivesUp(s: State, e: Event, w: Tid) returns (s1: State, s2: State)
    requires OneStop(s) && Enabled(s, e) && e.Cancel? && s.active && s.operation.None?
    requires w in s.threads && Awaits(s.threads[w]) && s.threads[w].stage.Waiting?
    ensures s1 == Apply(s, e) && Goes(s1, GiveUp(w), s2) && OthersOweNothing(s2, e.t)
    ensures s2.threads == s.threads[e.t := Stop(None, Sweeping(false))][w := Stop(s.threads[w].ticket, Returned(false))]
  {
    s1 := Apply(s, e);
    s2 := Apply(s1, GiveUp(w));
    forall v | v in s2.threads && v != e.t
      ensures !Awaits(s2.threads[v])
    {
      assert v != w ==> v in s.threads && s2.threads[v] == s.threads[v] && InFlight(s.threads[w]);
    }
  }

  // --- a stop called while another one owes something -------------------------------------------

  lemma FlagKept(s: State, e: Event)
    requires GuardInv(s) && Flagged(s) && Enabled(s, e)
    ensures Flagged(Apply(s, e))
  {
    if Apply(s, e).active {
      FlagStep(s, e);
    }
  }

  // Two stops under way, `w` past its first sweep or not, `c` just called, and a child in the slot.
  ghost predicate BothWant(s: State, w: Tid, c: Tid, p: Pid) {
    && Inv(s) && Flagged(s) && s.slot == Some(p) && p in s.alive && s.operation.None?
    && w != c && w in s.threads && c in s.threads
    && Awaits(s.threads[w]) && InFlight(s.threads[c]) && s.threads[c].stage.Sweeping?
  }

  // The new one takes what the other one owes.
  lemma TakenByTheNewOne(s: State, w: Tid, c: Tid, p: Pid)
    requires BothWant(s, w, c, p) && s.owner[p] == s.threads[w].ticket.value.gen
    ensures CanEscape(s)
  {
    var s1 := Apply(s, Take(c));
    Plain(s, Take(c), s1);
    FlagKept(s, Take(c));
    assert KilledBy(s1, c, p);
    OwedAndOutOfReach(s1, w, p);
  }

  // The old one, when nobody holds the guard any more, takes what the new one owes.
  lemma TakenByTheOldOne(s: State, w: Tid, c: Tid, p: Pid)
    requires BothWant(s, w, c, p) && s.threads[w].stage.Waiting? && !s.active
    requires Awaits(s.threads[c]) && s.owner[p] == s.threads[c].ticket.value.gen
    ensures CanEscape(s)
  {
    var s1, s2 := IdleAndTaken(s, w, p);
    Plain(s, SeeIdle(w), s1);
    Plain(s1, Take(w), s2);
    assert s2.threads[c] == s.threads[c] && KilledBy(s2, w, p);
    OwedAndOutOfReach(s2, c, p);
  }

  lemma IdleAndTaken(s: State, w: Tid, p: Pid) returns (s1: State, s2: State)
    requires w in s.threads && Awaits(s.threads[w]) && s.threads[w].stage.Waiting? && !s.active && s.slot == Some(p)
    ensures Goes(s, SeeIdle(w), s1) && Goes(s1, Take(w), s2)
    ensures s2.threads == s.threads[w := s.threads[w].(stage := Killing(true, p))]
    ensures s2.alive == s.alive && s2.owner == s.owner && s2.active == s.active
  {
    s1 := Apply(s, SeeIdle(w));
    s2 := Apply(s1, Take(w));
  }

  // The cancelled operation comes to its end and leaves the child in the slot.
  lemma {:induction false} OperationGoesFirst(s: State, w: Tid, c: Tid, p: Pid, u: Tid)
    requires BothWant(s, w, c, p) && s.threads[w].stage.Waiting?
    requires Awaits(s.threads[c]) && s.owner[p] == s.threads[c].ticket.value.gen
    requires s.active ==> LeavesSlot(s, u)
    ensures CanEscape(s)
    decreases if u in s.threads then GuardRank(s.threads[u]) else 0, s.active
  {
    if s.active {
      var e := GuardEvent(s, u);
      GuardMoves(s, u);
      InvKept(s, e);
      FlagKept(s, e);
      GuardLeavesSlot(s, u, p);
      OperationGoesFirst(Apply(s, e), w, c, p, u);
      EscapeOneStepEarlier(s, e);
    } else {
      TakenByTheOldOne(s, w, c, p);
    }
  }

  // The guard's operation has been cancelled and has no business with the slot.
  ghost predicate LeavesSlot(s: State, u: Tid) {
    Guarded(s, u) && s.threads[u].Op? && !s.threads[u].phase.Clearing? && !s.threads[u].phase.Reaping?
  }

  lemma GuardLeavesSlot(s: State, u: Tid, p: Pid)
    requires Inv(s) && LeavesSlot(s, u) && s.operation.None? && s.slot == Some(p) && p in s.alive
    ensures var e := GuardEvent(s, u); Enabled(s, e) && Actor(e) == Some(u)
    ensures var s' := Apply(s, GuardEvent(s, u));
            && s'.slot == s.slot && p in s'.alive && s'.operation.None? && s'.threads == s.threads[u := s'.threads[u]]
            && (s'.active ==> LeavesSlot(s', u))
  {
    assert HeldBy(s.threads[u]) != s.slot;
  }

  lemma WhoOwes(s: State, w: Tid, p: Pid)
    requires OrderlyInv(s) && w in s.threads && Awaits(s.threads[w]) && Owed(s, p)
    ensures s.owner[p] == s.threads[w].ticket.value.gen || (s.operation.Some? && s.generation == s.owner[p])
  {
    if !(s.operation.Some? && s.generation == s.owner[p]) {
      var v :| v in s.threads && s.threads[v].Stop? && s.threads[v].ticket.Some? && s.threads[v].ticket.value.gen == s.owner[p]
               && OperationCanSpawn(s.threads[v].ticket.value.op) && s.threads[v].stage != Returned(false);
      var confirmed := ConfirmedStop(s, v, s.threads[v].ticket.value);
      assert Awaits(s.threads[v]);
    }
  }

  // The child is in the slot, or put back there first.
  lemma CancelHarms(s: State, e: Event, w: Tid, p: Pid)
    requires OrderlyInv(s) && Grounds(s) && Enabled(s, e) && e.Cancel?
    requires w in s.threads && Awaits(s.threads[w]) && Owed(s, p) && NearSlot(s, p)
    ensures CanEscape(Apply(s, e))
  {
    InvKept(s, e);
    FlagKept(s, e);
    WhoOwes(s, w, p);
    if s.slot == Some(p) {
      if s.operation.Some? {
        NobodyNearTheSlot(s, p);
      }
      NowBothWant(s, e, w, p);
      SlotHarms(s, e, w, p, Apply(s, e));
    } else {
      var x :| x in s.threads && Reaps(s.threads[x], p);
      PutBackHarms(s, e, w, p, x);
    }
  }

  lemma NowBothWant(s: State, e: Event, w: Tid, p: Pid)
    requires Enabled(s, e) && e.Cancel? && w in s.threads && Awaits(s.threads[w]) && s.slot == Some(p) && p in s.alive
    requires Inv(Apply(s, e)) && Flagged(Apply(s, e))
    ensures BothWant(Apply(s, e), w, e.t, p) && Apply(s, e).owner == s.owner && Apply(s, e).threads[w] == s.threads[w]
    ensures forall u :: LeavesSlot(s, u) ==> LeavesSlot(Apply(s, e), u)
  {
  }

  lemma NobodyNearTheSlot(s: State, p: Pid)
    requires OrderlyInv(s) && s.slot == Some(p) && p in s.alive && s.operation.Some?
    ensures forall u :: u in s.threads && Guarding(s.threads[u]) ==> LeavesSlot(s, u)
  {
    assert forall u :: u in s.threads ==> !Borrows(s.threads[u]);
  }

  lemma PutBackHarms(s: State, e: Event, w: Tid, p: Pid, x: Tid)
    requires GuardInv(s) && OwnersSpawn(s) && Flagged(s) && StopShuts(s) && OneBorrower(s)
    requires Enabled(s, e) && e.Cancel? && w in s.threads && Awaits(s.threads[w]) && Owed(s, p)
    requires s.owner[p] == s.threads[w].ticket.value.gen || (s.operation.Some? && s.generation == s.owner[p])
    requires x in s.threads && Reaps(s.threads[x], p) && Inv(Apply(s, e)) && Flagged(Apply(s, e))
    ensures CanEscape(Apply(s, e))
  {
    BorrowedFromSlot(s, x);
    var s1, s2 := PutBack(s, e, x, p);
    Plain(s1, OwnKill(x, false), s2);
    FlagKept(s1, OwnKill(x, false));
    OnlyItsGuard(s, x);
    BothStillWant(s, e, w, p, x, s2);
    SlotHarms(s, e, w, p, s2);
  }

  lemma BothStillWant(s: State, e: Event, w: Tid, p: Pid, x: Tid, s2: State)
    requires Enabled(s, e) && e.Cancel? && w in s.threads && Awaits(s.threads[w]) && p in s.alive
    requires x in s.threads && Reaps(s.threads[x], p) && Inv(s2) && Flagged(s2)
    requires forall u :: u in s.threads && Guarding(s.threads[u]) ==> u == x
    requires s2.slot == Some(p) && s2.alive == s.alive && s2.owner == s.owner && s2.operation.None?
    requires s2.threads == Apply(s, e).threads[x := s.threads[x].(phase := Leaving)]
    ensures BothWant(s2, w, e.t, p) && s2.threads[w] == s.threads[w] && s2.threads[e.t] == Apply(s, e).threads[e.t]
    ensures forall u :: u in s.threads && Guarding(s.threads[u]) ==> LeavesSlot(s2, u)
  {
  }

  lemma BorrowedFromSlot(s: State, x: Tid)
    requires OneBorrower(s) && x in s.threads && Borrows(s.threads[x])
    ensures s.slot.None?
  {
  }

  lemma OnlyItsGuard(s: State, x: Tid)
    requires OneGuard(s) && x in s.threads && Guarding(s.threads[x])
    ensures forall u :: u in s.threads && Guarding(s.threads[u]) ==> u == x
  {
  }

  lemma PutBack(s: State, e: Event, x: Tid, p: Pid) returns (s1: State, s2: State)
    requires Enabled(s, e) && e.Cancel? && x in s.threads && Reaps(s.threads[x], p) && s.slot.None?
    ensures s1 == Apply(s, e) && Goes(s1, OwnKill(x, false), s2)
    ensures s2.slot == Some(p) && s2.alive == s.alive && s2.owner == s.owner && s2.operation.None?
    ensures s2.threads == s1.threads[x := s.threads[x].(phase := Leaving)]
  {
    s1 := Apply(s, e);
    s2 := Apply(s1, OwnKill(x, false));
  }

  // `s2` is the state after the cancel, with the child in the slot.
  lemma SlotHarms(s: State, e: Event, w: Tid, p: Pid, s2: State)
    requires GuardInv(s) && OwnersSpawn(s) && Flagged(s) && StopShuts(s)
    requires Enabled(s, e) && e.Cancel? && w in s.threads && Awaits(s.threads[w]) && p in s.owner
    requires s.owner[p] == s.threads[w].ticket.value.gen || (s.operation.Some? && s.generation == s.owner[p])
    requires BothWant(s2, w, e.t, p) && s2.owner == s.owner && s2.threads[w] == s.threads[w] && s2.threads[e.t] == Apply(s, e).threads[e.t]
    requires s.operation.Some? ==> forall u :: u in s.threads && Guarding(s.threads[u]) ==> LeavesSlot(s2, u)
    ensures CanEscape(s2)
  {
    if s.owner[p] == s.threads[w].ticket.value.gen {
      TakenByTheNewOne(s2, w, e.t, p);
    } else {
      RegisteredSpawns(s, p);
      assert !Touches(s.threads[w]);
      var u :| Guarded(s, u);
      OperationGoesFirst(s2, w, e.t, p, u);
    }
  }

  // --- the condition on a step ------------------------------------------------------------------

  lemma HarmfulCancelEscapes(s: State, e: Event)
    requires OrderlyInv(s) && Grounds(s) && Enabled(s, e) && !Respects(s, e, StopsApart)
    requires exists p :: Owed(s, p) && NearSlot(s, p)
    ensures CanEscape(Apply(s, e))
  {
    var p :| Owed(s, p) && NearSlot(s, p);
    var w :| w in s.threads && Awaits(s.threads[w]);
    CancelHarms(s, e, w, p);
  }

  lemma HarmfulCallEscapes(s: State, e: Event)
    requires OrderlyInv(s) && Grounds(s) && Enabled(s, e) && !CallsApart(s, e) && !Harmless(s, e)
    requires Respects(s, e, PollSure) && Respects(s, e, ChildDies)
    ensures CanEscape(Apply(s, e))
  {
    if !Respects(s, e, CancelsApart) {
      CancelSplitsBegin(s, e);
    } else {
      WhyHarmful(s, e);
      if !Respects(s, e, BeginsApart) {
        BeginHarms(s, e);
      } else {
        HarmfulCancelEscapes(s, e);
      }
    }
  }

  lemma WhyHarmful(s: State, e: Event)
    requires Enabled(s, e) && !Harmless(s, e)
    requires Respects(s, e, CancelsApart) && Respects(s, e, PollSure) && Respects(s, e, ChildDies)
    ensures Respects(s, e, BeginsApart) ==> !Respects(s, e, StopsApart) && exists p :: Owed(s, p) && NearSlot(s, p)
    ensures !Respects(s, e, BeginsApart) && e.op == Start ==>
              exists u :: u in s.threads && Touches(s.threads[u]) && !SweepsInVain(s, s.threads[u])
  {
  }

  // An orderly run can go on after a step without ever coming to an escape exactly if the step
  // does no harm.
  lemma EveryStepDecides(s: State, e: Event)
    requires OrderlyInv(s) && Grounds(s) && Enabled(s, e)
    ensures Harmless(s, e) <==> !CanEscape(Apply(s, e))
  {
    if Harmless(s, e) {
      HarmlessNeverEscapes(s, e);
    } else if CallsApart(s, e) {
      if Orderly(s, e) {
        OrderlyIsHarmless(s, e);
      } else {
        LossIsFatal(s, e);
      }
    } else {
      OnlyCallsOverlap(s, e);
      HarmfulCallEscapes(s, e);
    }
  }

  lemma HarmlessNeverEscapes(s: State, e: Event)
    requires OrderlyInv(s) && Grounds(s) && Enabled(s, e) && Harmless(s, e)
    ensures !CanEscape(Apply(s, e))
  {
    HarmlessIsSafe(s, e);
    SafeMeansNoEscape(Apply(s, e));
  }

  lemma OrderlyIsHarmless(s: State, e: Event)
    requires Enabled(s, e) && Orderly(s, e)
    ensures Harmless(s, e)
  {
    assert Respects(s, e, StopsApart) && Respects(s, e, BeginsApart) && Respects(s, e, CancelsApart);
    assert Respects(s, e, PollSure) && Respects(s, e, ChildDies);
  }

  lemma OnlyCallsOverlap(s: State, e: Event)
    requires Enabled(s, e) && !CallsApart(s, e)
    ensures Respects(s, e, PollSure) && Respects(s, e, ChildDies)
  {
  }

  // After every orderly run from the start, at every step.
  lemma HarmIsExact(es: seq<Event>, e: Event)
    requires OrderlyRun(INITIAL, es)
    ensures CanRun(INITIAL, es)
    ensures Enabled(After(INITIAL, es), e) ==>
              (Harmless(After(INITIAL, es), e) <==> !CanEscape(Apply(After(INITIAL, es), e)))
  {
    OrderlyRunsKeepIt(INITIAL, es);
    if Enabled(After(INITIAL, es), e) {
      EveryStepDecides(After(INITIAL, es), e);
    }
  }

  // Runs in which calls may overlap as far as it does no harm, one overlap after the other.
  ghost predicate HarmlessRun(s: State, es: seq<Event>)
    decreases es
  {
    es != [] ==>
      && Enabled(s, es[0]) && (Orderly(s, es[0]) || (OrderlyInv(s) && Harmless(s, es[0])))
      && HarmlessRun(Apply(s, es[0]), es[1..])
  }

  lemma {:induction false} HarmlessRunsStaySafe(s: State, es: seq<Event>)
    requires Safe(s) && HarmlessRun(s, es)
    ensures CanRun(s, es) && Safe(After(s, es))
    decreases es
  {
    if es != [] {
      if Orderly(s, es[0]) {
        SafeKept(s, es[0]);
      } else {
        HarmlessIsSafe(s, es[0]);
      }
      HarmlessRunsStaySafe(Apply(s, es[0]), es[1..]);
    }
  }

  // The guarantee of `stop_dpi_runtime` holds in all of them as well.
  lemma StopOkStillKillsEverything(es: seq<Event>, t: Tid, ticket: Ticket)
    requires HarmlessRun(INITIAL, es)
    ensures CanRun(INITIAL, es)
    ensures var s := After(INITIAL, es);
            ConfirmedStop(s, t, ticket) ==>
              OperationOver(s, ticket.gen) && forall p :: p in s.alive ==> p in s.owner && s.owner[p] != ticket.gen
  {
    InitialIsSafe();
    HarmlessRunsStaySafe(INITIAL, es);
    if ConfirmedStop(After(INITIAL, es), t, ticket) {
      ConfirmedMeansDone(After(INITIAL, es), t, ticket);
    }
  }

  lemma InitialIsSafe()
    ensures Safe(INITIAL)
  {
    assert OrderlyInv(INITIAL) && Grounds(INITIAL);
  }

  lemma ConfirmedMeansDone(s: State, t: Tid, ticket: Ticket)
    requires Safe(s) && ConfirmedStop(s, t, ticket)
    ensures OperationOver(s, ticket.gen) && forall p :: p in s.alive ==> p in s.owner && s.owner[p] != ticket.gen
  {
    assert PastWait(s.threads[t]);
  }
}
