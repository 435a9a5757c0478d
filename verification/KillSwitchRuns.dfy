/**
  Whole runs of the kill switch: what no sequence of commands can break, what a status query whose
  lookups fail breaks, and how a cached answer goes stale.
 */
module KillSwitchRuns {
  import opened Common
  import opened KillSwitch
  import opened Traces

  datatype Command =
    | Arm(engines: bool, allowLan: Option<bool>, tun: Option<string>, strict: Option<bool>, builds: bool, stuck: set<Handle>)
    | ArmBarrier(engines: bool, builds: bool)
    | ReleaseBarrier(stuck: set<Handle>)
    | Disarm(stuck: set<Handle>)
    | Ask(expired: bool, faults: Faults)
    | EngineLoses(sessions: set<Handle>)

  // The commands that never mean to take protection away.
  predicate Guarding(c: Command) { c.Arm? || c.ArmBarrier? || c.Ask? }

  // What a command finds.  The switch and its engine, with whether a cached answer is for the
  // present leases.
  datatype Moment = Moment(leases: seq<Lease>, live: set<Handle>, closed: set<Handle>, trace: seq<set<Handle>>, current: bool)

  ghost function Now(k: KillSwitchState): Moment
    reads k, k.wfp
  {
    Moment(k.leases, k.wfp.alive, k.wfp.closed, k.wfp.trace, k.Cached(false))
  }

  predicate Probes(c: Command, m: Moment) { c.Ask? && (c.expired || !m.current) }

  // The blocking sessions that a command closes because it could not look them up.
  function TakenBy(c: Command, m: Moment): set<Handle> {
    if Probes(c, m) then Taken(m.live, c.faults) else {}
  }

  predicate MisledBy(c: Command, m: Moment) { Probes(c, m) && Misled(m.live, c.faults) }

  // The barrier sessions that are blocking.
  function LiveBarrier(leases: seq<Lease>, alive: set<Handle>): set<Handle> {
    Handles(Barriers(leases)) * alive
  }

  // A guarding command leaves a moment without a live session exactly if it takes all of them,
  // and no barrier session is taken away but those it takes, which never come back.
  ghost predicate Guarded(taken: set<Handle>, m: Moment, next: Moment) {
    var barrier := LiveBarrier(m.leases, m.live - taken);
    && (m.live != {} ==>
          && (next.live != {} <==> taken != m.live)
          && (Through(m.trace, next.trace, NoGap) <==> taken != m.live))
    && Through(m.trace, next.trace, AtLeast(barrier)) && barrier <= LiveBarrier(next.leases, next.live)
    && m.closed + taken <= next.closed
  }

  // What the next command finds.
  ghost predicate Leads(m: Moment, c: Command, next: Moment) {
    && (Guarding(c) ==> Guarded(TakenBy(c, m), m, next))
    && match c
       case Ask(_, _) => next.live == m.live - TakenBy(c, m) && (Probes(c, m) || next == m)
       case EngineLoses(sessions) => next.live == m.live - sessions && next.current == m.current
       case ReleaseBarrier(stuck) =>
         next.live == m.live - (Handles(Barriers(m.leases)) - stuck) && Policies(next.leases) == Policies(m.leases) && !next.current
       case Disarm(stuck) => next.live == m.live * stuck && next.leases == StillOpen(m.leases, stuck) && !next.current
       case Arm(engines, allowLan, tun, strict, builds, stuck) =>
         Armed(m, next, Admissible(engines, allowLan, tun, strict == Some(true)) && builds, Handles(Policies(m.leases)) - stuck)
         && !next.current
       case ArmBarrier(engines, builds) =>
         Armed(m, next, Barriers(m.leases) == [] && engines && builds, {}) && !next.current
  }

  // A session was built, and those in `closing` closed in turn; or nothing happened.
  ghost predicate Armed(m: Moment, next: Moment, built: bool, closing: set<Handle>) {
    if built then exists h :: h in next.live && next.live == m.live - closing + {h} && next.leases != m.leases
    else next.live == m.live && next.leases == m.leases
  }

  ghost predicate LeadsAt(commands: seq<Command>, seen: seq<Moment>, i: nat) {
    i < |commands| && i + 1 < |seen| && Leads(seen[i], commands[i], seen[i + 1])
  }

  ghost predicate Moments(commands: seq<Command>, seen: seq<Moment>) {
    && |seen| == |commands| + 1 && (forall m :: m in seen ==> m.live !! m.closed)
    && forall i :: 0 <= i < |commands| ==> LeadsAt(commands, seen, i)
  }

  lemma StillBlocking(was: seq<Lease>, live: set<Handle>, leases: seq<Lease>, alive: set<Handle>)
    requires forall l :: l in was && l.transition && l.handle in live ==> l in leases && l.handle in alive
    ensures LiveBarrier(was, live) <= LiveBarrier(leases, alive)
  {
    forall h | h in LiveBarrier(was, live)
      ensures h in LiveBarrier(leases, alive)
    {
      var l :| l in Barriers(was) && l.handle == h;
      assert l in Barriers(leases);
    }
  }

  method ExecuteArm(k: KillSwitchState, c: Command)
    requires k.Valid() && c.Arm?
    modifies k, k.wfp
    ensures k.Valid() && k.Coherent() && Leads(old(Now(k)), c, Now(k))
  {
    ghost var m := Now(k);
    var r := k.ArmPolicy(c.engines, c.allowLan, c.tun, c.strict, c.builds, c.stuck);
    RefusedOrAdmissible(c.engines, c.allowLan, c.tun, c.strict == Some(true));
    ThroughWeaken(m.trace, k.wfp.trace, AtLeast(m.live - Handles(Policies(m.leases))), AtLeast(LiveBarrier(m.leases, m.live)));
    assert m.live - {} == m.live;
    if r.Ok? || r.error.CloseFailed? {
      NewSession(k, m, c.stuck);
    }
  }

  lemma NewSession(k: KillSwitchState, m: Moment, stuck: set<Handle>)
    requires k.Valid() && Distinct(m.leases) && k.Replaced(m.leases, Handles(m.leases), m.live, stuck)
    ensures Armed(m, Now(k), true, Handles(Policies(m.leases)) - stuck)
    ensures k.Protected() && LiveBarrier(m.leases, m.live) <= LiveBarrier(k.leases, k.wfp.alive)
  {
    var h := k.leases[|Barriers(m.leases)|].handle;
    assert h in Handles(k.leases) * k.wfp.alive;
    assert h in k.wfp.alive && k.wfp.alive == m.live - (Handles(Policies(m.leases)) - stuck) + {h};
    Partition(m.leases);
    assert h !in Handles(m.leases) && k.leases[|Barriers(m.leases)|] in k.leases;
    forall l | l in m.leases && l.transition && l.handle in m.live
      ensures l in k.leases && l.handle in k.wfp.alive
    {
      assert l in Barriers(m.leases) && l.handle in Handles(Barriers(m.leases));
    }
    StillBlocking(m.leases, m.live, k.leases, k.wfp.alive);
    assert k.leases != m.leases by {
      assert Lease(h, false) in k.leases;
    }
  }

  method ExecuteBarrier(k: KillSwitchState, c: Command)
    requires k.Valid() && c.ArmBarrier?
    modifies k, k.wfp
    ensures k.Valid() && k.Coherent() && Leads(old(Now(k)), c, Now(k))
  {
    ghost var m := Now(k);
    var _ := k.TransitionArm(c.engines, c.builds);
    ThroughWeaken(m.trace, k.wfp.trace, AtLeast(m.live), AtLeast(LiveBarrier(m.leases, m.live)));
    StillBlocking(m.leases, m.live, k.leases, k.wfp.alive);
    assert m.live - {} == m.live;
  }

  method ExecuteAsk(k: KillSwitchState, expired: bool, faults: Faults) returns (right: bool)
    requires k.Valid()
    modifies k, k.wfp
    ensures k.Valid() && Leads(old(Now(k)), Ask(expired, faults), Now(k))
    ensures old(k.Coherent()) ==> (right <==> !MisledBy(Ask(expired, faults), old(Now(k)))) && (right ==> k.Coherent())
  {
    ghost var m := Now(k);
    var active := k.IsActive(expired, faults);
    right := active == (k.wfp.alive != {});
    if Probes(Ask(expired, faults), m) {
      ProbeGuards(k, faults, m);
    } else {
      assert m.live - {} == m.live;
    }
  }

  lemma ProbeGuards(k: KillSwitchState, faults: Faults, m: Moment)
    requires k.Valid() && k.Probed(m.leases, m.live, m.closed, m.trace, faults) && m.live <= Handles(m.leases)
    ensures Guarded(Taken(m.live, faults), m, Now(k))
  {
    var left := m.live - Taken(m.live, faults);
    ThroughWeaken(m.trace, k.wfp.trace, AtLeast(left), AtLeast(LiveBarrier(m.leases, left)));
    RightUnlessMisled(m.live, faults);
    if left != {} {
      ThroughWeaken(m.trace, k.wfp.trace, AtLeast(left), NoGap);
    }
    StillBlocking(m.leases, left, k.leases, k.wfp.alive);
  }

  // Carries out a command; `right` is false only for an answer that does not tell whether a
  // session is blocking.
  method Execute(k: KillSwitchState, c: Command) returns (right: bool)
    requires k.Valid()
    modifies k, k.wfp
    ensures k.Valid() && Leads(old(Now(k)), c, Now(k))
    ensures (old(k.Coherent()) && !c.EngineLoses?) ==>
              (right <==> !MisledBy(c, old(Now(k)))) && (right ==> k.Coherent())
  {
    right := true;
    match c
    case Arm(_, _, _, _, _, _) => ExecuteArm(k, c);
    case ArmBarrier(_, _) => ExecuteBarrier(k, c);
    case ReleaseBarrier(stuck) => ReleasedLive(k); var _ := k.TransitionRelease(stuck);
    case Disarm(stuck) => var _ := k.DisarmPolicy(stuck);
    case Ask(expired, faults) => right := ExecuteAsk(k, expired, faults);
    case EngineLoses(sessions) => k.wfp.Lose(sessions);
  }

  // Whatever the engine refuses, over any run: sessions are conserved and at most one barrier is
  // held (`Valid`); unless the engine lost sessions, an answer is wrong exactly if a probe was
  // misled; and guarding commands guard, but for the sessions that queries take (`GuardingRun`).
  method Run(k: KillSwitchState, commands: seq<Command>) returns (right: bool, ghost seen: seq<Moment>)
    requires k.Valid()
    modifies k, k.wfp
    ensures k.Valid() && Moments(commands, seen) && seen[0] == old(Now(k)) && seen[|commands|] == Now(k)
    ensures (old(k.Coherent()) && forall c :: c in commands ==> !c.EngineLoses?) ==>
              (right <==> Truthful(commands, seen, |commands|)) && (right ==> k.Coherent())
  {
    right, seen := true, [Now(k)];
    for i := 0 to |commands|
      invariant k.Valid() && |seen| == i + 1 && seen[0] == old(Now(k)) && seen[i] == Now(k)
      invariant forall m :: m in seen ==> m.live !! m.closed
      invariant forall j :: 0 <= j < i ==> LeadsAt(commands, seen, j)
      invariant (old(k.Coherent()) && forall c :: c in commands ==> !c.EngineLoses?) ==>
                  (right <==> Truthful(commands, seen, i)) && (right ==> k.Coherent())
    {
      ghost var before := seen;
      var answer := Execute(k, commands[i]);
      right, seen := right && answer, seen + [Now(k)];
      assert forall j :: 0 <= j < i && LeadsAt(commands, before, j) ==> LeadsAt(commands, seen, j);
    }
  }

  // None of the first `n` commands is misled.
  ghost predicate Truthful(commands: seq<Command>, seen: seq<Moment>, n: nat)
    requires n <= |commands| && n < |seen|
  {
    forall i :: 0 <= i < n ==> !MisledBy(commands[i], seen[i])
  }

  // None of them takes every live session.
  ghost predicate Covered(commands: seq<Command>, seen: seq<Moment>, n: nat)
    requires n <= |commands| && n < |seen|
  {
    forall i :: 0 <= i < n ==> TakenBy(commands[i], seen[i]) != seen[i].live
  }

  // The sessions they take.
  ghost function AllTaken(commands: seq<Command>, seen: seq<Moment>, n: nat): (all: set<Handle>)
    requires n <= |commands| && n < |seen|
    ensures forall h :: h in all <==> exists i :: 0 <= i < n && h in TakenBy(commands[i], seen[i])
  {
    if n == 0 then {} else AllTaken(commands, seen, n - 1) + TakenBy(commands[n - 1], seen[n - 1])
  }

  // Through a run of guarding commands there is a moment without a live session exactly if a query
  // takes all there are, and the barrier sessions taken away are exactly those that queries take.
  lemma GuardingRun(commands: seq<Command>, seen: seq<Moment>)
    requires Moments(commands, seen) && forall c :: c in commands ==> Guarding(c)
    ensures var n := |commands|; var first, last := seen[0], seen[n];
            var barrier := LiveBarrier(first.leases, first.live);
            && (first.live != {} ==>
                  && (Through(first.trace, last.trace, NoGap) <==> Covered(commands, seen, n))
                  && (Covered(commands, seen, n) ==> last.live != {}))
            && Through(first.trace, last.trace, AtLeast(barrier - AllTaken(commands, seen, n)))
            && barrier * LiveBarrier(last.leases, last.live) == barrier - AllTaken(commands, seen, n)
  {
    var n := |commands|;
    BarrierKept(commands, seen, n);
    assert seen[n] in seen;
    if seen[0].live != {} {
      NoGapUntilTaken(commands, seen, n);
    }
  }

  lemma {:induction false} NoGapUntilTaken(commands: seq<Command>, seen: seq<Moment>, n: nat)
    requires Moments(commands, seen) && n <= |commands| && forall c :: c in commands ==> Guarding(c)
    requires seen[0].live != {}
    ensures Through(seen[0].trace, seen[n].trace, NoGap) <==> Covered(commands, seen, n)
    ensures Covered(commands, seen, n) ==> seen[n].live != {}
  {
    if n > 0 {
      NoGapUntilTaken(commands, seen, n - 1);
      GuardedAt(commands, seen, n - 1);
      Prefixes(commands, seen, n);
      var first, m, now := seen[0].trace, seen[n - 1].trace, seen[n].trace;
      if Covered(commands, seen, n) {
        ThroughChain(first, m, now, NoGap, NoGap, NoGap);
      } else if Through(first, now, NoGap) {
        ThroughSplit(first, m, now, NoGap);
      }
    }
  }

  lemma Prefixes(commands: seq<Command>, seen: seq<Moment>, n: nat)
    requires Moments(commands, seen) && 0 < n <= |commands| && forall c :: c in commands ==> Guarding(c)
    ensures seen[0].trace <= seen[n - 1].trace <= seen[n].trace
  {
    BarrierKept(commands, seen, n - 1);
    var first, m := seen[0], seen[n - 1];
    GuardedAt(commands, seen, n - 1);
    ThroughGrows(first.trace, m.trace, AtLeast(LiveBarrier(first.leases, first.live) - AllTaken(commands, seen, n - 1)));
    GuardedGrows(TakenBy(commands[n - 1], m), m, seen[n]);
  }

  lemma GuardedAt(commands: seq<Command>, seen: seq<Moment>, i: nat)
    requires Moments(commands, seen) && i < |commands| && forall c :: c in commands ==> Guarding(c)
    ensures Guarded(TakenBy(commands[i], seen[i]), seen[i], seen[i + 1])
  {
    assert commands[i] in commands && LeadsAt(commands, seen, i);
  }

  lemma GuardedGrows(taken: set<Handle>, m: Moment, next: Moment)
    requires Guarded(taken, m, next)
    ensures m.trace <= next.trace
  {
    ThroughGrows(m.trace, next.trace, AtLeast(LiveBarrier(m.leases, m.live - taken)));
  }

  lemma {:induction false} BarrierKept(commands: seq<Command>, seen: seq<Moment>, n: nat)
    requires Moments(commands, seen) && n <= |commands| && forall c :: c in commands ==> Guarding(c)
    ensures var first, now := seen[0], seen[n];
            var barrier := LiveBarrier(first.leases, first.live) - AllTaken(commands, seen, n);
            && Through(first.trace, now.trace, AtLeast(barrier)) && barrier <= LiveBarrier(now.leases, now.live)
            && AllTaken(commands, seen, n) <= now.closed
  {
    if n > 0 {
      BarrierKept(commands, seen, n - 1);
      GuardedAt(commands, seen, n - 1);
      BarrierStep(seen[0], seen[n - 1], seen[n], AllTaken(commands, seen, n - 1), TakenBy(commands[n - 1], seen[n - 1]));
    }
  }

  lemma BarrierStep(first: Moment, m: Moment, now: Moment, taken: set<Handle>, more: set<Handle>)
    requires var barrier := LiveBarrier(first.leases, first.live) - taken;
             Through(first.trace, m.trace, AtLeast(barrier)) && barrier <= LiveBarrier(m.leases, m.live)
    requires Guarded(more, m, now) && taken <= m.closed
    ensures var barrier := LiveBarrier(first.leases, first.live) - (taken + more);
            Through(first.trace, now.trace, AtLeast(barrier)) && barrier <= LiveBarrier(now.leases, now.live)
    ensures taken + more <= now.closed
  {
    var barrier, kept := LiveBarrier(first.leases, first.live) - taken, LiveBarrier(m.leases, m.live - more);
    assert barrier - more <= kept;
    ThroughChain(first.trace, m.trace, now.trace, AtLeast(barrier), AtLeast(kept), AtLeast(barrier - more));
    assert barrier - more == LiveBarrier(first.leases, first.live) - (taken + more);
  }

  // So a status query can lift a block.  In every protected state, if it looks at the sessions
  // and all its lookups fail, it closes them all, the barrier with them, and forgets them.
  method AskUnblocks(k: KillSwitchState, expired: bool) returns (active: bool)
    requires k.Valid() && k.Protected() && !k.Cached(expired)
    modifies k, k.wfp
    ensures k.Valid() && !active && !k.Protected()
    ensures k.leases == [] && k.wfp.open == {}
  {
    active := k.IsActive(expired, Faults(k.wfp.alive, {}));
    NoHandles(k.leases);
  }

  lemma NoHandles(leases: seq<Lease>)
    ensures Handles(leases) == {} ==> leases == []
  {
    assert leases != [] ==> leases[0] in leases && leases[0].handle in Handles(leases);
  }

  // And if the closing fails as well, it denies the protection that is still there, and so do the
  // queries after it that find the cached answer.
  method AskDenies(k: KillSwitchState, expired: bool) returns (active: bool, again: bool)
    requires k.Valid() && k.Protected() && !k.Cached(expired)
    modifies k, k.wfp
    ensures k.Valid() && !active && !again && k.Protected() && k.wfp.alive == old(k.wfp.alive) && k.leases == old(k.leases)
  {
    var broken := Faults(k.wfp.alive, k.wfp.open);
    DroppedExactlyThen(k.leases, Heard(k.wfp.alive, broken) + broken.stuck);
    assert Taken(k.wfp.alive, broken) == {};
    active := k.IsActive(expired, broken);
    again := k.IsActive(false, broken);
  }

  // --- between the bump and the lock ------------------------------------------------------------

  // What a command does to the leases once it has the lock.
  datatype Change =
    | ReplacePolicy(builds: bool, stuck: set<Handle>)
    | AddBarrier(builds: bool)
    | ReleaseBarriers(stuck: set<Handle>)
    | DisarmAll(stuck: set<Handle>)

  // Is there protection afterwards?
  predicate ProtectsAfter(leases: seq<Lease>, live: set<Handle>, change: Change) {
    match change
    case ReplacePolicy(builds, _) => builds || live != {}
    case AddBarrier(builds) => (builds && Barriers(leases) == []) || live != {}
    case ReleaseBarriers(stuck) => live - (Handles(Barriers(leases)) - stuck) != {}
    case DisarmAll(stuck) => live * stuck != {}
  }

  method CarryOut(k: KillSwitchState, change: Change)
    requires k.Valid()
    modifies k`leases, k.wfp
    ensures k.Valid() && (k.wfp.alive != {} <==> ProtectsAfter(old(k.leases), old(k.wfp.alive), change))
  {
    ghost var was := k.leases;
    ProtectedMeansLive(k);
    ReleasedLive(k);
    match change
    case ReplacePolicy(builds, stuck) =>
      var _ := k.ReplacePolicy(builds, stuck);
      assert builds ==> k.leases[|Barriers(was)|].handle in k.wfp.alive;
    case AddBarrier(builds) =>
      if Barriers(k.leases) == [] {
        var _ := k.AddBarrier(builds);
        assert builds ==> k.leases[|was|].handle in k.wfp.alive;
      }
    case ReleaseBarriers(stuck) =>
      var _ := k.ReleaseLocked(stuck);
    case DisarmAll(stuck) =>
      var _ := k.DisarmLocked(stuck);
  }

  lemma ProtectedMeansLive(k: KillSwitchState)
    requires k.Valid()
    ensures k.Protected() <==> k.wfp.alive != {}
  {
    assert Handles(k.leases) * k.wfp.alive == k.wfp.alive;
  }

  // What a release leaves of the live sessions.
  lemma ReleasedLive(k: KillSwitchState)
    requires k.Valid()
    ensures forall gone: set<Handle> :: k.wfp.alive * (k.wfp.open - gone) == k.wfp.alive - gone
  {
  }

  lemma DroppedExactlyThen(was: seq<Lease>, left: set<Handle>)
    ensures StillOpen(was, Handles(was) * left) == was <==> Handles(was) - left == {}
  {
    var open := Handles(was) * left;
    if StillOpen(was, open) == was {
      forall l | l in was
        ensures l.handle in left
      {
        assert l in StillOpen(was, open);
      }
    } else if Handles(was) - left == {} {
      forall l | l in was
        ensures l.handle in open
      {
        assert l.handle in Handles(was) && l.handle !in Handles(was) - left;
      }
      KeepAll(was, In(open));
    }
  }

  // A probe that slips in between the version bump of any command and the lock on the leases
  // leaves a wrong answer in the cache exactly when it had no session to drop, dead or taken for
  // dead, and whether there is protection after the command is not what it answered.
  method ProbeInBetween(k: KillSwitchState, change: Change, faults: Faults) returns (active: bool)
    requires k.Valid()
    modifies k, k.wfp
    ensures k.Valid() && (active <==> Heard(old(k.wfp.alive), faults) != {})
    ensures var dropped := Handles(old(k.leases)) - (Heard(old(k.wfp.alive), faults) + faults.stuck);
            k.Coherent() <==> (dropped != {} || (k.Protected() <==> active))
    ensures var dropped := Handles(old(k.leases)) - (Heard(old(k.wfp.alive), faults) + faults.stuck);
            dropped == {} ==>
              (k.Protected() <==> ProtectsAfter(old(k.leases), old(k.wfp.alive) - Taken(old(k.wfp.alive), faults), change))
  {
    k.BumpVersion();
    DroppedExactlyThen(k.leases, Heard(k.wfp.alive, faults) + faults.stuck);
    active := k.IsActive(false, faults);
    CarryOut(k, change);
    ProtectedMeansLive(k);
  }
}
