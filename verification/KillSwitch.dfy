/**
  The WFP kill switch of `src-tauri/src/killswitch.rs`: leases on block-all sessions, replaced
  and released while opening and closing sessions may fail, and a versioned cache of the health
  answer.
 */
module KillSwitch {
  import opened Common
  import opened Text
  import opened Traces

  type Handle = nat

  // A dynamic session; a transition lease is the temporary barrier around a restart.
  datatype Lease = Lease(handle: Handle, transition: bool)

  // The leases that pass a test, in order.
  function Keep(leases: seq<Lease>, test: Lease -> bool): (kept: seq<Lease>)
    ensures forall l :: l in kept <==> l in leases && test(l)
  {
    if leases == [] then []
    else
      var n := |leases| - 1;
      Keep(leases[..n], test) + if test(leases[n]) then [leases[n]] else []
  }

  predicate IsBarrier(l: Lease) { l.transition }
  predicate IsPolicy(l: Lease) { !l.transition }
  function In(open: set<Handle>): Lease -> bool { (l: Lease) => l.handle in open }

  function Barriers(leases: seq<Lease>): seq<Lease> { Keep(leases, IsBarrier) }
  function Policies(leases: seq<Lease>): seq<Lease> { Keep(leases, IsPolicy) }
  function StillOpen(leases: seq<Lease>, open: set<Handle>): seq<Lease> { Keep(leases, In(open)) }

  function Handles(leases: seq<Lease>): set<Handle> {
    set l | l in leases :: l.handle
  }

  ghost predicate Distinct(leases: seq<Lease>) {
    forall i, j :: 0 <= i < j < |leases| ==> leases[i].handle != leases[j].handle
  }

  ghost predicate OneBarrier(leases: seq<Lease>) {
    forall i, j :: 0 <= i < j < |leases| ==> !(leases[i].transition && leases[j].transition)
  }

  lemma {:induction false} KeepSame(leases: seq<Lease>, p: Lease -> bool, q: Lease -> bool)
    requires forall l :: l in leases ==> (p(l) <==> q(l))
    ensures Keep(leases, p) == Keep(leases, q)
    decreases |leases|
  {
    if leases != [] {
      KeepSame(leases[..|leases| - 1], p, q);
    }
  }

  lemma {:induction false} KeepDistinct(leases: seq<Lease>, test: Lease -> bool)
    requires Distinct(leases)
    ensures Distinct(Keep(leases, test))
    ensures OneBarrier(leases) ==> OneBarrier(Keep(leases, test))
    decreases |leases|
  {
    if leases != [] {
      var init, last := leases[..|leases| - 1], leases[|leases| - 1];
      assert leases == init + [last];
      ApartFrom(init, last);
      KeepDistinct(init, test);
      if test(last) {
        ApartFrom(Keep(init, test), last);
      }
    }
  }

  // Adding a lease apart from the others.
  lemma ApartFrom(leases: seq<Lease>, last: Lease)
    ensures Distinct(leases + [last]) <==> Distinct(leases) && forall l :: l in leases ==> l.handle != last.handle
    ensures OneBarrier(leases + [last]) <==>
            OneBarrier(leases) && forall l :: l in leases ==> !(l.transition && last.transition)
  {
    var all := leases + [last];
    assert all[|leases|] == last && forall i :: 0 <= i < |leases| ==> all[i] == leases[i];
    if Distinct(all) {
      forall i, j | 0 <= i < j < |leases|
        ensures leases[i].handle != leases[j].handle
      {
        assert all[i].handle != all[j].handle;
      }
      forall l | l in leases
        ensures l.handle != last.handle
      {
        var i :| 0 <= i < |leases| && leases[i] == l;
        assert all[i].handle != all[|leases|].handle;
      }
    }
    if OneBarrier(all) {
      forall i, j | 0 <= i < j < |leases|
        ensures !(leases[i].transition && leases[j].transition)
      {
        assert !(all[i].transition && all[j].transition);
      }
      forall l | l in leases
        ensures !(l.transition && last.transition)
      {
        var i :| 0 <= i < |leases| && leases[i] == l;
        assert !(all[i].transition && all[|leases|].transition);
      }
    }
  }

  // Taking out the one lease on a handle.
  lemma {:induction false} KeepWithout(leases: seq<Lease>, open: set<Handle>, i: nat)
    requires Distinct(leases)
    requires var kept := StillOpen(leases, open); i < |kept|
    ensures var kept := StillOpen(leases, open);
            kept[..i] + kept[i + 1..] == StillOpen(leases, open - {kept[i].handle})
    decreases |leases|
  {
    var init, last := leases[..|leases| - 1], leases[|leases| - 1];
    assert leases == init + [last];
    ApartFrom(init, last);
    var before, kept := StillOpen(init, open), StillOpen(leases, open);
    var h := kept[i].handle;
    KeepOneMore(init, last, In(open));
    KeepOneMore(init, last, In(open - {h}));
    if i < |before| {
      KeepWithout(init, open, i);
      assert before[i] in before && before[i] == kept[i];
      CutOut(before, kept[|before|..], i);
    } else {
      KeepSame(init, In(open), In(open - {h}));
    }
  }

  lemma CutOut(a: seq<Lease>, b: seq<Lease>, i: nat)
    requires i < |a|
    ensures (a + b)[..i] + (a + b)[i + 1..] == a[..i] + a[i + 1..] + b
  {
  }

  // --- the filtering engine -------------------------------------------------------------------

  // The sessions Windows keeps for this process.  A session in `alive` blocks everything it
  // is not told to permit; one that is open but not alive has lost its filters.
  class Wfp {
    var open: set<Handle>
    var alive: set<Handle>
    var next: Handle
    ghost var closed: set<Handle>
    ghost var trace: seq<set<Handle>>   // `alive` after every call that changed the engine

    // Every handle ever handed out is either open or closed.
    ghost predicate Valid()
      reads this
    {
      alive <= open && open !! closed && forall h: Handle :: h < next <==> (h in open || h in closed)
    }

    constructor ()
      ensures Valid() && open == {} && trace == []
    {
      open, alive, next, closed, trace := {}, {}, 0, {}, [];
    }

    // win::arm: builds a whole session in a transaction, or leaves nothing behind.
    method Arm(builds: bool) returns (session: Option<Handle>)
      requires Valid()
      modifies this
      ensures Valid() && closed == old(closed) && (session.Some? <==> builds)
      ensures session.None? ==> open == old(open) && alive == old(alive) && trace == old(trace)
      ensures session.Some? ==>
                && session.value !in old(open)
                && open == old(open) + {session.value} && alive == old(alive) + {session.value}
                && trace == old(trace) + [alive]
    {
      if !builds {
        return None;
      }
      session := Some(next);
      open, alive, next := open + {next}, alive + {next}, next + 1;
      trace := trace + [alive];
    }

    // win::disarm: closing a session takes its filters away; it may fail.
    method Close(h: Handle, fails: bool)
      requires Valid() && h in open
      modifies this
      ensures Valid()
      ensures !fails ==>
                && open == old(open) - {h} && alive == old(alive) - {h}
                && closed == old(closed) + {h} && trace == old(trace) + [alive]
      ensures fails ==> open == old(open) && alive == old(alive) && closed == old(closed) && trace == old(trace)
    {
      if !fails {
        open, alive, closed := open - {h}, alive - {h}, closed + {h};
        trace := trace + [alive];
      }
    }

    // win::session_alive: an error of any of its lookups is an answer like "not found".
    method SessionAlive(h: Handle, fails: bool) returns (found: bool)
      ensures found <==> h in alive && !fails
    {
      found := !fails && h in alive;
    }

    // The engine loses sessions on its own, for instance when the service restarts.
    method Lose(lost: set<Handle>)
      requires Valid()
      modifies this`alive, this`trace
      ensures Valid() && alive == old(alive) - lost && trace == old(trace) + [alive]
    {
      alive := alive - lost;
      trace := trace + [alive];
    }
  }

  // Never below the sessions in `floor`.
  function AtLeast(floor: set<Handle>): set<Handle> -> bool { alive => floor <= alive }

  // From the live sessions `live0` to those alive now, and never below those in `floor`.
  ghost predicate Trail(t0: seq<set<Handle>>, live0: set<Handle>, t: seq<set<Handle>>, alive: set<Handle>, floor: set<Handle>) {
    Through(t0, t, AtLeast(floor)) && alive == if t == t0 then live0 else t[|t| - 1]
  }

  lemma TrailStep(t0: seq<set<Handle>>, live0: set<Handle>, t: seq<set<Handle>>, was: set<Handle>, alive: set<Handle>, floor: set<Handle>)
    requires Trail(t0, live0, t, was, floor) && floor <= alive
    ensures Trail(t0, live0, t + [alive], alive, floor)
    ensures was == alive ==> Trail(t0, live0, t + [], alive, floor)
  {
    ThroughGrows(t0, t, AtLeast(floor));
    ThroughStep(t0, t, alive, AtLeast(floor));
    assert t + [] == t;
  }

  // Never without a live session.
  predicate NoGap(alive: set<Handle>) { alive != {} }

  // --- policies -------------------------------------------------------------------------------

  datatype ArmError =
    | EngineMissing | LanForbidden | UnexpectedTun | TunForbidden   // refused before anything is built
    | OpenFailed
    | CloseFailed(stuck: seq<Lease>)

  // What `arm_policy` accepts: the strict form has no exception for the local network and names
  // no interface but its own, the ordinary form names no interface.
  predicate Admissible(engines: bool, allowLan: Option<bool>, tun: Option<string>, strict: bool) {
    var named := tun.Some? && exists i :: 0 <= i < |tun.value| && !IsWhitespace(tun.value[i]);
    && engines
    && (strict ==> allowLan == Some(false) && (named ==> LowerAscii(Trim(tun.value)) == "ninety-tun"))
    && (!strict ==> !named)
  }

  datatype Health = Health(active: bool, version: nat)

  // What fails during one probe: looking up some sessions, and closing some.
  datatype Faults = Faults(unheard: set<Handle>, stuck: set<Handle>)

  // The live sessions that the probe finds.
  function Heard(live: set<Handle>, faults: Faults): set<Handle> { live - faults.unheard }

  // The live sessions that it takes for dead and closes.
  function Taken(live: set<Handle>, faults: Faults): set<Handle> { live * (faults.unheard - faults.stuck) }

  // It finds none, though one of those it takes for dead does not close and goes on blocking.
  predicate Misled(live: set<Handle>, faults: Faults) {
    Heard(live, faults) == {} && live * faults.stuck != {}
  }

  // --- the kill switch --------------------------------------------------------------------------

  class KillSwitchState {
    var leases: seq<Lease>
    var version: nat
    var health: Option<Health>
    const wfp: Wfp

    // Handles are conserved: the sessions open in the engine are exactly the ones held.
    ghost predicate Valid()
      reads this, wfp
    {
      && wfp.Valid() && Distinct(leases) && OneBarrier(leases) && wfp.open == Handles(leases)
      && (health.Some? ==> health.value.version <= version)
    }

    // What a live probe would answer now.
    ghost predicate Protected()
      reads this, wfp
    {
      Handles(leases) * wfp.alive != {}
    }

    // A cached answer that may still be given agrees with a live probe.
    ghost predicate Coherent()
      reads this, wfp
    {
      (health.Some? && health.value.version == version) ==> (health.value.active <==> Protected())
    }

    constructor (wfp: Wfp)
      requires wfp.Valid() && wfp.open == {}
      ensures Valid() && Coherent() && this.wfp == wfp && leases == []
    {
      this.wfp := wfp;
      leases, version, health := [], 0, None;
    }

    method BumpVersion()
      modifies this`version, this`health
      ensures version == old(version) + 1 && health == None
    {
      version, health := version + 1, None;
    }

    // Closes sessions one after another and reports the ones that would not close: those in
    // `stuck`.
    method CloseAll(victims: seq<Lease>, stuck: set<Handle>) returns (left: seq<Lease>)
      requires wfp.Valid() && Distinct(victims) && Handles(victims) <= wfp.open
      modifies wfp
      ensures wfp.Valid() && left == StillOpen(victims, wfp.open)
      ensures wfp.open == old(wfp.open) - (Handles(victims) - stuck)
      ensures wfp.alive == old(wfp.alive) - (Handles(victims) - stuck)
      ensures Through(old(wfp.trace), wfp.trace, AtLeast(old(wfp.alive) - Handles(victims)))
      ensures old(wfp.closed) <= wfp.closed
    {
      left := [];
      ghost var floor := wfp.alive - Handles(victims);
      for i := 0 to |victims|
        invariant wfp.Valid() && old(wfp.closed) <= wfp.closed
        invariant wfp.open == old(wfp.open) - (Handles(victims[..i]) - stuck)
        invariant wfp.alive == old(wfp.alive) - (Handles(victims[..i]) - stuck)
        invariant left == StillOpen(victims[..i], wfp.open)
        invariant Through(old(wfp.trace), wfp.trace, AtLeast(floor))
      {
        var h := victims[i].handle;
        SeenOneMore(victims, i);
        StuckStep(victims, i, wfp.open);
        ghost var before := wfp.trace;
        wfp.Close(h, h in stuck);
        if h in stuck {
          left := left + [victims[i]];
        } else {
          ThroughStep(old(wfp.trace), before, wfp.alive, AtLeast(floor));
        }
      }
      assert victims[..|victims|] == victims;
    }

    method ArmPolicy(engines: bool, allowLan: Option<bool>, tun: Option<string>, strict: Option<bool>,
        builds: bool, stuck: set<Handle>)
        returns (r: Result<(), ArmError>)
      requires Valid()
      modifies this, wfp
      ensures Valid() && Coherent() && health == None && version > old(version) && old(wfp.closed) <= wfp.closed
      ensures r.Ok? || r.error.OpenFailed? || r.error.CloseFailed?
          <==> Admissible(engines, allowLan, tun, strict == Some(true))
      ensures var refusal := Refusal(engines, if allowLan.Some? then allowLan.value else true, tun, strict == Some(true));
              && (refusal.Some? ==> r == Err(refusal.value))
              && (refusal.None? ==> Outcome(r, old(leases), builds, stuck))
      // A failed arm takes nothing away.
      ensures (r.Err? && !r.error.CloseFailed?) ==>
                leases == old(leases) && wfp.open == old(wfp.open) && wfp.alive == old(wfp.alive) && wfp.trace == old(wfp.trace)
      // Otherwise the new session joins the barrier, with the policies that would not close.
      ensures (r.Ok? || r.error.CloseFailed?) ==>
                Replaced(old(leases), old(wfp.open), old(wfp.alive), stuck)
      ensures old(Protected()) ==> Through(old(wfp.trace), wfp.trace, NoGap)
      ensures Through(old(wfp.trace), wfp.trace, AtLeast(old(wfp.alive) - Handles(Policies(old(leases)))))
    {
      var lan := if allowLan.Some? then allowLan.value else true;
      BumpVersion();
      RefusedOrAdmissible(engines, allowLan, tun, strict == Some(true));
      var refusal := Refusal(engines, lan, tun, strict == Some(true));
      if refusal.Some? {
        return Err(refusal.value);
      }
      r := ReplacePolicy(builds, stuck);
    }

    // The answer: whether the session could be built, and which old policies would not close.
    ghost predicate Outcome(r: Result<(), ArmError>, was: seq<Lease>, builds: bool, stuck: set<Handle>) {
      r == if !builds then Err(OpenFailed)
           else if Handles(Policies(was)) * stuck == {} then Ok(())
           else Err(CloseFailed(StillOpen(Policies(was), stuck)))
    }

    // Builds a session beside the ones there are.
    method Open(builds: bool) returns (session: Option<Handle>)
      requires wfp.Valid()
      modifies wfp
      ensures wfp.Valid() && wfp.closed == old(wfp.closed) && (session.Some? <==> builds)
      ensures session.None? ==> wfp.open == old(wfp.open) && wfp.alive == old(wfp.alive) && wfp.trace == old(wfp.trace)
      ensures session.Some? ==>
                && session.value !in old(wfp.open)
                && wfp.open == old(wfp.open) + {session.value} && wfp.alive == old(wfp.alive) + {session.value}
      ensures Through(old(wfp.trace), wfp.trace, NoGap) && Through(old(wfp.trace), wfp.trace, AtLeast(old(wfp.alive)))
    {
      session := wfp.Arm(builds);
      if session.Some? {
        ThroughStep(old(wfp.trace), old(wfp.trace), wfp.alive, NoGap);
        ThroughStep(old(wfp.trace), old(wfp.trace), wfp.alive, AtLeast(old(wfp.alive)));
      }
    }

    // A new session has taken over from the policies of `was`, but for those that would not
    // close.
    ghost predicate Replaced(was: seq<Lease>, wasOpen: set<Handle>, wasAlive: set<Handle>, stuck: set<Handle>)
      reads this, wfp
    {
      && |leases| > |Barriers(was)|
      && var h := leases[|Barriers(was)|].handle;
         && h !in wasOpen && h in wfp.alive
         && leases == Barriers(was) + [Lease(h, false)] + StillOpen(Policies(was), stuck)
         && wfp.open == wasOpen - (Handles(Policies(was)) - stuck) + {h}
         && wfp.alive == wasAlive - (Handles(Policies(was)) - stuck) + {h}
    }

    method ReplacePolicy(builds: bool, stuck: set<Handle>) returns (r: Result<(), ArmError>)
      requires Valid()
      modifies this`leases, wfp
      ensures Valid() && Outcome(r, old(leases), builds, stuck) && old(wfp.closed) <= wfp.closed
      ensures !builds ==>
                leases == old(leases) && wfp.open == old(wfp.open) && wfp.alive == old(wfp.alive) && wfp.trace == old(wfp.trace)
      ensures builds ==> Replaced(old(leases), old(wfp.open), old(wfp.alive), stuck)
      ensures Through(old(wfp.trace), wfp.trace, NoGap) && Through(old(wfp.trace), wfp.trace, AtLeast(old(wfp.alive) - Handles(Policies(old(leases)))))
    {
      var session := Open(builds);
      if session.None? {
        return Err(OpenFailed);
      }
      ghost var armed, live := wfp.trace, wfp.alive;
      ghost var closing := Handles(Policies(leases));
      Partition(leases);
      r := TakeOver(session.value, stuck);
      assert leases[|Barriers(old(leases))|] == Lease(session.value, false);
      AddedApart(old(wfp.open), closing - stuck, session.value);
      AddedApart(old(wfp.alive), closing - stuck, session.value);
      StillAbove(old(wfp.trace), armed, wfp.trace, old(wfp.alive), closing, live - closing, session.value);
    }

    // The session just opened takes over.
    method TakeOver(h: Handle, stuck: set<Handle>) returns (r: Result<(), ArmError>)
      requires wfp.Valid() && Distinct(leases) && OneBarrier(leases) && (health.Some? ==> health.value.version <= version)
      requires h !in Handles(leases) && h in wfp.alive && wfp.open == Handles(leases) + {h}
      modifies this`leases, wfp
      ensures Valid() && Outcome(r, old(leases), true, stuck) && old(wfp.closed) <= wfp.closed
      ensures leases == Barriers(old(leases)) + [Lease(h, false)] + StillOpen(Policies(old(leases)), stuck)
      ensures wfp.open == old(wfp.open) - (Handles(Policies(old(leases))) - stuck)
      ensures wfp.alive == old(wfp.alive) - (Handles(Policies(old(leases))) - stuck)
      ensures Through(old(wfp.trace), wfp.trace, AtLeast(old(wfp.alive) - Handles(Policies(old(leases)))))
    {
      ghost var was := leases;
      var lease := Lease(h, false);
      var previous := Policies(leases);
      leases := Barriers(leases) + [lease];
      Partition(was);
      var left := CloseAll(previous, stuck);
      leases := leases + left;
      Reassembled(was, lease, wfp.open);
      OpenMeansStuck(previous, wfp.open, stuck);
      r := if left != [] then Err(CloseFailed(left)) else Ok(());
    }

    method TransitionArm(engines: bool, builds: bool) returns (r: Result<(), ArmError>)
      requires Valid()
      modifies this, wfp
      ensures Valid() && Coherent() && health == None && version > old(version) && wfp.closed == old(wfp.closed)
      ensures r == if Barriers(old(leases)) != [] then Ok(())
                   else if !engines then Err(EngineMissing)
                   else if !builds then Err(OpenFailed)
                   else Ok(())
      ensures r.Ok? ==> Barriers(leases) != []
      ensures (r.Err? || Barriers(old(leases)) != []) ==>
                leases == old(leases) && wfp.open == old(wfp.open) && wfp.alive == old(wfp.alive) && wfp.trace == old(wfp.trace)
      ensures (r.Ok? && Barriers(old(leases)) == []) ==>
                && |leases| == |old(leases)| + 1
                && var added := leases[|old(leases)|];
                   && leases == old(leases) + [added] && added.transition && added.handle !in old(wfp.open)
                   && wfp.alive == old(wfp.alive) + {added.handle}
      ensures Through(old(wfp.trace), wfp.trace, NoGap) && Through(old(wfp.trace), wfp.trace, AtLeast(old(wfp.alive)))
    {
      BumpVersion();
      if exists l :: l in leases && l.transition {
        assert Barriers(leases) != [] by {
          var l :| l in leases && l.transition;
          assert l in Barriers(leases);
        }
        return Ok(());
      }
      KeepNone(leases, IsBarrier);
      if !engines {
        return Err(EngineMissing);
      }
      r := AddBarrier(builds);
    }

    method AddBarrier(builds: bool) returns (r: Result<(), ArmError>)
      requires Valid() && Barriers(leases) == []
      modifies this`leases, wfp
      ensures Valid() && (r.Ok? ==> Barriers(leases) != []) && wfp.closed == old(wfp.closed)
      ensures r == if builds then Ok(()) else Err(OpenFailed)
      ensures r.Err? ==>
                leases == old(leases) && wfp.open == old(wfp.open) && wfp.alive == old(wfp.alive) && wfp.trace == old(wfp.trace)
      ensures r.Ok? ==>
                && |leases| == |old(leases)| + 1
                && var added := leases[|old(leases)|];
                   && leases == old(leases) + [added] && added.transition && added.handle !in old(wfp.open)
                   && wfp.alive == old(wfp.alive) + {added.handle}
      ensures Through(old(wfp.trace), wfp.trace, NoGap) && Through(old(wfp.trace), wfp.trace, AtLeast(old(wfp.alive)))
    {
      var session := Open(builds);
      if session.None? {
        return Err(OpenFailed);
      }
      Hold(Lease(session.value, true));
      return Ok(());
    }

    // Takes a barrier session just opened among the leases.
    method Hold(added: Lease)
      requires wfp.Valid() && Distinct(leases) && Barriers(leases) == [] && (health.Some? ==> health.value.version <= version)
      requires added.transition && added.handle !in Handles(leases) && wfp.open == Handles(leases) + {added.handle}
      modifies this`leases
      ensures Valid() && Barriers(leases) != [] && leases == old(leases) + [added]
    {
      ghost var all := leases + [added];
      JoinBarrier(leases, added);
      leases := leases + [added];
      assert leases == all && wfp.open == Handles(all);
    }

    // Releases the barrier and nothing else.
    method TransitionRelease(stuck: set<Handle>) returns (ok: bool)
      requires Valid()
      modifies this, wfp
      ensures Valid() && Coherent() && health == None && version > old(version)
      ensures leases == StillOpen(old(leases), wfp.open)
      ensures wfp.open == old(wfp.open) - (Handles(Barriers(old(leases))) - stuck)
      ensures ok <==> Handles(Barriers(old(leases))) * stuck == {}
      ensures Policies(leases) == Policies(old(leases)) && (ok <==> Barriers(leases) == [])
      ensures wfp.alive == old(wfp.alive) * wfp.open
      ensures Through(old(wfp.trace), wfp.trace, AtLeast(old(wfp.alive) - Handles(Barriers(old(leases)))))
    {
      BumpVersion();
      ok := ReleaseLocked(stuck);
    }

    // The part of `transition_release` under the lock.
    method ReleaseLocked(stuck: set<Handle>) returns (ok: bool)
      requires Valid()
      modifies this`leases, wfp
      ensures Valid() && leases == StillOpen(old(leases), wfp.open)
      ensures wfp.open == old(wfp.open) - (Handles(Barriers(old(leases))) - stuck)
      ensures ok <==> Handles(Barriers(old(leases))) * stuck == {}
      ensures Policies(leases) == Policies(old(leases)) && (ok <==> Barriers(leases) == [])
      ensures wfp.alive == old(wfp.alive) * wfp.open
      ensures Through(old(wfp.trace), wfp.trace, AtLeast(old(wfp.alive) - Handles(Barriers(old(leases)))))
    {
      Partition(leases);
      ok := ReleaseAll(Barriers(leases), stuck);
      Released(old(leases), wfp.open);
      OpenMeansStuck(Barriers(old(leases)), wfp.open, stuck);
    }

    method ReleaseAll(transitions: seq<Lease>, stuck: set<Handle>) returns (ok: bool)
      requires Valid() && Distinct(transitions) && forall l :: l in transitions ==> l in leases
      modifies this`leases, wfp
      ensures wfp.Valid() && leases == StillOpen(old(leases), wfp.open)
      ensures wfp.open == old(wfp.open) - (Handles(transitions) - stuck) && wfp.alive == old(wfp.alive) * wfp.open
      ensures ok <==> Handles(transitions) * stuck == {}
      ensures Through(old(wfp.trace), wfp.trace, AtLeast(old(wfp.alive) - Handles(transitions)))
    {
      KeepAll(leases, In(wfp.open));
      ok := true;
      ghost var floor := wfp.alive - Handles(transitions);
      for i := 0 to |transitions|
        invariant Releasing(old(leases), transitions, i, old(wfp.alive), old(wfp.open), stuck)
        invariant ok <==> Handles(transitions[..i]) * stuck == {}
        invariant Through(old(wfp.trace), wfp.trace, AtLeast(floor))
      {
        ghost var before := wfp.trace;
        var closed := ReleaseOne(transitions[i].handle, stuck, old(leases), transitions, i, old(wfp.alive), old(wfp.open));
        SeenOneMore(transitions, i);
        MeetsOneMore(Handles(transitions[..i]), transitions[i].handle, stuck);
        if closed {
          ThroughStep(old(wfp.trace), before, wfp.alive, AtLeast(floor));
        }
        ok := ok && closed;
      }
      assert transitions[..|transitions|] == transitions;
    }

    // The first `i` of the transitions have been tried.
    ghost predicate Releasing(was: seq<Lease>, transitions: seq<Lease>, i: nat, alive0: set<Handle>, open0: set<Handle>, stuck: set<Handle>)
      reads this, wfp
    {
      && i <= |transitions| && wfp.Valid() && wfp.open == open0 - (Handles(transitions[..i]) - stuck)
      && wfp.alive == alive0 * wfp.open && leases == StillOpen(was, wfp.open)
    }

    // Closes one session and takes its lease out.
    method ReleaseOne(h: Handle, stuck: set<Handle>, ghost was: seq<Lease>, ghost transitions: seq<Lease>, ghost i: nat,
        ghost alive0: set<Handle>, ghost open0: set<Handle>)
        returns (closed: bool)
      requires i < |transitions| && transitions[i].handle == h && Distinct(transitions)
      requires Distinct(was) && open0 == Handles(was) && alive0 <= open0 && Handles(transitions) <= open0
      requires Releasing(was, transitions, i, alive0, open0, stuck)
      modifies this`leases, wfp
      ensures Releasing(was, transitions, i + 1, alive0, open0, stuck) && (closed <==> h !in stuck)
      ensures if closed then wfp.trace == old(wfp.trace) + [wfp.alive] && alive0 - Handles(transitions) <= wfp.alive
              else wfp.trace == old(wfp.trace)
    {
      SeenOneMore(transitions, i);
      SomeSeen(transitions, i + 1);
      wfp.Close(h, h in stuck);
      closed := h !in stuck;
      if closed {
        HandlesLeft(was, old(wfp.open));
        var at := Position(leases, h);
        KeepWithout(was, old(wfp.open), at.value);
        leases := leases[..at.value] + leases[at.value + 1..];
      }
    }

    method DisarmPolicy(stuck: set<Handle>) returns (ok: bool)
      requires Valid()
      modifies this, wfp
      ensures Valid() && Coherent() && health == None && version > old(version)
      ensures wfp.open == old(wfp.open) * stuck && wfp.alive == old(wfp.alive) * stuck
      ensures leases == StillOpen(old(leases), stuck)
      ensures ok <==> Handles(old(leases)) * stuck == {}
    {
      BumpVersion();
      ok := DisarmLocked(stuck);
    }

    // The part of `disarm_policy` under the lock.
    method DisarmLocked(stuck: set<Handle>) returns (ok: bool)
      requires Valid()
      modifies this`leases, wfp
      ensures Valid() && wfp.open == old(wfp.open) * stuck && wfp.alive == old(wfp.alive) * stuck
      ensures leases == StillOpen(old(leases), stuck) && (ok <==> Handles(old(leases)) * stuck == {})
    {
      var drained := leases;
      leases := [];
      var left := CloseAll(drained, stuck);
      leases := leases + left;
      Swept(drained, wfp.open);
      OpenMeansStuck(drained, wfp.open, stuck);
      ok := leases == [];
    }

    // Is any session alive?  The ones not found are dropped if they can be closed: those that
    // are dead, and those alive whose lookup failed.
    method ProbeActive(faults: Faults) returns (active: bool)
      requires Valid()
      modifies this, wfp
      ensures Valid() && Probed(old(leases), old(wfp.alive), old(wfp.closed), old(wfp.trace), faults)
      ensures active <==> Heard(old(wfp.alive), faults) != {}
      ensures (active <==> Protected()) <==> !Misled(old(wfp.alive), faults)
      ensures Protected() <==> Taken(old(wfp.alive), faults) != old(wfp.alive)
      ensures if leases == old(leases) then version == old(version) && health == old(health)
              else version == old(version) + 1 && health == None
    {
      if leases == [] {
        return false;
      }
      var before := |leases|;
      active := DropUnheard(faults);
      RightUnlessMisled(old(wfp.alive), faults);
      KeepShorter(old(leases), In(wfp.open));
      if |leases| != before {
        BumpVersion();
      }
    }

    // The state after a probe: exactly the sessions it found, or could not close, are left, so
    // exactly the taken ones stop blocking.
    ghost predicate Probed(was: seq<Lease>, live: set<Handle>, closed: set<Handle>, trace: seq<set<Handle>>, faults: Faults)
      reads this, wfp
    {
      && wfp.open == Handles(was) * (Heard(live, faults) + faults.stuck)
      && leases == StillOpen(was, wfp.open)
      && wfp.alive == live - Taken(live, faults) && wfp.closed == closed + (Handles(was) - wfp.open)
      && Trail(trace, live, wfp.trace, wfp.alive, wfp.alive)
    }

    method DropUnheard(faults: Faults) returns (active: bool)
      requires Valid()
      modifies this`leases, wfp
      ensures Valid() && Probed(old(leases), old(wfp.alive), old(wfp.closed), old(wfp.trace), faults)
      ensures active <==> Heard(old(wfp.alive), faults) != {}
    {
      var drained := leases;
      ghost var live, left := wfp.alive, wfp.alive - Taken(wfp.alive, faults);
      leases, active := [], false;
      for i := 0 to |drained|
        invariant Sweeping(drained, i, live, old(wfp.closed), faults)
        invariant active <==> Handles(drained[..i]) * Heard(live, faults) != {}
        invariant Trail(old(wfp.trace), live, wfp.trace, wfp.alive, left)
      {
        ghost var before, was := wfp.trace, wfp.alive;
        var found := SweepOne(drained, i, live, old(wfp.closed), faults);
        TrailStep(old(wfp.trace), live, before, was, wfp.alive, left);
        SeenOneMore(drained, i);
        MeetsOneMore(Handles(drained[..i]), drained[i].handle, Heard(live, faults));
        active := active || found;
      }
      SweepDone(drained, live, old(wfp.closed), old(wfp.trace), faults, active);
    }

    lemma SweepDone(drained: seq<Lease>, live: set<Handle>, closed: set<Handle>, trace: seq<set<Handle>>, faults: Faults, active: bool)
      requires Distinct(drained) && OneBarrier(drained) && (health.Some? ==> health.value.version <= version)
      requires Sweeping(drained, |drained|, live, closed, faults)
      requires active <==> Handles(drained[..|drained|]) * Heard(live, faults) != {}
      requires Trail(trace, live, wfp.trace, wfp.alive, live - Taken(live, faults))
      ensures Valid() && Probed(drained, live, closed, trace, faults)
      ensures active <==> Heard(live, faults) != {}
    {
      assert drained[..|drained|] == drained;
      Swept(drained, wfp.open);
      assert live - Taken(live, faults) == wfp.alive;
    }

    // The first `i` of the drained leases have been looked at.
    ghost predicate Sweeping(drained: seq<Lease>, i: nat, live: set<Handle>, closed: set<Handle>, faults: Faults)
      reads this, wfp
    {
      && i <= |drained| && wfp.Valid() && live <= Handles(drained)
      && var seen, left := Handles(drained[..i]), Heard(live, faults) + faults.stuck;
         && wfp.open == Handles(drained) - (seen - left)
         && wfp.alive == live - (seen - left) && wfp.closed == closed + (seen - left)
         && leases == StillOpen(drained[..i], wfp.open)
    }

    // Keeps a lease whose session is found, or will not close.
    method SweepOne(drained: seq<Lease>, i: nat, ghost live: set<Handle>, ghost closed: set<Handle>, faults: Faults)
        returns (found: bool)
      requires Distinct(drained) && i < |drained| && Sweeping(drained, i, live, closed, faults)
      modifies this`leases, wfp
      ensures Sweeping(drained, i + 1, live, closed, faults) && (found <==> drained[i].handle in Heard(live, faults))
      ensures wfp.trace == old(wfp.trace) + (if wfp.open == old(wfp.open) then [] else [wfp.alive])
      ensures wfp.open == old(wfp.open) ==> wfp.alive == old(wfp.alive)
      ensures live - Taken(live, faults) <= wfp.alive
    {
      var h := drained[i].handle;
      SeenOneMore(drained, i);
      StuckStep(drained, i, wfp.open);
      found := wfp.SessionAlive(h, h in faults.unheard);
      assert found <==> h in Heard(live, faults);
      var closes := false;
      if !found {
        wfp.Close(h, h in faults.stuck);
        closes := h !in faults.stuck;
      }
      if !closes {
        leases := leases + [drained[i]];
      }
    }

    // Keeps an answer, unless the leases changed since `asked`.
    method StoreHealth(active: bool, asked: nat)
      modifies this`health
      ensures health == if version == asked then Some(Health(active, asked)) else old(health)
    {
      if version == asked {
        health := Some(Health(active, asked));
      }
    }

    // Would an answer be taken from the cache?
    predicate Cached(expired: bool)
      reads this
    {
      health.Some? && health.value.version == version && !expired
    }

    // `expired`: whether a cached answer is too old to be given.
    method IsActive(expired: bool, faults: Faults) returns (active: bool)
      requires Valid()
      modifies this, wfp
      ensures Valid()
      // From the cache, the answer is right if the cache is coherent, and nothing changes.
      ensures old(Cached(expired)) ==>
                && active == old(health).value.active
                && leases == old(leases) && wfp.alive == old(wfp.alive) && wfp.trace == old(wfp.trace)
                && wfp.closed == old(wfp.closed) && version == old(version) && health == old(health)
                && (old(Coherent()) ==> Coherent() && (active <==> Protected()))
      // Otherwise it is right exactly if the probe is not misled, and a wrong one stays in the
      // cache exactly if the probe dropped nothing.
      ensures !old(Cached(expired)) ==>
                && Probed(old(leases), old(wfp.alive), old(wfp.closed), old(wfp.trace), faults)
                && (active <==> Heard(old(wfp.alive), faults) != {})
                && ((active <==> Protected()) <==> !Misled(old(wfp.alive), faults))
                && (Coherent() <==> (Misled(old(wfp.alive), faults) ==> leases != old(leases)))
                && if leases == old(leases) then version == old(version) && health == Some(Health(active, version))
                   else health == None
    {
      var asked := version;
      if health.Some? && health.value.version == asked && !expired {
        return health.value.active;
      }
      active := ProbeActive(faults);
      StoreHealth(active, asked);
    }

    // At exit: every session is closed as far as it will close, and then forgotten.
    method ForceDisarm(stuck: set<Handle>)
      requires Valid()
      modifies this, wfp
      ensures wfp.Valid() && Coherent() && leases == []
      ensures wfp.open == old(wfp.open) * stuck && wfp.alive == old(wfp.alive) * stuck
    {
      BumpVersion();
      var drained := leases;
      leases := [];
      var _ := CloseAll(drained, stuck);
    }
  }

  // The place of a session among the leases.
  function Position(leases: seq<Lease>, h: Handle): (at: Option<nat>)
    ensures at.Some? ==> at.value < |leases| && leases[at.value].handle == h
    ensures at.None? ==> h !in Handles(leases)
  {
    if leases == [] then None
    else
      var n := |leases| - 1;
      var before := Position(leases[..n], h);
      if before.Some? then before
      else if leases[n].handle == h then
        Some(n)
      else
        assert leases == leases[..n] + [leases[n]];
        None
  }

  lemma KeepCommutes(leases: seq<Lease>, p: Lease -> bool, q: Lease -> bool)
    ensures Keep(Keep(leases, p), q) == Keep(Keep(leases, q), p)
  {
    KeepBoth(leases, p, q);
    KeepBoth(leases, q, p);
    KeepSame(leases, Both(p, q), Both(q, p));
  }

  function Both(p: Lease -> bool, q: Lease -> bool): Lease -> bool {
    l => p(l) && q(l)
  }

  lemma {:induction false} KeepBoth(leases: seq<Lease>, p: Lease -> bool, q: Lease -> bool)
    ensures Keep(Keep(leases, p), q) == Keep(leases, Both(p, q))
    decreases |leases|
  {
    if leases != [] {
      var init, last := leases[..|leases| - 1], leases[|leases| - 1];
      KeepBoth(init, p, q);
      if p(last) {
        KeepOneMore(Keep(init, p), last, q);
        assert Keep(leases, p) == Keep(init, p) + [last];
      } else {
        assert Keep(leases, p) == Keep(init, p);
      }
    }
  }

  lemma KeepOneMore(leases: seq<Lease>, last: Lease, test: Lease -> bool)
    ensures Keep(leases + [last], test) == Keep(leases, test) + if test(last) then [last] else []
  {
    assert (leases + [last])[..|leases|] == leases;
  }

  lemma {:induction false} KeepShorter(leases: seq<Lease>, test: Lease -> bool)
    ensures |Keep(leases, test)| <= |leases|
    ensures |Keep(leases, test)| == |leases| ==> Keep(leases, test) == leases
    decreases |leases|
  {
    if leases != [] {
      var init, last := leases[..|leases| - 1], leases[|leases| - 1];
      assert leases == init + [last];
      KeepShorter(init, test);
    }
  }

  lemma HandlesLeft(leases: seq<Lease>, open: set<Handle>)
    requires open <= Handles(leases)
    ensures Handles(StillOpen(leases, open)) == open
  {
    forall h | h in open
      ensures h in Handles(StillOpen(leases, open))
    {
      var l :| l in leases && l.handle == h;
      assert l in StillOpen(leases, open);
    }
  }

  // What blocks after a probe, and what it answers.
  lemma RightUnlessMisled(live: set<Handle>, faults: Faults)
    ensures var left := live - Taken(live, faults);
            && (left == {} <==> Taken(live, faults) == live)
            && ((Heard(live, faults) != {} <==> left != {}) <==> !Misled(live, faults))
  {
    var left := live - Taken(live, faults);
    if left == {} {
      forall h | h in live
        ensures h in Taken(live, faults)
      {
        assert h !in left;
      }
    }
    if h :| h in Heard(live, faults) {
      assert h in left;
    } else {
      forall h | h in live
        ensures h in left <==> h in faults.stuck
      {
        assert h !in Heard(live, faults);
      }
      assert left == live * faults.stuck;
    }
  }

  lemma AddedApart(open: set<Handle>, gone: set<Handle>, h: Handle)
    requires h !in gone
    ensures open + {h} - gone == open - gone + {h}
  {
  }

  lemma SomeSeen(leases: seq<Lease>, i: nat)
    requires i <= |leases|
    ensures Handles(leases[..i]) <= Handles(leases)
  {
  }

  // What is left of some sessions, when all but the stuck ones have been closed.
  lemma OpenMeansStuck(victims: seq<Lease>, open: set<Handle>, stuck: set<Handle>)
    requires forall h :: h in Handles(victims) ==> (h in open <==> h in stuck)
    ensures StillOpen(victims, open) == StillOpen(victims, stuck)
    ensures StillOpen(victims, stuck) == [] <==> Handles(victims) * stuck == {}
  {
    assert forall l :: l in victims ==> l.handle in Handles(victims);
    KeepSame(victims, In(open), In(stuck));
    var left := StillOpen(victims, stuck);
    assert left != [] ==> left[0] in left && left[0].handle in Handles(victims) * stuck;
    if h :| h in Handles(victims) * stuck {
      var l :| l in victims && l.handle == h;
      assert l in left;
    }
  }

  lemma MeetsOneMore(seen: set<Handle>, h: Handle, heard: set<Handle>)
    ensures (seen + {h}) * heard != {} <==> seen * heard != {} || h in heard
  {
    if h in heard {
      assert h in (seen + {h}) * heard;
    } else {
      assert (seen + {h}) * heard == seen * heard;
    }
  }

  lemma SeenOneMore(leases: seq<Lease>, i: nat)
    requires Distinct(leases) && i < |leases|
    ensures Handles(leases[..i + 1]) == Handles(leases[..i]) + {leases[i].handle}
    ensures leases[i].handle !in Handles(leases[..i]) && leases[i].handle in Handles(leases)
  {
    assert leases[..i + 1] == leases[..i] + [leases[i]];
    HandlesOn(leases[..i], leases[i]);
    assert leases[i] in leases;
  }

  // What is left when some sessions are closed.
  lemma Swept(was: seq<Lease>, open: set<Handle>)
    requires Distinct(was) && OneBarrier(was) && open <= Handles(was)
    ensures var now := StillOpen(was, open);
            Distinct(now) && OneBarrier(now) && Handles(now) == open
  {
    KeepDistinct(was, In(open));
    HandlesLeft(was, open);
  }

  // What is left when some barriers are closed.
  lemma Released(was: seq<Lease>, open: set<Handle>)
    requires Distinct(was) && OneBarrier(was)
    requires Handles(Policies(was)) <= open <= Handles(was)
    ensures var now := StillOpen(was, open);
            && Distinct(now) && OneBarrier(now) && Handles(now) == open
            && Policies(now) == Policies(was) && Barriers(now) == StillOpen(Barriers(was), open)
  {
    Swept(was, open);
    KeepCommutes(was, In(open), IsPolicy);
    KeepCommutes(was, In(open), IsBarrier);
    forall l | l in Policies(was)
      ensures In(open)(l)
    {
      assert l.handle in Handles(Policies(was));
    }
    KeepAll(Policies(was), In(open));
  }

  lemma {:induction false} KeepNone(leases: seq<Lease>, test: Lease -> bool)
    requires forall l :: l in leases ==> !test(l)
    ensures Keep(leases, test) == []
    decreases |leases|
  {
    if leases != [] {
      KeepNone(leases[..|leases| - 1], test);
    }
  }

  lemma {:induction false} KeepAll(leases: seq<Lease>, test: Lease -> bool)
    requires forall l :: l in leases ==> test(l)
    ensures Keep(leases, test) == leases
    decreases |leases|
  {
    if leases != [] {
      var init, last := leases[..|leases| - 1], leases[|leases| - 1];
      assert leases == init + [last];
      assert forall l :: l in init ==> l in leases;
      KeepAll(init, test);
    }
  }

  // The checks of `arm_policy`, in its order.
  function Refusal(engines: bool, lan: bool, tun: Option<string>, strict: bool): Option<ArmError> {
    var alias := if tun.Some? then Trim(tun.value) else "";
    if !engines then Some(EngineMissing)
    else if strict then
      if lan then Some(LanForbidden)
      else if alias != "" && LowerAscii(alias) != "ninety-tun" then Some(UnexpectedTun)
      else None
    else if alias != "" then Some(TunForbidden)
    else None
  }

  lemma RefusedOrAdmissible(engines: bool, allowLan: Option<bool>, tun: Option<string>, strict: bool)
    ensures Refusal(engines, if allowLan.Some? then allowLan.value else true, tun, strict) == None
        <==> Admissible(engines, allowLan, tun, strict)
  {
    if tun.Some? {
      TrimmedAway(tun.value);
    }
  }

  lemma TrimmedAway(s: string)
    ensures Trim(s) == "" <==> forall i :: 0 <= i < |s| ==> IsWhitespace(s[i])
  {
    TrimEndAway(s);
    TrimStartAway(TrimEnd(s));
  }

  lemma {:induction false} TrimEndAway(s: string)
    ensures TrimEnd(s) == "" <==> forall i :: 0 <= i < |s| ==> IsWhitespace(s[i])
  {
    if s != "" && IsWhitespace(s[|s| - 1]) {
      TrimEndAway(s[..|s| - 1]);
    }
  }

  lemma {:induction false} TrimStartAway(s: string)
    ensures TrimStart(s) == "" <==> forall i :: 0 <= i < |s| ==> IsWhitespace(s[i])
  {
    if s != "" && IsWhitespace(s[0]) {
      TrimStartAway(s[1..]);
    }
  }

  // Barriers and policies share no session and leave none out.
  lemma Partition(leases: seq<Lease>)
    requires Distinct(leases)
    ensures Distinct(Barriers(leases)) && Distinct(Policies(leases))
    ensures OneBarrier(leases) ==> OneBarrier(Barriers(leases))
    ensures Handles(leases) == Handles(Barriers(leases)) + Handles(Policies(leases))
    ensures Handles(Barriers(leases)) !! Handles(Policies(leases))
  {
    KeepDistinct(leases, IsBarrier);
    KeepDistinct(leases, IsPolicy);
  }

  lemma Joined(a: seq<Lease>, b: seq<Lease>)
    requires Distinct(a) && Distinct(b) && Handles(a) !! Handles(b)
    requires OneBarrier(a) && OneBarrier(b)
    requires (forall l :: l in a ==> !l.transition) || (forall l :: l in b ==> !l.transition)
    ensures Distinct(a + b) && OneBarrier(a + b) && Handles(a + b) == Handles(a) + Handles(b)
  {
    assert forall l :: l in a ==> l.handle in Handles(a);
    assert forall l :: l in b ==> l.handle in Handles(b);
    assert forall l :: l in a + b <==> l in a || l in b;
  }

  // Opening a session and then closing some others never goes below what was not to be closed,
  // nor leaves a moment without the new one.
  lemma StillAbove(t0: seq<set<Handle>>, t1: seq<set<Handle>>, t2: seq<set<Handle>>,
                   alive: set<Handle>, closing: set<Handle>, floor: set<Handle>, session: Handle)
    requires Through(t0, t1, NoGap) && Through(t0, t1, AtLeast(alive)) && Through(t1, t2, AtLeast(floor))
    requires session in floor && alive - closing <= floor
    ensures Through(t0, t2, NoGap) && Through(t0, t2, AtLeast(alive - closing))
  {
    ThroughChain(t0, t1, t2, NoGap, AtLeast(floor), NoGap);
    ThroughChain(t0, t1, t2, AtLeast(alive), AtLeast(floor), AtLeast(alive - closing));
  }

  lemma JoinBarrier(leases: seq<Lease>, added: Lease)
    requires Distinct(leases) && Barriers(leases) == [] && added.transition && added.handle !in Handles(leases)
    ensures var all := leases + [added];
            Distinct(all) && OneBarrier(all) && Handles(all) == Handles(leases) + {added.handle} && Barriers(all) != []
  {
    NoneIsBarrier(leases);
    assert forall l :: l in leases ==> l.handle in Handles(leases);
    ApartFrom(leases, added);
    KeepOneMore(leases, added, IsBarrier);
    HandlesOn(leases, added);
  }

  lemma NoneIsBarrier(leases: seq<Lease>)
    requires Barriers(leases) == []
    ensures OneBarrier(leases) && forall l :: l in leases ==> !l.transition
  {
    forall l | l in leases
      ensures !l.transition
    {
      assert l !in Barriers(leases);
    }
  }

  lemma HandlesOn(leases: seq<Lease>, added: Lease)
    ensures Handles(leases + [added]) == Handles(leases) + {added.handle}
  {
    assert forall l :: l in leases + [added] <==> l in leases || l == added;
  }

  lemma Reassembled(was: seq<Lease>, lease: Lease, open: set<Handle>)
    requires Distinct(was) && OneBarrier(was) && lease.handle !in Handles(was) && !lease.transition
    requires lease.handle in open && Handles(Barriers(was)) <= open
    requires open <= Handles(was) + {lease.handle}
    ensures var now := Barriers(was) + [lease] + StillOpen(Policies(was), open);
            Distinct(now) && OneBarrier(now) && Handles(now) == open
  {
    Partition(was);
    var stuck := StillOpen(Policies(was), open);
    KeepDistinct(Policies(was), In(open));
    Joined(Barriers(was), [lease]);
    Joined(Barriers(was) + [lease], stuck);
    forall h | h in open && h in Handles(Policies(was))
      ensures h in Handles(stuck)
    {
      var l :| l in Policies(was) && l.handle == h;
      assert l in stuck;
    }
  }

  lemma {:induction false} StuckStep(victims: seq<Lease>, i: nat, open: set<Handle>)
    requires Distinct(victims) && i < |victims| && victims[i].handle in open
    ensures StillOpen(victims[..i + 1], open) == StillOpen(victims[..i], open) + [victims[i]]
    ensures StillOpen(victims[..i + 1], open - {victims[i].handle}) == StillOpen(victims[..i], open)
  {
    var init := victims[..i];
    assert victims[..i + 1][..i] == init;
    assert forall l :: l in init ==> l.handle != victims[i].handle;
    KeepSame(init, In(open), In(open - {victims[i].handle}));
  }
}
