/**
  Saves, loads and clears of the state backup as interleaved commands, `src-tauri/src/backup.rs`.
  A save captures the generation before it waits for the lock; a clear bumps the generation and
  deletes the files under the lock.  The locked sections are atomic; the process may die inside
  one or between them, and a new process starts with generation zero.
 */
module BackupFence {
  import opened Common
  import opened BackupStore

  type Tid = nat

  // A snapshot on disk, marked with the step at which its save captured the generation;
  // earlier processes left marks below zero.
  datatype Stamp = Stamp(json: string, at: int)

  // A save between its capture and the lock.
  datatype Pending = Pending(stamp: Stamp, captured: nat)

  datatype State = State(generation: nat, disk: Disk<Stamp>, pending: map<Tid, Pending>, clock: nat)

  datatype Event =
    | Capture(t: Tid, json: string)              // save enters: generation loaded, JSON accepted
    | RunSave(t: Tid, answers: seq<bool>)        // save's locked section, with its file results
    | DieInSave(t: Tid, answers: seq<bool>)      // the process dies inside it
    | Clear(failing: nat)                        // clear; the removal number `failing` fails
    | DieInClear(removed: nat)
    | Die

  // A clear that removed everything answers Ok.
  predicate ClearsOk(e: Event) {
    e.Clear? && e.failing >= 4
  }

  predicate Enabled(s: State, e: Event) {
    match e
    case Capture(t, _) => t !in s.pending
    case RunSave(t, _) => t in s.pending
    case DieInSave(t, _) => t in s.pending
    case _ => true
  }

  // The save refuses to write when the generation moved on since its capture.
  function SaveUnderLock(s: State, t: Tid, answers: seq<bool>): Disk<Stamp>
    requires t in s.pending
  {
    if s.pending[t].captured != s.generation then s.disk else Saved(s.disk, s.pending[t].stamp, answers)
  }

  function Apply(s: State, e: Event): State
    requires Enabled(s, e)
  {
    var later := s.clock + 1;
    match e
    case Capture(t, json) =>
      s.(pending := s.pending[t := Pending(Stamp(json, s.clock), s.generation)], clock := later)
    case RunSave(t, answers) =>
      s.(disk := SaveUnderLock(s, t, answers), pending := s.pending - {t}, clock := later)
    case DieInSave(t, answers) => State(0, SaveUnderLock(s, t, answers), map[], later)
    case Clear(failing) => s.(generation := s.generation + 1, disk := Remove(s.disk, failing), clock := later)
    case DieInClear(removed) => State(0, Remove(s.disk, removed), map[], later)
    case Die => State(0, s.disk, map[], later)
  }

  // A fresh process on any disk: no snapshot there comes from this run.
  ghost predicate Initial(s: State) {
    s.generation == 0 && s.pending == map[] && s.clock == 0 && forall x :: Holds(s.disk, x) ==> x.at < 0
  }

  ghost predicate CanRun(s: State, es: seq<Event>)
    decreases |es|, 0
  {
    es != [] ==>
      var n := |es| - 1;
      CanRun(s, es[..n]) && Enabled(Reached(s, es[..n]), es[n])
  }

  function Reached(s: State, es: seq<Event>): State
    requires CanRun(s, es)
    decreases |es|, 1
  {
    if es == [] then s
    else
      var n := |es| - 1;
      Apply(Reached(s, es[..n]), es[n])
  }

  // A mark made in this run points at the capture that made it.
  ghost predicate Genuine(x: Stamp, es: seq<Event>) {
    x.at < |es| && (x.at >= 0 ==> es[x.at].Capture? && es[x.at].json == x.json)
  }

  // Captured after every clear that has answered Ok.
  ghost predicate AfterClears(x: Stamp, es: seq<Event>) {
    forall i :: 0 <= i < |es| && ClearsOk(es[i]) ==> i < x.at
  }

  ghost predicate FenceInv(s: State, es: seq<Event>) {
    && s.clock == |es|
    && (forall x :: Holds(s.disk, x) ==> Genuine(x, es) && AfterClears(x, es))
    && (forall t :: t in s.pending ==> Genuine(s.pending[t].stamp, es) && s.pending[t].captured <= s.generation)
    && (forall t :: t in s.pending && !AfterClears(s.pending[t].stamp, es) ==> s.pending[t].captured < s.generation)
  }

  lemma MarksSurvive(x: Stamp, es: seq<Event>, e: Event)
    requires Genuine(x, es)
    ensures Genuine(x, es + [e])
    ensures AfterClears(x, es) && !ClearsOk(e) ==> AfterClears(x, es + [e])
    ensures AfterClears(x, es + [e]) ==> AfterClears(x, es)
  {
    if AfterClears(x, es + [e]) {
      forall i | 0 <= i < |es| && ClearsOk(es[i]) ensures i < x.at { assert (es + [e])[i] == es[i]; }
    }
  }

  // Under the lock a save puts nothing on the disk that was captured before a finished clear.
  lemma SaveRespectsTheFence(s: State, es: seq<Event>, t: Tid, answers: seq<bool>, x: Stamp)
    requires FenceInv(s, es) && t in s.pending && Holds(SaveUnderLock(s, t, answers), x)
    ensures Genuine(x, es) && AfterClears(x, es)
  {
    if s.pending[t].captured == s.generation {
      SaveOnlyMoves(CreateTmp, s.disk, s.pending[t].stamp, answers, x);
    }
  }

  lemma DiskKept(s: State, es: seq<Event>, e: Event, x: Stamp)
    requires FenceInv(s, es) && Enabled(s, e) && Holds(Apply(s, e).disk, x)
    ensures Genuine(x, es + [e]) && AfterClears(x, es + [e])
  {
    match e {
      case RunSave(t, answers) => SaveRespectsTheFence(s, es, t, answers, x);
      case DieInSave(t, answers) => SaveRespectsTheFence(s, es, t, answers, x);
      case _ =>
    }
    MarksSurvive(x, es, e);
  }

  lemma PendingKept(s: State, es: seq<Event>, e: Event, t: Tid)
    requires FenceInv(s, es) && Enabled(s, e) && t in Apply(s, e).pending
    ensures var p := Apply(s, e).pending[t];
            && Genuine(p.stamp, es + [e]) && p.captured <= Apply(s, e).generation
            && (!AfterClears(p.stamp, es + [e]) ==> p.captured < Apply(s, e).generation)
  {
    if e.Capture? && e.t == t {
      assert (es + [e])[|es|] == e;
      assert forall i :: 0 <= i < |es| ==> (es + [e])[i] == es[i];
    } else {
      MarksSurvive(s.pending[t].stamp, es, e);
    }
  }

  lemma {:induction false} FenceHolds(s: State, es: seq<Event>)
    requires Initial(s) && CanRun(s, es)
    ensures FenceInv(Reached(s, es), es)
    decreases |es|
  {
    if es != [] {
      var n := |es| - 1;
      FenceHolds(s, es[..n]);
      var before := Reached(s, es[..n]);
      assert es == es[..n] + [es[n]];
      forall x | Holds(Apply(before, es[n]).disk, x) ensures Genuine(x, es) && AfterClears(x, es) {
        DiskKept(before, es[..n], es[n], x);
      }
      forall t | t in Apply(before, es[n]).pending
        ensures var p := Apply(before, es[n]).pending[t];
                Genuine(p.stamp, es) && p.captured <= Apply(before, es[n]).generation
                && (!AfterClears(p.stamp, es) ==> p.captured < Apply(before, es[n]).generation)
      {
        PendingKept(before, es[..n], es[n], t);
      }
    }
  }

  // No save can bring back what a clear erased: whatever the interleaving, the file errors and
  // the crashes, a snapshot loaded at the end of a run comes from a save of this run that
  // captured its generation, with exactly that text, after every clear that answered Ok.
  lemma ClearedDataStaysGone(s: State, es: seq<Event>, i: nat, x: Stamp)
    requires Initial(s) && CanRun(s, es)
    requires i < |es| && ClearsOk(es[i])
    requires Load(Reached(s, es).disk) == Some(x)
    ensures i < x.at < |es| && es[x.at].Capture? && es[x.at].json == x.json
  {
    FenceHolds(s, es);
    assert Holds(Reached(s, es).disk, x);
  }

  // A clear that answered Ok leaves nothing to load.
  lemma ClearErases(s: State, e: Event)
    requires ClearsOk(e)
    ensures Load(Apply(s, e).disk) == None
  {
  }

  // It answers Ok exactly if it removes whatever there is.
  lemma ClearsOkExactly(failing: nat)
    ensures ClearsOk(Clear(failing)) <==> forall d: Disk<Stamp> :: Remove(d, failing) == Disk(None, None, None, None)
  {
    var full := Disk(Some(Unreadable), Some(Unreadable), Some(Unreadable), Some(Unreadable));
    var after: Disk<Stamp> := Remove(full, failing);
  }

  // And what was captured after the last clear is saved: when the generation is still the one
  // captured and no file operation fails, the next load finds exactly that snapshot.
  lemma CurrentSavesAreLoaded(s: State, t: Tid)
    requires t in s.pending && s.pending[t].captured == s.generation
    ensures var n := if s.disk.primary.None? then 3 else if s.disk.bak.None? then 4 else 5;
            Load(Apply(s, RunSave(t, seq(n, _ => true))).disk) == Some(s.pending[t].stamp)
  {
    SaveWithoutFaults(s.disk, s.pending[t].stamp);
  }

  // An outdated one changes nothing on the disk.
  lemma OutdatedSavesAreDropped(s: State, t: Tid, answers: seq<bool>)
    requires t in s.pending && s.pending[t].captured != s.generation
    ensures Apply(s, RunSave(t, answers)).disk == s.disk
  {
  }
}
