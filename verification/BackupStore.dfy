/**
  The files behind the state backup, `src-tauri/src/backup.rs`: a save rotates the previous
  snapshot into `.bak`, a load takes the first readable file.  A save is a sequence of file
  operations; each may fail, and the process may die between any two.
 */
module BackupStore {
  import opened Common

  // What a file holds: a snapshot that opens and validates, or anything else.
  datatype Content<+S> = Snapshot(id: S) | Unreadable

  datatype Disk<+S> = Disk(
    primary: Option<Content<S>>,
    bak: Option<Content<S>>,
    tmp: Option<Content<S>>,
    legacy: Option<Content<S>>)

  function ReadSnapshot<S>(file: Option<Content<S>>): Option<S> {
    if file.Some? && file.value.Snapshot? then Some(file.value.id) else None
  }

  function Or<S>(a: Option<S>, b: Option<S>): Option<S> {
    if a.Some? then a else b
  }

  // state_backup_load: primary, else `.bak`, else the rollback copy of the migration.
  function Load<S>(d: Disk<S>): Option<S> {
    Or(Or(ReadSnapshot(d.primary), ReadSnapshot(d.bak)), ReadSnapshot(d.legacy))
  }

  // The next file operation of a save.
  datatype Pc = CreateTmp | WriteTmp | DropBak | Rotate | Publish | PutBack | Stopped

  function AfterTmp<S>(d: Disk<S>): Pc {
    if d.primary.None? then Publish else if d.bak.Some? then DropBak else Rotate
  }

  // One file operation, succeeding or failing; a failed rename or removal changes nothing.
  function SaveStep<S>(pc: Pc, d: Disk<S>, id: S, ok: bool): (Pc, Disk<S>) {
    match pc
    case CreateTmp => if ok then (WriteTmp, d.(tmp := Some(Unreadable))) else (Stopped, d)
    case WriteTmp => if ok then (AfterTmp(d), d.(tmp := Some(Snapshot(id)))) else (Stopped, d)
    case DropBak => if ok then (Rotate, d.(bak := None)) else (Stopped, d)
    case Rotate => if ok then (Publish, d.(primary := None, bak := d.primary)) else (Stopped, d)
    case Publish =>
      if ok then (Stopped, d.(primary := d.tmp, tmp := None))
      else if d.bak.Some? && d.primary.None? then (PutBack, d)
      else (Stopped, d)
    case PutBack => if ok then (Stopped, d.(primary := d.bak, bak := None)) else (Stopped, d)
    case Stopped => (Stopped, d)
  }

  // The disk after some operations; a crash is a sequence that ends early.
  function After<S>(pc: Pc, d: Disk<S>, id: S, answers: seq<bool>): Disk<S>
    decreases answers
  {
    if answers == [] then d
    else
      var (pc', d') := SaveStep(pc, d, id, answers[0]);
      After(pc', d', id, answers[1..])
  }

  function Saved<S>(d: Disk<S>, id: S, answers: seq<bool>): Disk<S> {
    After(CreateTmp, d, id, answers)
  }

  // A save may lose what was there in one situation only: rotation throws away a good `.bak`
  // to make room for a primary that cannot be read.
  predicate Intact<S(==)>(d: Disk<S>) {
    (d.primary.Some? && ReadSnapshot(d.primary).None? && ReadSnapshot(d.bak).Some?) ==>
      ReadSnapshot(d.legacy) == ReadSnapshot(d.bak)
  }

  // What holds at each operation of a save that started on `before`.
  predicate Midway<S(==)>(pc: Pc, d: Disk<S>, before: Disk<S>, id: S) {
    && Intact(d) && Load(d) in [Some(id), Load(before)]
    && (pc in [CreateTmp, WriteTmp] ==> Load(d) == Load(before))
    && (pc in [Rotate, DropBak] ==> d.primary.Some? && Load(d) == Load(before))
    && (pc == Rotate ==> d.bak.None?)
    && (pc in [DropBak, Rotate, Publish] ==> d.tmp == Some(Snapshot(id)))
    && (pc in [Publish, PutBack] ==> d.primary.None? && Load(d) == Load(before))
  }

  lemma StepKeepsMidway<S>(pc: Pc, d: Disk<S>, before: Disk<S>, id: S, ok: bool)
    requires Midway(pc, d, before, id)
    ensures var (pc', d') := SaveStep(pc, d, id, ok); Midway(pc', d', before, id)
  {
  }

  lemma {:induction false} SaveKeepsMidway<S>(pc: Pc, d: Disk<S>, before: Disk<S>, id: S, answers: seq<bool>)
    requires Midway(pc, d, before, id)
    ensures Intact(After(pc, d, id, answers)) && Load(After(pc, d, id, answers)) in [Some(id), Load(before)]
    decreases answers
  {
    if answers != [] {
      StepKeepsMidway(pc, d, before, id, answers[0]);
      var (pc', d') := SaveStep(pc, d, id, answers[0]);
      SaveKeepsMidway(pc', d', before, id, answers[1..]);
    }
  }

  // From an intact disk a save may fail or be cut short anywhere: a load then returns the new
  // snapshot or what it would have returned before, and the disk is intact again.
  lemma SaveIsCrashSafe<S>(d: Disk<S>, id: S, answers: seq<bool>)
    requires Intact(d)
    ensures Load(Saved(d, id, answers)) in [Some(id), Load(d)]
    ensures Intact(Saved(d, id, answers))
  {
    SaveKeepsMidway(CreateTmp, d, d, id, answers);
  }

  // The only other disks do lose the snapshot: cut short right after `.bak` is removed, a save
  // leaves neither the new snapshot nor the old one.
  lemma OtherwiseACrashLosesTheSnapshot<S>(d: Disk<S>, id: S)
    requires !Intact(d) && Some(id) != ReadSnapshot(d.legacy)
    ensures Load(Saved(d, id, [true, true, true])) !in [Some(id), Load(d)]
  {
    var d1 := d.(tmp := Some(Unreadable));
    var d2 := d.(tmp := Some(Snapshot(id)));
    assert [true, true, true][1..] == [true, true] && [true, true][1..] == [true] && [true][1..] == [];
    assert After(DropBak, d2, id, [true]) == d2.(bak := None);
    assert After(WriteTmp, d1, id, [true, true]) == d2.(bak := None);
  }

  // Exactly the intact disks are safe for every snapshot that is not the rollback copy itself.
  lemma CrashSafeExactlyWhenIntact<S(!new)>(d: Disk<S>, fresh': S)
    requires Some(fresh') != ReadSnapshot(d.legacy)
    ensures Intact(d) <==>
            forall id: S, answers: seq<bool> :: Load(Saved(d, id, answers)) in [Some(id), Load(d)]
  {
    if Intact(d) {
      forall id: S, answers: seq<bool> ensures Load(Saved(d, id, answers)) in [Some(id), Load(d)] {
        SaveIsCrashSafe(d, id, answers);
      }
    } else {
      OtherwiseACrashLosesTheSnapshot(d, fresh');
    }
  }

  // Left alone, a save publishes the snapshot and keeps the previous primary as `.bak`.
  lemma SaveWithoutFaults<S>(d: Disk<S>, id: S)
    ensures var n := if d.primary.None? then 3 else if d.bak.None? then 4 else 5;
            Saved(d, id, seq(n, _ => true)) ==
              d.(primary := Some(Snapshot(id)), bak := if d.primary.Some? then d.primary else d.bak, tmp := None)
  {
    var n := if d.primary.None? then 3 else if d.bak.None? then 4 else 5;
    var d1 := d.(tmp := Some(Unreadable));
    var d2 := d.(tmp := Some(Snapshot(id)));
    AllGood(CreateTmp, d, id, n);
    AllGood(WriteTmp, d1, id, n - 1);
    AllGood(AfterTmp(d), d2, id, n - 2);
    if d.primary.Some? && d.bak.Some? {
      AllGood(Rotate, d2.(bak := None), id, 2);
    }
    if d.primary.Some? {
      AllGood(Publish, d2.(primary := None, bak := d.primary), id, 1);
    }
  }

  lemma AllGood<S>(pc: Pc, d: Disk<S>, id: S, n: nat)
    requires n > 0
    ensures var (pc', d') := SaveStep(pc, d, id, true);
            After(pc, d, id, seq(n, _ => true)) == After(pc', d', id, seq(n - 1, _ => true))
  {
    assert seq(n, _ => true)[1..] == seq(n - 1, _ => true);
  }

  ghost predicate Holds<S>(d: Disk<S>, id: S) {
    var file := Some(Snapshot(id));
    d.primary == file || d.bak == file || d.tmp == file || d.legacy == file
  }

  // A save invents nothing: every snapshot on the disk afterwards was there before or is the
  // one being saved.
  lemma {:induction false} SaveOnlyMoves<S>(pc: Pc, d: Disk<S>, id: S, answers: seq<bool>, x: S)
    requires Holds(After(pc, d, id, answers), x)
    ensures Holds(d, x) || x == id
    decreases answers
  {
    if answers != [] {
      var (pc', d') := SaveStep(pc, d, id, answers[0]);
      SaveOnlyMoves(pc', d', id, answers[1..], x);
    }
  }

  // The readable file that comes first in the order primary, `.bak`, rollback copy is loaded, and
  // the temporary file never.
  lemma LoadMeans<S>(d: Disk<S>, id: S)
    ensures Load(d) == Some(id) <==>
            || d.primary == Some(Snapshot(id))
            || (d.primary in {None, Some(Unreadable)}
                && (d.bak == Some(Snapshot(id)) || (d.bak in {None, Some(Unreadable)} && d.legacy == Some(Snapshot(id)))))
  {
  }

  // The files a clear removes, in its order: the first `n` of them are gone.
  function Remove<S>(d: Disk<S>, n: nat): Disk<S> {
    Disk(if n > 0 then None else d.primary,
         if n > 1 then None else d.bak,
         if n > 2 then None else d.tmp,
         if n > 3 then None else d.legacy)
  }

  function There<S>(file: Option<Content<S>>): nat { if file.Some? then 1 else 0 }

  // --- the save as it is written ---------------------------------------------------------------

  class Store<S> {
    var primary: Option<Content<S>>
    var bak: Option<Content<S>>
    var tmp: Option<Content<S>>
    var legacy: Option<Content<S>>

    constructor (d: Disk<S>)
      ensures Files() == d
    {
      primary, bak, tmp, legacy := d.primary, d.bak, d.tmp, d.legacy;
    }

    ghost function Files(): Disk<S>
      reads this
    {
      Disk(primary, bak, tmp, legacy)
    }

    // The locked part of state_backup_save_blocking.  `answers` are the results of its file
    // operations in order; when they run out the process has died.
    method Save(id: S, answers: seq<bool>) returns (ok: bool)
      modifies this
      ensures Files() == Saved(old(Files()), id, answers)
      ensures ok ==> primary == Some(Snapshot(id))
      ensures |answers| >= 5 && false !in answers ==> ok
    {
      ok := false;
      if answers == [] { return; }
      if !answers[0] { StoppedStays(Files(), id, answers[1..]); return; }
      tmp := Some(Unreadable);
      var rest := answers[1..];
      assert Saved(old(Files()), id, answers) == After(WriteTmp, Files(), id, rest);
      if rest == [] { return; }
      if !rest[0] { StoppedStays(Files(), id, rest[1..]); return; }
      tmp := Some(Snapshot(id));
      rest := rest[1..];
      assert Saved(old(Files()), id, answers) == After(AfterTmp(Files()), Files(), id, rest);
      if primary.Some? {
        if bak.Some? {
          if rest == [] { return; }
          if !rest[0] { StoppedStays(Files(), id, rest[1..]); return; }
          bak := None;
          rest := rest[1..];
          assert Saved(old(Files()), id, answers) == After(Rotate, Files(), id, rest);
        }
        if rest == [] { return; }
        if !rest[0] { StoppedStays(Files(), id, rest[1..]); return; }
        primary, bak := None, primary;
        rest := rest[1..];
        assert Saved(old(Files()), id, answers) == After(Publish, Files(), id, rest);
      }
      if rest == [] { return; }
      ok := rest[0];
      rest := rest[1..];
      if ok {
        primary, tmp := tmp, None;
      } else if bak.Some? && primary.None? {
        assert Saved(old(Files()), id, answers) == After(PutBack, Files(), id, rest);
        if rest == [] { return; }
        if rest[0] { primary, bak := bak, None; }
        rest := rest[1..];
      }
      StoppedStays(Files(), id, rest);
    }

    // The locked part of state_backup_clear_blocking; the removal number `failing` fails, if there
    // are so many.  Ok tells how many files there were.
    method Clear(failing: nat) returns (r: Option<nat>)
      modifies this
      ensures Files() == Remove(old(Files()), failing)
      ensures r == if failing < 4 then None
                   else Some(There(old(primary)) + There(old(bak)) + There(old(tmp)) + There(old(legacy)))
    {
      var removed := 0;
      if failing == 0 { return None; }
      if primary.Some? { primary, removed := None, removed + 1; }
      if failing == 1 { return None; }
      if bak.Some? { bak, removed := None, removed + 1; }
      if failing == 2 { return None; }
      if tmp.Some? { tmp, removed := None, removed + 1; }
      if failing == 3 { return None; }
      if legacy.Some? { legacy, removed := None, removed + 1; }
      r := Some(removed);
    }
  }

  lemma {:induction false} StoppedStays<S>(d: Disk<S>, id: S, answers: seq<bool>)
    ensures After(Stopped, d, id, answers) == d
    decreases answers
  {
    if answers != [] {
      StoppedStays(d, id, answers[1..]);
    }
  }
}
