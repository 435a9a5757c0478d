/**
  `dpi_sync_channel` of `src-tauri/src/dpi.rs`: seeding, checks, construction aside, rename, the
  switch of the pointer, and the removal of old generations.
 */
module ChannelSync {
  import opened Common
  import opened Traces
  import opened ChannelFiles
  import opened ChannelCommit

  // The lists in force.
  function Lists(v: View): Files {
    var active := Active(v);
    if active.Ok? && active.value.Some? then v.dirs[active.value.value].files else v.legacy
  }

  // Lists were added to those in force; the rest is untouched.
  ghost predicate Grown(before: View, now: View) {
    && now.pointer == before.pointer
    && match Active(before)
       case Err(_) => now == before
       case Ok(None) => now.dirs == before.dirs
       case Ok(Some(a)) => a in now.dirs && now == before.(dirs := before.dirs[a := now.dirs[a]]) && Extends(before.dirs[a], now.dirs[a])
  }

  ghost function GrownFrom(before: View): View -> bool {
    now => Grown(before, now)
  }

  // A step that adds one list.
  function AddList(v: View, f: File, text: string): View {
    match Active(v)
    case Ok(Some(a)) => v.(dirs := v.dirs[a := v.dirs[a].(files := v.dirs[a].files[f := text])])
    case _ => v.(legacy := v.legacy[f := text])
  }

  lemma AddListGrows(before: View, v: View, f: File, text: string)
    requires Sound(before) && Grown(before, v) && f !in Lists(v) && f.List?
    ensures Active(v) == Active(before)
    ensures Grown(before, AddList(v, f, text)) && Active(AddList(v, f, text)) == Active(before)
    ensures Lists(AddList(v, f, text)) == Lists(v)[f := text]
  {
  }

  method EnsureLists(disk: Disk, shipped: map<ListName, string>) returns (ok: bool)
    requires Sound(disk.view)
    modifies disk
    ensures Grown(old(disk.view), disk.view) && Active(disk.view) == Active(old(disk.view))
    ensures Through(old(disk.trace), disk.trace, GrownFrom(old(disk.view)))
    ensures ok ==> Lists(disk.view) == Lists(old(disk.view)) + Seeds(Lists(old(disk.view)), shipped)
    ensures disk.Ahead() == old(disk.Ahead()) - if ok then 0 else 1
  {
    ghost var first, from, lists := disk.view, disk.trace, Lists(disk.view);
    var seeds := Seeds(Lists(disk.view), shipped);
    ok := AddAll(disk, first, from, lists, seeds);
  }

  method AddAll(disk: Disk, ghost first: View, ghost from: seq<View>, ghost lists: Files, seeds: Files) returns (ok: bool)
    requires Sound(first) && Seeding(disk, first, from) && lists == Lists(disk.view) && seeds.Keys !! lists.Keys
    requires forall f :: f in seeds ==> f.List?
    modifies disk
    ensures Seeding(disk, first, from) && (ok ==> Lists(disk.view) == lists + seeds)
    ensures disk.Ahead() == old(disk.Ahead()) - if ok then 0 else 1
  {
    var todo := seeds.Keys;
    assert seeds - todo == map[] && lists + map[] == lists;
    while todo != {}
      invariant todo <= seeds.Keys && Seeding(disk, first, from) && Lists(disk.view) == lists + (seeds - todo)
      invariant disk.Ahead() == old(disk.Ahead())
      decreases |todo|
    {
      var f :| f in todo;
      ok := disk.Works();
      if !ok {
        return;
      }
      MergeOne(lists, seeds, todo, f);
      EnsureList(disk, first, from, f, seeds[f]);
      todo := todo - {f};
    }
    assert seeds - {} == seeds;
    ok := true;
  }

  lemma MergeOne(lists: Files, seeds: Files, todo: set<File>, f: File)
    requires f in todo && f in seeds && f !in lists
    ensures lists + (seeds - (todo - {f})) == (lists + (seeds - todo))[f := seeds[f]]
    ensures f !in lists + (seeds - todo)
  {
  }

  ghost predicate Seeding(disk: Disk, first: View, from: seq<View>)
    reads disk
  {
    Grown(first, disk.view) && Active(disk.view) == Active(first) && Through(from, disk.trace, GrownFrom(first))
  }

  method EnsureList(disk: Disk, ghost first: View, ghost from: seq<View>, f: File, text: string)
    requires Sound(first) && Seeding(disk, first, from) && f !in Lists(disk.view) && f.List?
    modifies disk`view, disk`trace
    ensures Seeding(disk, first, from) && Lists(disk.view) == Lists(old(disk.view))[f := text]
  {
    ghost var before := disk.trace;
    AddListGrows(first, disk.view, f, text);
    disk.Set(AddList(disk.view, f, text));
    ThroughStep(from, before, disk.view, GrownFrom(first));
  }

  // A directory that may be changed or removed: none that was there before while the pointer is
  // the old one, and after the switch neither the old generation nor the new one.
  ghost predicate Disposable(before: View, name: string, v: View, dir: string) {
    if v.pointer == before.pointer then dir !in before.dirs else dir != name && Active(before) != Ok(Some(dir))
  }

  // A change to one such directory that readers cannot notice.
  lemma SeenBeside(before: View, name: string, built: Generation, v: View, dir: string, now: View)
    requires Seen(before, name, built, v) && SameBut(v, dir, now) && Disposable(before, name, v, dir)
    ensures Seen(before, name, built, now)
  {
  }

  lemma SeenBesides(before: View, name: string, built: Generation, t0: seq<View>, t1: seq<View>, t2: seq<View>, v: View, dir: string)
    requires Through(t0, t1, SeenFrom(before, name, built)) && Through(t1, t2, Besides(v, dir))
    requires Seen(before, name, built, v) && Disposable(before, name, v, dir)
    ensures Through(t0, t2, SeenFrom(before, name, built))
  {
    forall now | SameBut(v, dir, now)
      ensures Seen(before, name, built, now)
    {
      SeenBeside(before, name, built, v, dir, now);
    }
    ThroughChain(t0, t1, t2, SeenFrom(before, name, built), Besides(v, dir), SeenFrom(before, name, built));
  }

  // A fresh name is not the one the pointer has.
  lemma FreshIsNotActive(before: View, name: string)
    requires Sound(before) && IsFresh(before, name)
    ensures before.pointer != Some(PointerText(name))
  {
    TrimPointer(name);
  }

  // What a sync makes the new generation from.
  function PartsFor(before: View, staged: Staged, shipped: map<ListName, string>, fakes: FakeSelection): Parts {
    Parts(staged, Lists(before) + Seeds(Lists(before), shipped),
          ShippedBase(shipped), fakes)
  }

  function ShippedBase(shipped: map<ListName, string>): Option<string> {
    if IpsetBase in shipped then Some(shipped[IpsetBase]) else None
  }

  // Names are made from the clock, the process and a counter, so no directory has one yet.
  ghost predicate IsFresh(v: View, name: string) {
    ValidGenerationName(name) && name !in v.dirs && PendingName(name) !in v.dirs
  }

  // Whatever fails and wherever it stops, readers see the generation they had or the whole of
  // the new one; an error leaves them with the one they had; success gives them the new one.
  // The generation that was active keeps its files throughout, and until the switch, and on every
  // error, so does every directory that was there before.
  method Sync(disk: Disk, staged: Staged, shipped: map<ListName, string>, fakes: FakeSelection, name: string)
      returns (r: Result<(), ()>)
    requires IsFresh(disk.view, name)
    modifies disk
    ensures var built := Built(PartsFor(old(disk.view), staged, shipped, fakes));
            && Syncing(disk, old(disk.view), old(disk.trace), name, built)
            && (r.Ok? ==> Sound(old(disk.view)) && Acceptable(staged) && name in disk.view.dirs && disk.view.dirs[name] == built)
    ensures disk.view.pointer == if r.Ok? then Some(PointerText(name)) else old(disk.view.pointer)
    // It is refused only for a damaged pointer, a bundle that does not pass, or a call that fails.
    ensures r.Err? ==> Active(old(disk.view)).Err? || !Acceptable(staged) || disk.Ahead() < old(disk.Ahead())
    // The local lists in force go over into the new generation.
    ensures r.Ok? ==>
              ListsCarried(Lists(old(disk.view)), if IpsetBase in shipped then Some(shipped[IpsetBase]) else None,
                           IpsetBaseFrom(staged.files[Service(IpsetFile)]), disk.view.dirs[name].files)
    // One failure leaves nothing behind, and none nothing but the new generation and the previous one.
    ensures r.Err? && disk.Ahead() >= old(disk.Ahead()) - 1 ==> disk.view.dirs.Keys == old(disk.view.dirs).Keys
    ensures r.Ok? && disk.Ahead() == old(disk.Ahead()) ==>
              forall dir :: dir in disk.view.dirs ==> dir == name || Active(old(disk.view)) == Ok(Some(dir))
  {
    ghost var before, from := disk.view, disk.trace;
    ghost var built := Built(PartsFor(before, staged, shipped, fakes));
    var active := Active(disk.view);
    NothingHappened(disk, name, built);
    if active.Err? {
      return Err(());
    }
    var ok := SeedLists(disk, shipped, name, built);
    if !ok {
      return Err(());
    }
    ok := CheckStaged(staged);
    if !ok {
      return Err(());
    }
    var parts := Parts(staged, Lists(disk.view), ShippedBase(shipped), fakes);
    assert parts == PartsFor(before, staged, shipped, fakes);
    ok := CommitAndCleanUp(disk, before, from, parts, name, active.value);
    LocalListsAreCarried(parts);
    SeedsCarryNothing(Lists(before), shipped, parts.shippedBase, IpsetBaseFrom(staged.files[Service(IpsetFile)]), Built(parts).files);
    r := if ok then Ok(()) else Err(());
  }

  method CommitAndCleanUp(disk: Disk, ghost before: View, ghost from: seq<View>, parts: Parts, name: string, previous: Option<string>)
      returns (ok: bool)
    requires Active(before) == Ok(previous) && IsFresh(before, name) && Acceptable(parts.staged)
    requires disk.view.dirs.Keys == before.dirs.Keys && disk.view.pointer == before.pointer
    requires Syncing(disk, before, from, name, Built(parts))
    modifies disk
    ensures Syncing(disk, before, from, name, Built(parts))
    ensures disk.view.pointer == if ok then Some(PointerText(name)) else before.pointer
    ensures ok ==> name in disk.view.dirs && disk.view.dirs[name] == Built(parts)
    ensures !ok ==> disk.Ahead() < old(disk.Ahead())
    ensures !ok && disk.Ahead() == old(disk.Ahead()) - 1 ==> disk.view.dirs.Keys == before.dirs.Keys
    ensures ok && disk.Ahead() == old(disk.Ahead()) ==> forall dir :: dir in disk.view.dirs ==> dir == name || previous == Some(dir)
  {
    ok := Commit(disk, before, from, parts, name);
    if ok {
      FreshIsNotActive(before, name);
      Cleanup(disk, before, from, Built(parts), name, previous);
    }
  }

  lemma NothingHappened(disk: Disk, name: string, built: Generation)
    ensures Syncing(disk, disk.view, disk.trace, name, built)
  {
  }

  lemma GrownIsSeen(before: View, name: string, built: Generation)
    requires Sound(before)
    ensures forall now :: Grown(before, now) ==> Seen(before, name, built, now) && now.dirs.Keys == before.dirs.Keys
  {
  }

  method SeedLists(disk: Disk, shipped: map<ListName, string>, ghost name: string, ghost built: Generation) returns (ok: bool)
    requires Sound(disk.view)
    modifies disk
    ensures Syncing(disk, old(disk.view), old(disk.trace), name, built)
    ensures disk.view.pointer == old(disk.view.pointer) && disk.view.dirs.Keys == old(disk.view.dirs).Keys
    ensures ok ==> Lists(disk.view) == Lists(old(disk.view)) + Seeds(Lists(old(disk.view)), shipped)
    ensures disk.Ahead() == old(disk.Ahead()) - if ok then 0 else 1
  {
    ok := EnsureLists(disk, shipped);
    GrownIsSeen(old(disk.view), name, built);
    ThroughWeaken(old(disk.trace), disk.trace, GrownFrom(old(disk.view)), SeenFrom(old(disk.view), name, built));
  }

  // Where a sync stands: what readers see now, and have seen at every moment since it began.
  ghost predicate Syncing(disk: Disk, before: View, from: seq<View>, name: string, built: Generation)
    reads disk
  {
    && Seen(before, name, built, disk.view) && Through(from, disk.trace, SeenFrom(before, name, built))
    && disk.view.dirs.Keys <= before.dirs.Keys + {name, PendingName(name)}
  }

  method Commit(disk: Disk, ghost before: View, ghost from: seq<View>, parts: Parts, name: string) returns (ok: bool)
    requires Sound(before) && IsFresh(before, name) && Acceptable(parts.staged) && disk.view.dirs.Keys == before.dirs.Keys
    requires Syncing(disk, before, from, name, Built(parts)) && disk.view.pointer == before.pointer
    modifies disk
    ensures Syncing(disk, before, from, name, Built(parts))
    ensures disk.view.pointer == if ok then Some(PointerText(name)) else before.pointer
    ensures ok ==> name in disk.view.dirs && disk.view.dirs[name] == Built(parts) && disk.Ahead() == old(disk.Ahead())
    ensures !ok ==> disk.Ahead() < old(disk.Ahead())
    ensures !ok && disk.Ahead() == old(disk.Ahead()) - 1 ==> disk.view.dirs.Keys == before.dirs.Keys
  {
    var pending := PendingName(name);
    ghost var first, start := disk.view, disk.trace;
    ok := disk.CreateDir(pending);
    if !ok {
      return;
    }
    ThroughStep(start, start, disk.view, Besides(first, pending));
    ok := Prepare(disk, before, from, first, start, parts, name);
    if ok {
      NewGenerationIsComplete(parts);
      ok := Switch(disk, before, from, Built(parts), name);
    }
    if !ok {
      DiscardNew(disk, before, from, Built(parts), name);
    }
  }

  // Tries to remove what a failed commit has made.
  method DiscardNew(disk: Disk, ghost before: View, ghost from: seq<View>, ghost built: Generation, name: string)
    requires IsFresh(before, name) && disk.view.pointer == before.pointer && Syncing(disk, before, from, name, built)
    modifies disk
    ensures Syncing(disk, before, from, name, built) && disk.view.pointer == before.pointer
    ensures disk.Ahead() <= old(disk.Ahead())
    ensures disk.Ahead() == old(disk.Ahead()) ==> disk.view.dirs.Keys == before.dirs.Keys
  {
    Discard(disk, before, from, built, name, PendingName(name));
    Discard(disk, before, from, built, name, name);
    assert AllKept(before, disk.view);
  }

  // Fills the pending directory, created in the state `first`, and renames it.
  method Prepare(disk: Disk, ghost before: View, ghost from: seq<View>, ghost first: View, ghost start: seq<View>, parts: Parts, name: string)
      returns (ok: bool)
    requires Sound(before) && IsFresh(before, name) && Acceptable(parts.staged)
    requires Assembling(disk, before, from, first, start, name, Built(parts)) && disk.view.dirs[PendingName(name)] == Generation(map[], false, None)
    modifies disk
    ensures Syncing(disk, before, from, name, Built(parts)) && disk.view.pointer == before.pointer
    ensures ok ==> name in disk.view.dirs && disk.view.dirs[name] == Built(parts)
    ensures disk.Ahead() == old(disk.Ahead()) - if ok then 0 else 1
  {
    var pending := PendingName(name);
    NewGenerationIsComplete(parts);
    ok := disk.Build(first, start, pending, parts);
    Assembled(disk, before, from, first, start, name, Built(parts));
    if !ok || !Complete(disk.view.dirs[pending]) {
      return false;
    }
    ok := disk.Works();
    if !ok {
      return;
    }
    Finalize(disk, before, from, Built(parts), name);
  }

  // Since `first` only the pending directory has changed.
  ghost predicate Assembling(disk: Disk, before: View, from: seq<View>, first: View, start: seq<View>, name: string, built: Generation)
    reads disk
  {
    && Seen(before, name, built, first) && Through(from, start, SeenFrom(before, name, built))
    && first.pointer == before.pointer && first.dirs.Keys == before.dirs.Keys
    && PendingName(name) in disk.view.dirs && disk.Filling(first, start, PendingName(name))
  }

  lemma Assembled(disk: Disk, before: View, from: seq<View>, first: View, start: seq<View>, name: string, built: Generation)
    requires IsFresh(before, name) && Assembling(disk, before, from, first, start, name, built)
    ensures Syncing(disk, before, from, name, built) && disk.view.pointer == before.pointer
  {
    SeenBesides(before, name, built, from, start, disk.trace, first, PendingName(name));
    SeenBeside(before, name, built, first, PendingName(name), disk.view);
  }

  method Finalize(disk: Disk, ghost before: View, ghost from: seq<View>, ghost built: Generation, name: string)
    requires Sound(before) && IsFresh(before, name) && Syncing(disk, before, from, name, built)
    requires PendingName(name) in disk.view.dirs && disk.view.dirs[PendingName(name)] == built && disk.view.pointer == before.pointer
    modifies disk`view, disk`trace
    ensures Syncing(disk, before, from, name, built) && disk.view.pointer == before.pointer
    ensures name in disk.view.dirs && disk.view.dirs[name] == built
  {
    var pending := PendingName(name);
    ghost var here := disk.trace;
    RenamedIsSeen(before, name, built, disk.view);
    disk.Set(disk.view.(dirs := (disk.view.dirs - {pending})[name := disk.view.dirs[pending]]));
    ThroughStep(from, here, disk.view, SeenFrom(before, name, built));
  }

  lemma RenamedIsSeen(before: View, name: string, built: Generation, v: View)
    requires Sound(before) && IsFresh(before, name) && Seen(before, name, built, v) && v.pointer == before.pointer
    requires PendingName(name) in v.dirs
    ensures var now := v.(dirs := (v.dirs - {PendingName(name)})[name := v.dirs[PendingName(name)]]);
            Seen(before, name, built, now) && (v.dirs.Keys <= before.dirs.Keys + {name, PendingName(name)} ==>
                                                 now.dirs.Keys <= before.dirs.Keys + {name, PendingName(name)})
  {
  }

  // Replaces the pointer.
  method Switch(disk: Disk, ghost before: View, ghost from: seq<View>, ghost built: Generation, name: string) returns (ok: bool)
    requires disk.view.pointer == before.pointer
    requires Syncing(disk, before, from, name, built) && name in disk.view.dirs && disk.view.dirs[name] == built && Complete(built)
    modifies disk
    ensures Syncing(disk, before, from, name, built)
    ensures disk.Ahead() == old(disk.Ahead()) - if ok then 0 else 1
    ensures disk.view == old(disk.view).(pointer := if ok then Some(PointerText(name)) else old(disk.view.pointer))
  {
    ok := disk.Works();
    ok := ok && Complete(disk.view.dirs[name]);
    if ok {
      ghost var here := disk.trace;
      disk.Set(disk.view.(pointer := Some(PointerText(name))));
      ThroughStep(from, here, disk.view, SeenFrom(before, name, built));
    }
  }

  // Tries to remove a directory that no reader uses.
  method Discard(disk: Disk, ghost before: View, ghost from: seq<View>, ghost built: Generation, ghost name: string, dir: string)
    requires Syncing(disk, before, from, name, built) && Disposable(before, name, disk.view, dir)
    modifies disk
    ensures Syncing(disk, before, from, name, built) && SameBut(old(disk.view), dir, disk.view)
    ensures disk.Ahead() <= old(disk.Ahead()) && (disk.Ahead() == old(disk.Ahead()) ==> dir !in disk.view.dirs)
  {
    ghost var first, start := disk.view, disk.trace;
    var _ := disk.RemoveDir(dir);
    SeenBesides(before, name, built, from, start, disk.trace, first, dir);
    SeenBeside(before, name, built, first, dir, disk.view);
  }

  // Removes, as far as possible, every directory but the new generation and the previous one.
  method Cleanup(disk: Disk, ghost before: View, ghost from: seq<View>, ghost built: Generation, name: string, previous: Option<string>)
    requires Syncing(disk, before, from, name, built) && Active(before) == Ok(previous)
    requires disk.view.pointer != before.pointer
    requires name in disk.view.dirs && disk.view.dirs[name] == built
    modifies disk
    ensures Syncing(disk, before, from, name, built) && disk.view.pointer == old(disk.view.pointer)
    ensures name in disk.view.dirs && disk.view.dirs[name] == built
    ensures disk.Ahead() <= old(disk.Ahead())
    ensures disk.Ahead() == old(disk.Ahead()) ==> forall dir :: dir in disk.view.dirs ==> dir == name || previous == Some(dir)
  {
    var todo := disk.view.dirs.Keys;
    while todo != {}
      invariant Syncing(disk, before, from, name, built) && disk.view.pointer == old(disk.view.pointer)
      invariant name in disk.view.dirs && disk.view.dirs[name] == built && disk.Ahead() <= old(disk.Ahead())
      invariant disk.Ahead() == old(disk.Ahead()) ==>
                  forall dir :: dir in disk.view.dirs ==> dir in todo || dir == name || previous == Some(dir)
      decreases |todo|
    {
      var dir :| dir in todo;
      if dir != name && previous != Some(dir) {
        Discard(disk, before, from, built, name, dir);
      }
      todo := todo - {dir};
    }
  }

  // --- any number of syncs ----------------------------------------------------------------------

  // What commands other than a sync, and the engine itself, write inside a generation: the local
  // lists and the two slots for chosen fakes.
  predicate Editable(f: File) {
    match f
    case List(list) => !FromChannel(list)
    case Bin(name) => name == ACTIVE_DISCORD || name == ACTIVE_GAME
    case _ => false
  }

  lemma WhichAreEditable(f: File)
    ensures Editable(f) <==>
            (f.List? && f.list !in {General, Google, Exclude, IpsetExclude})
            || f in {Bin("ACTIVE_DISCORD_UDP.bin"), Bin("ACTIVE_GAME_UDP.bin")}
  {
  }

  // All but the editable files are the same.
  ghost predicate SameBundle(g: Generation, h: Generation) {
    && g.hasBin == h.hasBin
    && forall f :: !Editable(f) ==>
         (f in g.files <==> f in h.files) && (f in g.files ==> g.files[f] == h.files[f])
  }

  // Edits, in any generation and in the lists from before the first one.
  ghost predicate Edited(before: View, now: View) {
    && now.pointer == before.pointer && now.dirs.Keys == before.dirs.Keys
    && forall dir :: dir in before.dirs ==> SameBundle(before.dirs[dir], now.dirs[dir])
  }

  // One sync, complete or cut off, or edits between syncs, with what it left.
  datatype Event =
    | SyncRun(name: string, built: Generation, left: View)
    | Edits(left: View)

  ghost predicate Happens(before: View, e: Event) {
    match e
    case SyncRun(name, built, left) => ValidGenerationName(name) && Seen(before, name, built, left)
    case Edits(left) => Edited(before, left)
  }

  ghost predicate Follows(first: View, events: seq<Event>) {
    events == [] ||
    (var n := |events| - 1; Follows(first, events[..n]) && Happens(Left(first, events[..n]), events[n]))
  }

  function Left(first: View, events: seq<Event>): View {
    if events == [] then first else events[|events| - 1].left
  }

  // A generation as it was installed.
  datatype Installed = Installed(name: string, bundle: Generation)

  // The one of the last switch, or the one there was in the beginning.
  function InForce(first: View, events: seq<Event>): Option<Installed> {
    if events == [] then
      if Active(first).Ok? && Active(first).value.Some? then
        Some(Installed(Active(first).value.value, first.dirs[Active(first).value.value]))
      else None
    else
      var n := |events| - 1;
      if events[n].SyncRun? && Switched(first, events) then Some(Installed(events[n].name, events[n].built))
      else InForce(first, events[..n])
  }

  // The one in force before that switch.
  function Behind(first: View, events: seq<Event>): Option<Installed> {
    if events == [] then None
    else
      var init := events[..|events| - 1];
      if Switched(first, events) then InForce(first, init) else Behind(first, init)
  }

  // A sync that switches moves on by one generation; no other event does.
  lemma SwitchesMoveOn(first: View, events: seq<Event>, e: Event)
    ensures var all := events + [e];
            if e.SyncRun? && e.left.pointer != Left(first, events).pointer then
              InForce(first, all) == Some(Installed(e.name, e.built)) && Behind(first, all) == InForce(first, events)
            else InForce(first, all) == InForce(first, events)
                 && (e.left.pointer == Left(first, events).pointer ==> Behind(first, all) == Behind(first, events))
  {
    assert (events + [e])[..|events|] == events;
  }

  // Did the last event replace the pointer?
  predicate Switched(first: View, events: seq<Event>)
    requires events != []
  {
    Left(first, events).pointer != Left(first, events[..|events| - 1]).pointer
  }

  ghost predicate Holds(v: View, g: Installed) {
    g.name in v.dirs && Complete(v.dirs[g.name]) && SameBundle(g.bundle, v.dirs[g.name])
  }

  ghost predicate IsActive(v: View, g: Option<Installed>) {
    Active(v) == Ok(if g.Some? then Some(g.value.name) else None) && (g.Some? ==> Holds(v, g.value))
  }

  // However many syncs fail or are cut off, and whatever is edited in between, readers always find
  // the generation of the last switch that happened, complete and with the bundle it was made
  // from; and the one before that switch stays complete as well, through every state of the syncs
  // that follow, until one of them has switched the pointer again.
  lemma {:induction false} AlwaysSound(first: View, events: seq<Event>)
    requires Sound(first) && Follows(first, events)
    ensures IsActive(Left(first, events), InForce(first, events))
    ensures Behind(first, events).Some? ==> Holds(Left(first, events), Behind(first, events).value)
    decreases |events|
  {
    if events != [] {
      var n := |events| - 1;
      var before := Left(first, events[..n]);
      AlwaysSound(first, events[..n]);
      if events[n].Edits? {
        EditsKeep(before, events[n].left, InForce(first, events[..n]), Behind(first, events[..n]));
      } else {
        SyncKeeps(before, events[n], InForce(first, events[..n]), Behind(first, events[..n]));
      }
    }
  }

  lemma EditsKeep(before: View, now: View, g: Option<Installed>, behind: Option<Installed>)
    requires Edited(before, now) && IsActive(before, g) && (behind.Some? ==> Holds(before, behind.value))
    ensures IsActive(now, g) && (behind.Some? ==> Holds(now, behind.value))
  {
    forall h: Installed | Holds(before, h)
      ensures Holds(now, h)
    {
      StaysComplete(before.dirs[h.name], now.dirs[h.name]);
    }
  }

  lemma SyncKeeps(before: View, e: Event, g: Option<Installed>, behind: Option<Installed>)
    requires e.SyncRun? && Happens(before, e) && IsActive(before, g) && (behind.Some? ==> Holds(before, behind.value))
    ensures if e.left.pointer == before.pointer then IsActive(e.left, g) && (behind.Some? ==> Holds(e.left, behind.value))
            else IsActive(e.left, Some(Installed(e.name, e.built))) && (g.Some? ==> Holds(e.left, g.value))
  {
    SeenIsSound(before, e.name, e.built, e.left);
    forall h: Installed | Holds(before, h) && h.name in e.left.dirs && Extends(before.dirs[h.name], e.left.dirs[h.name])
      ensures Holds(e.left, h)
    {
      OnlyListsAdded(before.dirs[h.name], e.left.dirs[h.name]);
      StaysComplete(before.dirs[h.name], e.left.dirs[h.name]);
    }
  }

  // A complete generation has all lists of the channel, so lists added to it are local ones.
  lemma OnlyListsAdded(g: Generation, h: Generation)
    requires Complete(g) && Extends(g, h)
    ensures SameBundle(g, h)
  {
  }

  lemma StaysComplete(g: Generation, h: Generation)
    requires Complete(g) && SameBundle(g, h)
    ensures Complete(h)
  {
    assert !Editable(Strategies) && !Editable(Version);
    assert forall n :: FromChannel(n) ==> !Editable(List(n));
    assert forall n :: !Editable(Service(n));
  }
}
