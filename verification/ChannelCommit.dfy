/**
  The commit of a new channel generation, `dpi_sync_channel` of `src-tauri/src/dpi.rs`, on a disk
  where every step may fail and every state in between may be where the program dies.
 */
module ChannelCommit {
  import opened Common
  import opened Text
  import opened Traces
  import opened ChannelFiles

  // What the channel keeps on disk: the pointer file, the directories next to each other under
  // channel-generations, and the lists from before the first generation.
  datatype View = View(pointer: Option<string>, dirs: map<string, Generation>, legacy: Files)

  function PendingName(name: string): string { "." + name + ".pending" }

  // What is being put together is no generation yet, whatever its name.
  lemma PendingIsNoGeneration(name: string)
    ensures !ValidGenerationName(PendingName(name)) && PendingName(name) == ['.'] + name + ['.', 'p', 'e', 'n', 'd', 'i', 'n', 'g']
  {
    assert PendingName(name)[0] == '.' != "gen-"[0];
  }

  function PointerText(name: string): string { name + "\n" }

  // The generation that readers use, `active_channel_generation_from_dpi`.
  function Active(v: View): Result<Option<string>, ()> {
    if v.pointer.None? then Ok(None)
    else
      var name := Trim(v.pointer.value);
      if ValidGenerationName(name) && name in v.dirs && Complete(v.dirs[name]) then Ok(Some(name)) else Err(())
  }

  // The pointer is absent or names a complete generation.
  ghost predicate Sound(v: View) { Active(v).Ok? }

  // Lists may have been added, nothing else.
  ghost predicate Extends(before: Generation, now: Generation) {
    && now.hasBin == before.hasBin && now.fakes == before.fakes
    && (forall f :: f in before.files ==> f in now.files && now.files[f] == before.files[f])
    && (forall f :: f in now.files && f !in before.files ==> f.List?)
  }

  // Every directory is still there, with all it had.
  ghost predicate AllKept(before: View, now: View) {
    forall dir :: dir in before.dirs ==> dir in now.dirs && Extends(before.dirs[dir], now.dirs[dir])
  }

  // What readers see all through a sync: the generation that was active is still there, and the
  // pointer names it, or the whole of the new one.  Until the pointer is switched nothing that
  // was there before is removed, so paths into older generations keep working as well.
  ghost predicate Seen(before: View, name: string, built: Generation, now: View) {
    && (forall a :: Active(before) == Ok(Some(a)) ==> a in now.dirs && Extends(before.dirs[a], now.dirs[a]))
    && (now.pointer == before.pointer ==> AllKept(before, now))
    && (now.pointer == before.pointer
        || (now.pointer == Some(PointerText(name)) && name in now.dirs && now.dirs[name] == built && Complete(built)))
  }

  ghost function SeenFrom(before: View, name: string, built: Generation): View -> bool {
    now => Seen(before, name, built, now)
  }

  lemma SeenIsSound(before: View, name: string, built: Generation, now: View)
    requires Sound(before) && ValidGenerationName(name) && Seen(before, name, built, now)
    ensures Sound(now)
    ensures now.pointer == before.pointer ==> Active(now) == Active(before)
    ensures now.pointer != before.pointer ==> Active(now) == Ok(Some(name)) && now.dirs[name] == built
    ensures forall a :: Active(before) == Ok(Some(a)) ==> a in now.dirs && Complete(now.dirs[a])
    ensures now.pointer == before.pointer ==>
              forall dir :: dir in before.dirs && Complete(before.dirs[dir]) ==> dir in now.dirs && Complete(now.dirs[dir])
  {
    TrimPointer(name);
  }

  lemma TrimPointer(name: string)
    requires ValidGenerationName(name)
    ensures Trim(PointerText(name)) == name
  {
    assert "gen-"[0] == 'g' == name[0];
    assert PointerText(name)[..|name|] == name;
    assert IsAlphanumeric(name[|name| - 1]) || name[|name| - 1] == '-';
    assert TrimEnd(name) == name;
    assert TrimEnd(PointerText(name)) == TrimEnd(name);
  }

  // Only one directory differs.
  ghost predicate SameBut(before: View, dir: string, now: View) {
    && now == before.(dirs := now.dirs)
    && now.dirs == if dir in now.dirs then before.dirs[dir := now.dirs[dir]] else before.dirs - {dir}
  }

  ghost function Besides(before: View, dir: string): View -> bool {
    now => SameBut(before, dir, now)
  }

  // --- the disk ---------------------------------------------------------------------------------

  class Disk {
    var view: View
    var answers: seq<bool>   // of the system, to the coming calls
    ghost var trace: seq<View>

    constructor (view: View, answers: seq<bool>)
      ensures this.view == view && this.answers == answers && trace == []
    {
      this.view, this.answers, trace := view, answers, [];
    }

    // The failures to come.
    ghost function Ahead(): nat
      reads this
    {
      Failures(answers)
    }

    // Does the next call work?
    method Works() returns (ok: bool)
      modifies this`answers
      ensures answers == Drop(old(answers), 1) && (ok <==> old(answers) == [] || old(answers)[0])
      ensures Ahead() == old(Ahead()) - if ok then 0 else 1
    {
      ok := true;
      if answers != [] {
        ok, answers := answers[0], answers[1..];
      }
    }

    method Set(v: View)
      modifies this`view, this`trace
      ensures view == v && trace == old(trace) + [v]
    {
      view, trace := v, trace + [v];
    }

    method CreateDir(dir: string) returns (ok: bool)
      modifies this
      ensures ok ==> dir !in old(view.dirs) && view == old(view).(dirs := old(view.dirs)[dir := Generation(map[], false, None)])
                     && trace == old(trace) + [view]
      ensures !ok ==> view == old(view) && trace == old(trace)
      ensures dir !in old(view.dirs) ==> Ahead() == old(Ahead()) - if ok then 0 else 1
    {
      ok := Works();
      ok := ok && dir !in view.dirs;
      if ok {
        Set(view.(dirs := view.dirs[dir := Generation(map[], false, None)]));
      }
    }

    method Replace(ghost first: View, ghost from: seq<View>, dir: string, g: Generation)
      requires dir in view.dirs && Filling(first, from, dir)
      modifies this`view, this`trace
      ensures dir in view.dirs && view.dirs[dir] == g && Filling(first, from, dir)
      ensures view == old(view).(dirs := old(view).dirs[dir := g])
    {
      ghost var before := trace;
      Set(view.(dirs := view.dirs[dir := g]));
      ThroughStep(from, before, view, Besides(first, dir));
    }

    // Writes the files of a layer one by one; each is replaced whole or not at all.  `first` and
    // `from` are where the caller started.
    method Fill(ghost first: View, ghost from: seq<View>, dir: string, layer: Files) returns (ok: bool)
      requires dir in view.dirs && Filling(first, from, dir)
      modifies this
      ensures dir in view.dirs && Filling(first, from, dir)
      ensures ok ==> view.dirs[dir] == old(view).dirs[dir].(files := old(view).dirs[dir].files + layer)
      ensures Ahead() == old(Ahead()) - if ok then 0 else 1
    {
      var todo := layer.Keys;
      while todo != {}
        invariant todo <= layer.Keys && dir in view.dirs && Filling(first, from, dir)
        invariant view.dirs[dir] == old(view).dirs[dir].(files := old(view).dirs[dir].files + (layer - todo))
        invariant Ahead() == old(Ahead())
        decreases |todo|
      {
        var f :| f in todo;
        ok := Works();
        if !ok {
          return;
        }
        Replace(first, from, dir, view.dirs[dir].(files := view.dirs[dir].files[f := layer[f]]));
        OneMoreFile(old(view).dirs[dir].files, layer, todo, f);
        todo := todo - {f};
      }
      assert layer - {} == layer;
      ok := true;
    }

    // Since `from` only `dir` has changed.
    ghost predicate Filling(first: View, from: seq<View>, dir: string)
      reads this
    {
      SameBut(first, dir, view) && Through(from, trace, Besides(first, dir))
    }

    // Removing a directory with all it holds may stop half-way.
    method RemoveDir(dir: string) returns (ok: bool)
      modifies this
      ensures SameBut(old(view), dir, view) && view.dirs.Keys <= old(view).dirs.Keys && (ok ==> dir !in view.dirs)
      ensures Through(old(trace), trace, Besides(old(view), dir))
      ensures Ahead() == old(Ahead()) - if ok then 0 else 1
    {
      ghost var test := Besides(view, dir);
      var steps: int := *;
      for i := 0 to if steps < 0 then 0 else steps
        invariant SameBut(old(view), dir, view) && Through(old(trace), trace, test)
        invariant view.dirs.Keys == old(view).dirs.Keys && Ahead() == old(Ahead())
      {
        if dir in view.dirs {
          var gone: set<File> := *;
          var bin: bool := *;
          var rest := view.dirs[dir];
          ghost var before := trace;
          Set(view.(dirs := view.dirs[dir := rest.(files := rest.files - gone, hasBin := rest.hasBin && bin)]));
          ThroughStep(old(trace), before, view, test);
        }
      }
      ok := Works();
      if ok {
        ghost var before := trace;
        Set(view.(dirs := view.dirs - {dir}));
        ThroughStep(old(trace), before, view, test);
      }
    }

    // Puts the new generation together in an empty directory.
    method Build(ghost first: View, ghost from: seq<View>, dir: string, parts: Parts) returns (ok: bool)
      requires Acceptable(parts.staged) && Filling(first, from, dir)
      requires dir in view.dirs && view.dirs[dir] == Generation(map[], false, None)
      modifies this
      ensures dir in view.dirs && Filling(first, from, dir)
      ensures ok ==> view.dirs[dir] == Built(parts)
      ensures Ahead() == old(Ahead()) - if ok then 0 else 1
    {
      ok := Works();
      if !ok { return; }
      Replace(first, from, dir, view.dirs[dir].(hasBin := true));
      ok := Fill(first, from, dir, LocalLayer(parts));
      if !ok { return; }
      ok := Fill(first, from, dir, ListLayer(parts));
      if !ok { return; }
      ok := Fill(first, from, dir, PayloadLayer(parts));
      if !ok { return; }
      EmptyMerge(LocalLayer(parts));
      ok := BuildRest(first, from, dir, parts);
    }

    method BuildRest(ghost first: View, ghost from: seq<View>, dir: string, parts: Parts) returns (ok: bool)
      requires Acceptable(parts.staged) && Filling(first, from, dir) && dir in view.dirs
      requires view.dirs[dir] == Generation(LocalLayer(parts) + ListLayer(parts) + PayloadLayer(parts), true, None)
      modifies this
      ensures dir in view.dirs && Filling(first, from, dir)
      ensures ok ==> view.dirs[dir] == Built(parts)
      ensures Ahead() == old(Ahead()) - if ok then 0 else 1
    {
      ok := Fill(first, from, dir, ServiceLayer(parts));
      if !ok { return; }
      ok := Fill(first, from, dir, BaseLayer(parts));
      if !ok { return; }
      ok := Fill(first, from, dir, TextLayer(parts));
      if !ok { return; }
      assert view.dirs[dir] == Generation(BundleFiles(parts), true, None);
      ok := ChooseFakes(first, from, dir, parts);
    }

    // Lays the chosen fakes over their slots, and records the choices that are still possible.
    method ChooseFakes(ghost first: View, ghost from: seq<View>, dir: string, parts: Parts) returns (ok: bool)
      requires Acceptable(parts.staged) && Filling(first, from, dir)
      requires dir in view.dirs && view.dirs[dir] == Generation(BundleFiles(parts), true, None)
      modifies this
      ensures dir in view.dirs && Filling(first, from, dir)
      ensures ok ==> view.dirs[dir] == Built(parts)
      ensures Ahead() == old(Ahead()) - if ok then 0 else 1
    {
      var discord, game;
      BundleOffers(parts);
      ok, discord := ChooseFake(first, from, dir, parts, ACTIVE_DISCORD, parts.fakes.discord);
      if !ok { return; }
      SlotsAreNoChoice();
      StillOffers(parts, BundleFiles(parts), ACTIVE_DISCORD, parts.fakes.discord);
      ok, game := ChooseFake(first, from, dir, parts, ACTIVE_GAME, parts.fakes.game);
      if !ok { return; }
      ok := Works();
      if !ok { return; }
      Replace(first, from, dir, view.dirs[dir].(fakes := Some(FakeSelection(discord, game))));
    }

    method ChooseFake(ghost first: View, ghost from: seq<View>, dir: string, parts: Parts, slot: string, choice: Option<string>)
        returns (ok: bool, kept: Option<string>)
      requires Filling(first, from, dir) && dir in view.dirs && Offers(parts, view.dirs[dir].files)
      modifies this
      ensures dir in view.dirs && Filling(first, from, dir)
      ensures ok ==>
                && kept == StillThere(parts, choice)
                && view.dirs[dir] == old(view).dirs[dir].(files := old(view).dirs[dir].files + FakeLayer(parts, slot, choice))
      ensures Ahead() == old(Ahead()) - if ok then 0 else 1
    {
      kept := choice;
      if choice.None? {
        return true, None;
      }
      var files := view.dirs[dir].files;
      if choice.value !in Payloads(parts.staged) || !FakeSourceUsable(files, choice.value) {
        return true, None;
      }
      ok := Fill(first, from, dir, map[Bin(slot) := files[Bin(choice.value)]]);
    }
  }

  lemma OneMoreFile(files: Files, layer: Files, todo: set<File>, f: File)
    requires f in todo && f in layer
    ensures (files + (layer - todo))[f := layer[f]] == files + (layer - (todo - {f}))
  {
  }

  predicate FakeSourceUsable(files: Files, name: string) {
    ValidFakeName(name) && Bin(name) in files && 1 <= |files[Bin(name)]| <= MAX_PAYLOAD
  }

  // Among the bundle's payloads every valid fake can be used as it is.
  ghost predicate Offers(parts: Parts, files: Files) {
    forall n :: n in Payloads(parts.staged) && ValidFakeName(n) ==>
      FakeSourceUsable(files, n) && files[Bin(n)] == parts.staged.files[Bin(n)]
  }

  lemma EmptyMerge(files: Files)
    ensures map[] + files == files
  {
  }

  lemma BundleOffers(parts: Parts)
    requires Acceptable(parts.staged)
    ensures Offers(parts, BundleFiles(parts))
  {
    forall n | n in Payloads(parts.staged)
      ensures Find(BundleFiles(parts), Bin(n)) == Find(parts.staged.files, Bin(n))
    {
      BundleAt(parts, Bin(n));
    }
  }

  lemma StillOffers(parts: Parts, files: Files, slot: string, choice: Option<string>)
    requires Offers(parts, files) && !ValidFakeName(slot)
    ensures Offers(parts, files + FakeLayer(parts, slot, choice))
  {
  }
}
