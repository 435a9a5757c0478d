/**
  The hosts file itself: single-byte decoding, the scan as the program runs it, and the apply and
  clear commands with their one-time backup.
 */
module HostsFile {
  import opened Common
  import opened AtomicFile
  import opened LineText
  import opened HostsMarkers
  import opened HostsBlock

  // --- single-byte text -------------------------------------------------------------------------

  ghost predicate AreBytes(bytes: Bytes) {
    forall i :: 0 <= i < |bytes| ==> 0 <= bytes[i] < 256
  }

  function Decode(bytes: Bytes): (text: string)
    requires AreBytes(bytes)
    ensures |text| == |bytes| && forall i :: 0 <= i < |bytes| ==> text[i] as int == bytes[i]
  {
    seq(|bytes|, i requires 0 <= i < |bytes| => bytes[i] as char)
  }

  function Encode(text: string): (r: Result<Bytes, HostsError>)
    ensures r.Ok? <==> forall i :: 0 <= i < |text| ==> text[i] as int < 256
    ensures r.Ok? ==> AreBytes(r.value) && Decode(r.value) == text
    ensures r.Err? ==> r.error == NotOneByte
  {
    if forall i :: 0 <= i < |text| ==> text[i] as int < 256 then Ok(seq(|text|, i requires 0 <= i < |text| => text[i] as int))
    else Err(NotOneByte)
  }

  // No byte sequence is lost or changed on the way in and out.
  lemma BytesComeBack(bytes: Bytes)
    requires AreBytes(bytes)
    ensures Encode(Decode(bytes)) == Ok(bytes)
  {
    var r := Encode(Decode(bytes));
    assert r.Ok?;
    forall i | 0 <= i < |bytes|
      ensures r.value[i] == bytes[i]
    {
      assert Decode(r.value)[i] == Decode(bytes)[i];
    }
    assert |Decode(r.value)| == |Decode(bytes)|;
    assert r.value == bytes;
  }

  // --- the scan ---------------------------------------------------------------------------------

  predicate HasManagedBlock(text: string) {
    var lines := Lines(Pieces(text));
    exists i :: 0 <= i < |lines| && IsBegin(lines[i])
  }

  // In an accepted text, a BEGIN line and a block are the same thing.
  lemma BlockShows(text: string)
    requires Managed(text).Ok?
    ensures HasManagedBlock(text) <==> Managed(text).value.blocks == 1
  {
    var ps := Pieces(text);
    var s := Managed(text).value;
    WalkStands(ps);
    if s.blocks == 1 {
      var x, begin, end, z :| OneBlock(ps, x, begin, s.inner, end, z);
      assert ps[|x|] == begin;
      TrimChop(begin);
      assert IsBegin(Lines(ps)[|x|]);
    } else {
      forall i | 0 <= i < |ps|
        ensures !IsBegin(Lines(ps)[i])
      {
        TrimChop(ps[i]);
      }
    }
  }

  lemma {:induction false} WalkBad(s: Scan, ps: seq<string>)
    requires s.Bad?
    ensures Walk(s, ps) == s
    decreases |ps|
  {
    if ps != [] {
      WalkBad(s, ps[..|ps| - 1]);
    }
  }

  // The text without its block, every line with a line feed.
  method StripManagedBlock(content: string) returns (r: Result<string, HostsError>)
    ensures r == match Managed(content)
                 case Ok(s) => Ok(Unlines(s.foreign))
                 case Err(e) => Err(e)
  {
    r := StripLines(Pieces(content), Lines(Pieces(content)));
  }

  method StripLines(ghost ps: seq<string>, lines: seq<string>) returns (r: Result<string, HostsError>)
    requires lines == Lines(ps)
    ensures r == match Conclude(Walk(NOTHING_SEEN, ps))
                 case Ok(s) => Ok(Unlines(s.foreign))
                 case Err(e) => Err(e)
  {
    var out, skip, blocks := "", false, 0;
    ghost var s := NOTHING_SEEN;
    for i := 0 to |lines|
      invariant s == Walk(NOTHING_SEEN, ps[..i])
      invariant s.Scan? && out == Unlines(s.foreign) && skip == s.open && blocks == s.blocks
    {
      NextLine(ps, i);
      LineStep(s, ps[i], lines[i]);
      s := Step(s, ps[i]);
      if IsBegin(lines[i]) {
        if skip {
          Ruined(ps, i + 1);
          return Err(Nested);
        }
        skip, blocks := true, blocks + 1;
      } else if IsEnd(lines[i]) {
        if !skip {
          Ruined(ps, i + 1);
          return Err(StrayEnd);
        }
        skip := false;
      } else if !skip {
        out := out + lines[i] + "\n";
      }
    }
    assert ps[..|ps|] == ps;
    if skip {
      return Err(Unterminated);
    }
    return if blocks > 1 then Err(Several) else Ok(out);
  }

  // One more line of the scan, in terms of the loop's variables.
  lemma LineStep(s: Scan, p: string, line: string)
    requires s.Scan? && line == Chop(p)
    ensures (IsBegin(line) <==> IsBegin(p)) && (IsEnd(line) <==> IsEnd(p)) && !(IsBegin(line) && IsEnd(line))
    ensures IsBegin(line) ==> Step(s, p) == if s.open then Bad(Nested) else s.(blocks := s.blocks + 1, open := true)
    ensures IsEnd(line) ==> Step(s, p) == if s.open then s.(open := false) else Bad(StrayEnd)
    ensures !IsBegin(line) && !IsEnd(line) ==>
              var t := Step(s, p);
              && t.Scan? && t.open == s.open && t.blocks == s.blocks
              && Unlines(t.foreign) == if s.open then Unlines(s.foreign) else Unlines(s.foreign) + line + "\n"
  {
    TrimChop(p);
    BeginIsNotEnd(p);
    if !IsBegin(p) && !IsEnd(p) && !s.open {
      OneMoreLine(p, s.foreign + [p]);
      assert (s.foreign + [p])[..|s.foreign|] == s.foreign;
    }
  }

  lemma NextLine(ps: seq<string>, i: nat)
    requires i < |ps|
    ensures Walk(NOTHING_SEEN, ps[..i + 1]) == Step(Walk(NOTHING_SEEN, ps[..i]), ps[i])
  {
    assert ps[..i + 1][..i] == ps[..i];
  }

  lemma OneMoreLine(p: string, ps: seq<string>)
    requires ps != [] && ps[|ps| - 1] == p
    ensures Unlines(ps) == Unlines(ps[..|ps| - 1]) + Chop(p) + "\n"
  {
  }

  lemma Ruined(ps: seq<string>, n: nat)
    requires n <= |ps| && Walk(NOTHING_SEEN, ps[..n]).Bad?
    ensures Walk(NOTHING_SEEN, ps) == Walk(NOTHING_SEEN, ps[..n])
  {
    assert ps == ps[..n] + ps[n..];
    WalkSplit(NOTHING_SEEN, ps[..n], ps[n..]);
    WalkBad(Walk(NOTHING_SEEN, ps[..n]), ps[n..]);
  }

  // --- the commands -----------------------------------------------------------------------------

  datatype FileError = Scanning(error: HostsError) | NotWritten | Broken

  // --- single-byte texts stay single-byte -------------------------------------------------------

  ghost predicate Narrow(s: string) {
    forall i :: 0 <= i < |s| ==> s[i] as int < 256
  }

  ghost predicate AllNarrow(ps: seq<string>) {
    forall i :: 0 <= i < |ps| ==> Narrow(ps[i])
  }

  lemma {:induction false} PiecesAreNarrow(s: string)
    requires Narrow(s)
    ensures AllNarrow(Pieces(s))
  {
    if s != "" {
      PiecesAreNarrow(s[..|s| - 1]);
    }
  }

  lemma {:induction false} ForeignIsNarrow(ps: seq<string>)
    requires AllNarrow(ps) && Walk(NOTHING_SEEN, ps).Scan?
    ensures AllNarrow(Walk(NOTHING_SEEN, ps).foreign)
    decreases |ps|
  {
    if ps != [] {
      var init := ps[..|ps| - 1];
      if Walk(NOTHING_SEEN, init).Scan? {
        ForeignIsNarrow(init);
      }
    }
  }

  lemma {:induction false} UnlinesIsNarrow(ps: seq<string>)
    requires AllNarrow(ps)
    ensures Narrow(Unlines(ps))
    decreases |ps|
  {
    if ps != [] {
      UnlinesIsNarrow(ps[..|ps| - 1]);
    }
  }

  // What is left of a single-byte text can be written.
  lemma BaseIsNarrow(text: string)
    requires Narrow(text) && Managed(text).Ok?
    ensures Narrow(Unlines(Managed(text).value.foreign))
  {
    PiecesAreNarrow(text);
    ForeignIsNarrow(Pieces(text));
    UnlinesIsNarrow(Managed(text).value.foreign);
  }

  class HostsFile {
    const file: Target
    var backup: Option<Bytes>
    var answers: seq<bool>   // of the system, to the calls besides those on the open file

    constructor (file: Target, answers: seq<bool>)
      ensures this.file == file && backup == None && this.answers == answers
    {
      this.file, backup, this.answers := file, None, answers;
    }

    // The failures to come.
    ghost function Ahead(): nat
      reads this, file
    {
      Failures(answers) + file.Ahead()
    }

    method Works() returns (ok: bool)
      modifies this`answers
      ensures answers == Drop(old(answers), 1) && (ok <==> old(answers) == [] || old(answers)[0])
      ensures Failures(answers) == Failures(old(answers)) - if ok then 0 else 1
    {
      ok := true;
      if answers != [] {
        ok, answers := answers[0], answers[1..];
      }
    }

    // Keeps the original once, before the first write: without our block, should there be one.
    // Refuses only when a call fails.
    method KeepBackup(current: string, base: string) returns (r: Result<(), FileError>)
      requires Narrow(current) && Narrow(base)
      modifies this`backup, this`answers
      ensures old(backup).Some? ==> backup == old(backup)
      ensures backup != old(backup) ==> Encode(if HasManagedBlock(current) then base else current) == Ok(backup.value)
      ensures r.Ok? ==> backup.Some?
      ensures r.Err? ==> r.error == NotWritten
      ensures Failures(answers) == Failures(old(answers)) - if r.Ok? then 0 else 1
      // The directory is made, a new backup written, and the backup read or opened.
      ensures r.Ok? ==> answers == Drop(old(answers), if old(backup).Some? then 2 else 3)
    {
      var works := Works();
      if !works {
        return Err(NotWritten);
      }
      if backup.None? {
        var body := Encode(if HasManagedBlock(current) then base else current);
        if body.Err? {
          return Err(Scanning(NotOneByte));
        }
        works := Works();
        if !works {
          return Err(NotWritten);
        }
        backup := Some(body.value);
      }
      works := Works();
      r := if works then Ok(()) else Err(NotWritten);
    }

    // The answer of a command that writes `rendered`: what it says about the failures on the way,
    // those before the call at hand being `before`.
    ghost predicate Answer(r: Result<(), FileError>, rendered: string, before: nat)
      reads this, file
    {
      match r
      case Ok(_) => Encode(rendered) == Ok(file.content) && Ahead() == before
      case Err(NotWritten) => Ahead() == before - 1
      case Err(Broken) => Ahead() == before - 2
      case Err(Scanning(e)) => e == NotOneByte && Encode(rendered).Err? && Ahead() == before
    }

    // Overwrites the file in place; when that breaks off, the old contents are put back.
    method Overwrite(rendered: string, current: string) returns (r: Result<(), FileError>)
      requires AreBytes(file.content) && current == Decode(file.content)
      modifies this`answers, file
      ensures Answer(r, rendered, old(Ahead()))
      ensures r.Err? && r.error != Broken ==> file.content == old(file.content)
    {
      BytesComeBack(file.content);
      var body, original := Encode(rendered), Encode(current);
      if body.Err? || original.Err? {
        return Err(Scanning(NotOneByte));
      }
      var opens := Works();
      if !opens {
        return Err(NotWritten);
      }
      var outcome := file.OverwriteOrRestore(body.value, original.value);
      r := match outcome
        case Written => Ok(())
        case Restored => Err(NotWritten)
        case Damaged => Err(Broken);
    }

    // `write_hosts_block_blocking`.  A text that does not scan is refused; otherwise the answer is
    // decided by the failures on the way and by whether the new text can be written at all.
    method Apply(body: string) returns (r: Result<(), FileError>)
      requires AreBytes(file.content)
      modifies this`backup, this`answers, file
      ensures var text := Decode(old(file.content));
              && (Managed(text).Err? ==> r == Err(Scanning(Managed(text).error)) && backup == old(backup))
              && (Managed(text).Ok? ==> Answer(r, Applied(text, body), old(Ahead())))
              && ((r.Err? && r.error != Broken) ==> file.content == old(file.content))
              && (backup != old(backup) ==>
                    old(backup).None? && backup.Some? && AreBytes(backup.value) && Managed(text).Ok?
                    && Decode(backup.value) == if Managed(text).value.blocks == 1 then Unlines(Managed(text).value.foreign) else text)
      ensures r.Ok? ==> backup.Some?
    {
      var current := Decode(file.content);
      var base := StripManagedBlock(current);
      if base.Err? {
        return Err(Scanning(base.error));
      }
      BlockShows(current);
      BaseIsNarrow(current);
      var kept := KeepBackup(current, base.value);
      if kept.Err? {
        return Err(kept.error);
      }
      r := Overwrite(Endings(HasCrlf(current), Render(TrimHostsEnd(base.value), body)), current);
    }

    // `dpi_hosts_clear_blocking`
    method Clear() returns (r: Result<(), FileError>)
      requires AreBytes(file.content)
      modifies this`answers, file
      ensures var text := Decode(old(file.content));
              && (Managed(text).Err? ==> r == Err(Scanning(Managed(text).error)))
              && (Managed(text).Ok? ==> Answer(r, Cleared(text), old(Ahead())))
              && ((r.Err? && r.error != Broken) ==> file.content == old(file.content))
    {
      var current := Decode(file.content);
      BytesComeBack(file.content);
      var base := StripManagedBlock(current);
      if base.Err? {
        return Err(Scanning(base.error));
      }
      BlockShows(current);
      if !HasManagedBlock(current) {
        return Ok(());
      }
      r := Overwrite(Endings(HasCrlf(current), TrimHostsEnd(base.value) + "\n"), current);
    }
  }
}
