/**
  `dpi_hosts_apply` of `src-tauri/src/dpi.rs` from the text of the channel to the bytes of the hosts
  file, and the file through a whole life of the block: applied, applied again, cleared.
 */
module HostsRuns {
  import opened Common
  import opened Text
  import opened LineText
  import opened HostsMarkers
  import opened HostsBlock
  import opened HostsTheorems
  import opened HostsSanitizer
  import opened AtomicFile
  import HostsFile

  // --- markers before and after cleaning up -----------------------------------------------------

  lemma MarkersIgnoreNorm(s: string)
    ensures NoMarkers(Pieces(Norm(s))) <==> NoMarkers(Pieces(s))
  {
    var ps := Pieces(s);
    PiecesArePieces(s);
    MarkersInUnlines(ps);
    UnlinesIsNorm(ps);
    if ps == [] || Ended(ps[|ps| - 1]) {
      assert Norm(s) + "" == Norm(s);
    } else {
      MarkersIgnoreTail(Norm(s), '\n');
    }
  }

  lemma {:induction false} MarkersIgnoreTrimEnd(s: string)
    ensures NoMarkers(Pieces(TrimEnd(s))) <==> NoMarkers(Pieces(s))
    decreases |s|
  {
    if s != "" && IsWhitespace(s[|s| - 1]) {
      var rest := s[..|s| - 1];
      assert s == rest + [s[|s| - 1]];
      MarkersIgnoreTail(rest, s[|s| - 1]);
      MarkersIgnoreTrimEnd(rest);
    }
  }

  // A character in front of a text that is not a line feed goes to its first piece.
  function InFront(c: char, ps: seq<string>): seq<string> {
    if ps == [] then [[c]] else [[c] + ps[0]] + ps[1..]
  }

  lemma {:induction false} PiecesInFront(c: char, s: string)
    requires c != '\n'
    ensures Pieces([c] + s) == InFront(c, Pieces(s))
    decreases |s|
  {
    if s == "" {
      assert [c] + s == [] + [c];
      PiecesOn([], c);
    } else {
      var rest, d := s[..|s| - 1], s[|s| - 1];
      assert s == rest + [d] && [c] + s == ([c] + rest) + [d];
      PiecesInFront(c, rest);
      PiecesOn(rest, d);
      PiecesOn([c] + rest, d);
      GrowInFront(c, Pieces(rest), d);
    }
  }

  lemma GrowInFront(c: char, ps: seq<string>, d: char)
    requires c != '\n'
    ensures Grow(InFront(c, ps), d) == InFront(c, Grow(ps, d))
  {
    if ps == [] {
      assert [c] + [d] == [c, d];
    } else if |ps| == 1 {
      assert ps == [ps[0]];
      assert [c] + (ps[0] + [d]) == [c] + ps[0] + [d];
    } else {
      LastInFront(c, ps);
    }
  }

  lemma LastInFront(c: char, ps: seq<string>)
    requires |ps| > 1
    ensures var front := InFront(c, ps);
            front[..|front| - 1] == InFront(c, ps[..|ps| - 1]) && front[|front| - 1] == ps[|ps| - 1]
  {
  }

  lemma TrimInFront(c: char, p: string)
    requires IsWhitespace(c)
    ensures Trim([c] + p) == Trim(p)
    decreases |p|
  {
    EndInFront(c, p);
  }

  lemma {:induction false} EndInFront(c: char, p: string)
    requires IsWhitespace(c)
    ensures TrimEnd([c] + p) == if TrimEnd(p) == "" then "" else [c] + TrimEnd(p)
    ensures TrimStart(TrimEnd([c] + p)) == TrimStart(TrimEnd(p))
    decreases |p|
  {
    var all := [c] + p;
    if p == "" {
      assert all == [c] && all[..0] == "";
    } else if IsWhitespace(p[|p| - 1]) {
      assert all[..|all| - 1] == [c] + p[..|p| - 1];
      EndInFront(c, p[..|p| - 1]);
    } else {
      assert all[1..] == p;
    }
  }

  lemma MarkersIgnoreFront(c: char, s: string)
    requires IsWhitespace(c)
    ensures NoMarkers(Pieces([c] + s)) <==> NoMarkers(Pieces(s))
  {
    OneBlank(c);
    if c == '\n' {
      OnePiece("");
      assert "" + "\n" == [c];
      PiecesSplit([c], s);
      NoMarkersFirst([c], Pieces(s));
    } else {
      PiecesInFront(c, s);
      BlankInFront(c, Pieces(s));
    }
  }

  lemma OneBlank(c: char)
    requires IsWhitespace(c)
    ensures !IsMarker([c])
  {
    BlankIsNoMarker();
    TrimInFront(c, "");
    assert [c] + "" == [c];
  }

  lemma BlankInFront(c: char, ps: seq<string>)
    requires IsWhitespace(c)
    ensures NoMarkers(InFront(c, ps)) <==> NoMarkers(ps)
  {
    if ps == [] {
      OneBlank(c);
    } else {
      TrimInFront(c, ps[0]);
      SameMarker([c] + ps[0], ps[0]);
      NoMarkersFirst([c] + ps[0], ps[1..]);
      NoMarkersFirst(ps[0], ps[1..]);
      assert ps == [ps[0]] + ps[1..];
    }
  }

  lemma NoMarkersFirst(p: string, ps: seq<string>)
    ensures NoMarkers([p] + ps) <==> NoMarkers(ps) && !IsMarker(p)
  {
    if NoMarkers([p] + ps) {
      assert ([p] + ps)[0] == p;
      assert forall i :: 0 <= i < |ps| ==> ([p] + ps)[i + 1] == ps[i];
    }
  }

  lemma {:induction false} MarkersIgnoreTrimStart(s: string)
    ensures NoMarkers(Pieces(TrimStart(s))) <==> NoMarkers(Pieces(s))
  {
    if s != "" && IsWhitespace(s[0]) {
      assert s == [s[0]] + s[1..];
      MarkersIgnoreFront(s[0], s[1..]);
      MarkersIgnoreTrimStart(s[1..]);
    }
  }

  lemma MarkersIgnoreBlanks(s: string)
    ensures NoMarkers(Pieces(Trim(s))) <==> NoMarkers(Pieces(s))
  {
    MarkersIgnoreTrimEnd(s);
    MarkersIgnoreTrimStart(TrimEnd(s));
  }

  lemma {:induction false} StartIsPlain(s: string)
    requires !HasCrlf(s)
    ensures !HasCrlf(TrimStart(s))
  {
    if s != "" && IsWhitespace(s[0]) {
      HasCrlfConcat([s[0]], s[1..]);
      assert s == [s[0]] + s[1..];
      StartIsPlain(s[1..]);
    }
  }

  lemma TrimmedIsClean(s: string)
    requires !HasCrlf(s)
    ensures CleanBody(Trim(s))
  {
    PlainPrefix(TrimEnd(s), s);
    StartIsPlain(TrimEnd(s));
    TrimTwice(s);
  }

  // --- the command ------------------------------------------------------------------------------

  // `count_hosts_entries`
  function CountEntries(lines: seq<string>): nat {
    if lines == [] then 0
    else
      var t := Trim(lines[0]);
      (if t != "" && t[0] != '#' && |Words(t)| >= 2 then 1 else 0) + CountEntries(lines[1..])
  }

  // It counts, one by one, the lines with two words or more that are no comments.
  lemma CountOne(line: string)
    ensures var t := Trim(line);
            CountEntries([line]) == if |t| > 0 && t[0] as int != 35 && |Words(t)| > 1 then 1 else 0
  {
    assert [line][1..] == [];
  }

  lemma {:induction false} CountAppend(a: seq<string>, b: seq<string>)
    ensures CountEntries([]) == 0 && CountEntries(a + b) == CountEntries(a) + CountEntries(b)
  {
    if a == [] {
      assert a + b == b;
    } else {
      assert (a + b)[1..] == a[1..] + b;
      CountAppend(a[1..], b);
    }
  }

  // The body that a channel text turns into.
  ghost predicate Becomes(raw: string, isAddress: string -> bool, body: string) {
    var lines := Lines(Pieces(Trim(Norm(raw))));
    exists out: seq<string> ::
      && |out| == |lines| && body == Trim(Join(out))
      && forall i :: 0 <= i < |out| ==> Sanitized(lines[i], isAddress) == Some(out[i])
  }

  lemma BodiesAreClean(raw: string, isAddress: string -> bool, body: string)
    requires Becomes(raw, isAddress, body)
    ensures CleanBody(body) && (NoMarkers(Pieces(body)) <==> NoMarkers(Pieces(raw)))
  {
    var lines := Lines(Pieces(Trim(Norm(raw))));
    var out: seq<string> :| |out| == |lines| && body == Trim(Join(out))
                            && forall i :: 0 <= i < |out| ==> Sanitized(lines[i], isAddress) == Some(out[i]);
    SanitizedBody(Trim(Norm(raw)), isAddress, out);
    TrimmedIsClean(Join(out));
    MarkersIgnoreBlanks(Join(out));
    MarkersIgnoreBlanks(Norm(raw));
    MarkersIgnoreNorm(raw);
  }

  datatype ApplyError = NoRecords | BadLine(at: nat) | NotApplied(error: HostsFile.FileError)

  // Why a text of the channel is refused.
  ghost predicate Unprepared(raw: string, isAddress: string -> bool, error: ApplyError) {
    var lines := Lines(Pieces(Trim(Norm(raw))));
    match error
    case NoRecords => CountEntries(lines) == 0
    case BadLine(at) => at < |lines| && Sanitized(lines[at], isAddress) == None
    case NotApplied(_) => false
  }

  // From the text of the channel to the body, or why there is none.
  method PrepareBody(raw: string, isAddress: string -> bool) returns (r: Result<string, ApplyError>)
    ensures r.Ok? ==> Becomes(raw, isAddress, r.value)
    ensures r == Err(NoRecords) <==> CountEntries(Lines(Pieces(Trim(Norm(raw))))) == 0
    ensures r.Err? ==> Unprepared(raw, isAddress, r.error)
  {
    var cleaned := Trim(Norm(raw));
    if CountEntries(Lines(Pieces(cleaned))) == 0 {
      return Err(NoRecords);
    }
    var sanitized := SanitizeHostsBody(cleaned, isAddress);
    r := match sanitized
      case Ok(text) => Ok(Trim(text))
      case Err(at) => Err(BadLine(at));
  }

  // Ok leaves in the file its text with the body that the channel text becomes; and the next run
  // will accept the file exactly if the channel text has no marker line.
  method HostsApply(h: HostsFile.HostsFile, raw: string, isAddress: string -> bool) returns (r: Result<nat, ApplyError>, ghost body: string)
    requires HostsFile.AreBytes(h.file.content)
    modifies h`backup, h`answers, h.file
    ensures r.Ok? ==>
              var text := HostsFile.Decode(old(h.file.content));
              && Becomes(raw, isAddress, body) && r.value == CountEntries(Lines(Pieces(body)))
              && Managed(text).Ok? && HostsFile.Encode(Applied(text, body)) == Ok(h.file.content) && h.Ahead() == old(h.Ahead())
              && (Managed(Applied(text, body)).Ok? <==> NoMarkers(Pieces(raw)))
    ensures r.Err? ==> Unprepared(raw, isAddress, r.error) || (r.error.NotApplied? && Becomes(raw, isAddress, body))
    // When no call fails, only a damaged file or a text that cannot be written is refused.
    ensures r.Err? && r.error.NotApplied? && old(h.Ahead()) == 0 ==>
              var text := HostsFile.Decode(old(h.file.content));
              Managed(text).Err? || HostsFile.Encode(Applied(text, body)).Err?
    ensures r.Err? && (r.error.NotApplied? ==> !r.error.error.Broken?) ==> h.file.content == old(h.file.content)
    ensures r.Ok? ==> h.backup.Some?
    ensures h.backup != old(h.backup) ==> BackedUp(old(h.backup), HostsFile.Decode(old(h.file.content)), h.backup)
  {
    body := "";
    var prepared := PrepareBody(raw, isAddress);
    if prepared.Err? {
      return Err(prepared.error), body;
    }
    body := prepared.value;
    BodiesAreClean(raw, isAddress, body);
    ghost var text := HostsFile.Decode(h.file.content);
    var applied := h.Apply(prepared.value);
    if applied.Err? {
      return Err(NotApplied(applied.error)), body;
    }
    ApplyIsAccepted(text, body);
    return Ok(CountEntries(Lines(Pieces(prepared.value)))), body;
  }

  // A backup was taken: the original, without its block if it had one.
  ghost predicate BackedUp(before: Option<Bytes>, text: string, backup: Option<Bytes>) {
    && before.None? && backup.Some? && HostsFile.AreBytes(backup.value) && Managed(text).Ok?
    && HostsFile.Decode(backup.value) == if Managed(text).value.blocks == 1 then Unlines(Managed(text).value.foreign) else text
  }

  // When no call fails, a text of the channel is refused for one of these reasons.
  ghost predicate Refuses(text: string, raw: string, isAddress: string -> bool) {
    || Managed(text).Err?
    || (exists e :: Unprepared(raw, isAddress, e))
    || (exists body :: Becomes(raw, isAddress, body) && HostsFile.Encode(Applied(text, body)).Err?)
  }

  // And the second of two also when the first has put markers into the file.
  ghost predicate RefusesEither(text: string, first: string, second: string, isAddress: string -> bool) {
    Refuses(text, first, isAddress) || !NoMarkers(Pieces(first)) || Refuses(text, second, isAddress)
  }

  // The second text replaces the first one.
  method ApplyTwice(h: HostsFile.HostsFile, first: string, second: string, isAddress: string -> bool) returns (done: bool, ghost body: string)
    requires HostsFile.AreBytes(h.file.content) && h.backup == None
    modifies h`backup, h`answers, h.file
    ensures done ==>
              var text := HostsFile.Decode(old(h.file.content));
              && NoMarkers(Pieces(first)) && Managed(text).Ok?
              && CleanBody(body) && (NoMarkers(Pieces(body)) <==> NoMarkers(Pieces(second)))
              && HostsFile.Encode(Applied(text, body)) == Ok(h.file.content) && BackedUp(None, text, h.backup)
              && h.Ahead() == old(h.Ahead())
    ensures !done && old(h.Ahead()) == 0 ==> RefusesEither(HostsFile.Decode(old(h.file.content)), first, second, isAddress)
  {
    ghost var text := HostsFile.Decode(h.file.content);
    body := "";
    var one;
    ghost var body1;
    one, body1 := HostsApply(h, first, isAddress);
    if one.Err? {
      return false, body;
    }
    BodiesAreClean(first, isAddress, body1);
    done, body := ApplyAgain(h, second, isAddress, text, body1);
  }

  method ApplyAgain(h: HostsFile.HostsFile, second: string, isAddress: string -> bool, ghost text: string, ghost first: string)
      returns (done: bool, ghost body: string)
    requires HostsFile.AreBytes(h.file.content) && Managed(text).Ok? && CleanBody(first) && h.backup.Some?
    requires HostsFile.Decode(h.file.content) == Applied(text, first)
    modifies h`backup, h`answers, h.file
    ensures done ==>
              && NoMarkers(Pieces(first)) && CleanBody(body) && (NoMarkers(Pieces(body)) <==> NoMarkers(Pieces(second)))
              && HostsFile.Encode(Applied(text, body)) == Ok(h.file.content) && h.backup == old(h.backup)
              && h.Ahead() == old(h.Ahead())
    ensures !done && old(h.Ahead()) == 0 ==> !NoMarkers(Pieces(first)) || Refuses(text, second, isAddress)
  {
    var two;
    two, body := HostsApply(h, second, isAddress);
    done := two.Ok?;
    if done {
      AgainMeans(text, first, second, isAddress, body);
    } else if old(h.Ahead()) == 0 {
      AgainRefused(text, first, second, isAddress, body, two.error);
    }
  }

  lemma AgainMeans(text: string, first: string, second: string, isAddress: string -> bool, body: string)
    requires Managed(text).Ok? && CleanBody(first) && Managed(Applied(text, first)).Ok? && Becomes(second, isAddress, body)
    ensures NoMarkers(Pieces(first)) && CleanBody(body) && (NoMarkers(Pieces(body)) <==> NoMarkers(Pieces(second)))
    ensures Applied(Applied(text, first), body) == Applied(text, body)
  {
    ApplyIsAccepted(text, first);
    LastApplyWins(text, first, body);
    BodiesAreClean(second, isAddress, body);
  }

  lemma AgainRefused(text: string, first: string, second: string, isAddress: string -> bool, body: string, error: ApplyError)
    requires Managed(text).Ok? && CleanBody(first)
    requires Unprepared(second, isAddress, error)
             || (Becomes(second, isAddress, body)
                 && (Managed(Applied(text, first)).Err? || HostsFile.Encode(Applied(Applied(text, first), body)).Err?))
    ensures !NoMarkers(Pieces(first)) || Refuses(text, second, isAddress)
  {
    ApplyIsAccepted(text, first);
    if NoMarkers(Pieces(first)) {
      LastApplyWins(text, first, body);
    }
  }

  // Whatever the channel sent in between, when all three commands answer Ok the foreign lines of
  // the original are left, and the backup holds the original without a block.
  method ApplyTwiceAndClear(h: HostsFile.HostsFile, first: string, second: string, isAddress: string -> bool) returns (done: bool)
    requires HostsFile.AreBytes(h.file.content) && h.backup == None
    modifies h`backup, h`answers, h.file
    ensures done ==>
              var text := HostsFile.Decode(old(h.file.content));
              && NoMarkers(Pieces(first)) && NoMarkers(Pieces(second)) && Managed(text).Ok?
              && HostsFile.Encode(Endings(HasCrlf(text), Kept(text) + "\n")) == Ok(h.file.content)
              && BackedUp(None, text, h.backup)
    ensures !done && old(h.Ahead()) == 0 ==>
              var text := HostsFile.Decode(old(h.file.content));
              || RefusesEither(text, first, second, isAddress) || !NoMarkers(Pieces(second))
              || (Managed(text).Ok? && HostsFile.Encode(Endings(HasCrlf(text), Kept(text) + "\n")).Err?)
  {
    ghost var text := HostsFile.Decode(h.file.content);
    ghost var body;
    done, body := ApplyTwice(h, first, second, isAddress);
    if !done {
      return;
    }
    done := ClearAfter(h, text, body);
  }

  method ClearAfter(h: HostsFile.HostsFile, ghost text: string, ghost body: string) returns (done: bool)
    requires HostsFile.AreBytes(h.file.content) && Managed(text).Ok? && CleanBody(body)
    requires HostsFile.Decode(h.file.content) == Applied(text, body)
    modifies h`answers, h.file
    ensures done ==>
              NoMarkers(Pieces(body)) && HostsFile.Encode(Endings(HasCrlf(text), Kept(text) + "\n")) == Ok(h.file.content)
    ensures !done && old(h.Ahead()) == 0 ==>
              !NoMarkers(Pieces(body)) || HostsFile.Encode(Endings(HasCrlf(text), Kept(text) + "\n")).Err?
  {
    ApplyIsAccepted(text, body);
    if NoMarkers(Pieces(body)) {
      ClearUndoesApply(text, body);
    }
    var cleared := h.Clear();
    done := cleared.Ok?;
  }
}
