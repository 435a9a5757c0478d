/**
  Putting the managed block into the text of the hosts file and taking it out again, as the
  hosts functions of `src-tauri/src/dpi.rs` do, and what that leaves of everybody else's lines.
 */
module HostsBlock {
  import opened Common
  import opened Text
  import opened LineText
  import opened HostsMarkers

  function Managed(text: string): Result<Scan, HostsError> {
    Conclude(Walk(NOTHING_SEEN, Pieces(text)))
  }

  // What is kept of a text with its block taken out.
  function Kept(text: string): string
    requires Managed(text).Ok?
  {
    TrimHostsEnd(Unlines(Managed(text).value.foreign))
  }

  function Head(kept: string): string {
    if kept == "" then "" else kept + "\n\n"
  }

  function Render(kept: string, body: string): string {
    Head(kept) + (BEGIN_MARKER + "\n") + (body + "\n") + (END_MARKER + "\n")
  }

  // The block as it stands in the file, behind an empty line if anything is before it.
  lemma BlockText(kept: string, body: string)
    ensures Render("", body) ==
            "# >>> 190x4 Ninety (DPI hosts) >>>\n" + body + "\n# <<< 190x4 Ninety (DPI hosts) <<<\n"
    ensures kept != "" ==> Render(kept, body) == kept + "\n\n" + Render("", body)
  {
    assert BEGIN_MARKER + "\n" == "# >>> 190x4 Ninety (DPI hosts) >>>\n";
    assert "\n" + (END_MARKER + "\n") == "\n# <<< 190x4 Ninety (DPI hosts) <<<\n";
    assert Head("") + (BEGIN_MARKER + "\n") == BEGIN_MARKER + "\n";
  }

  // The text after `dpi_hosts_apply`.
  function Applied(text: string, body: string): string
    requires Managed(text).Ok?
  {
    Endings(HasCrlf(text), Render(Kept(text), body))
  }

  // The text after `dpi_hosts_clear`.
  function Cleared(text: string): string
    requires Managed(text).Ok?
  {
    if Managed(text).value.blocks == 0 then text else Endings(HasCrlf(text), Kept(text) + "\n")
  }

  // No carriage return at the end of a line.
  predicate CleanBody(body: string) {
    !HasCrlf(body) && (body != "" ==> body[|body| - 1] != '\r')
  }

  // --- markers do not depend on blanks around them ----------------------------------------------

  lemma {:induction false} MarkersIgnoreTail(s: string, c: char)
    requires IsWhitespace(c)
    ensures NoMarkers(Pieces(s + [c])) <==> NoMarkers(Pieces(s))
  {
    PiecesOn(s, c);
    var ps := Pieces(s);
    if ps == [] || Ended(ps[|ps| - 1]) {
      NoMarkersOn(ps, [c]);
      assert [] + [c] == [c];
      TrimWhitespace([], c);
      BlankIsNoMarker();
    } else {
      var init, last := ps[..|ps| - 1], ps[|ps| - 1];
      assert ps == init + [last];
      NoMarkersOn(init, last);
      NoMarkersOn(init, last + [c]);
      TrimWhitespace(last, c);
    }
  }

  lemma BlankIsNoMarker()
    ensures !IsMarker("")
  {
    assert |BEGIN_MARKER| > 0 && |END_MARKER| > 0;
    assert Trim("") == "";
  }

  lemma {:induction false} MarkersIgnoreTrim(s: string)
    requires NoMarkers(Pieces(s))
    ensures NoMarkers(Pieces(TrimHostsEnd(s)))
    decreases |s|
  {
    if s != "" && IsTail(s[|s| - 1]) {
      var rest := s[..|s| - 1];
      assert s == rest + [s[|s| - 1]];
      MarkersIgnoreTail(rest, s[|s| - 1]);
      MarkersIgnoreTrim(rest);
    }
  }

  lemma {:induction false} MarkersInUnlines(ps: seq<string>)
    requires ArePieces(ps)
    ensures NoMarkers(Pieces(Unlines(ps))) <==> NoMarkers(ps)
    ensures Unlines(ps) == "" || Ended(Unlines(ps))
    decreases |ps|
  {
    if ps == [] {
      assert Unlines(ps) == "" && Pieces("") == [];
    } else {
      var init, p := ps[..|ps| - 1], ps[|ps| - 1];
      assert ps == init + [p];
      PiecesInit(init, p);
      MarkersInUnlines(init);
      MarkersInLine(Unlines(init), p);
      UnlinesOn(init, p);
      NoMarkersOn(init, p);
    }
  }

  lemma PiecesInit(init: seq<string>, p: string)
    requires ArePieces(init + [p])
    ensures ArePieces(init) && IsPiece(p)
  {
    var ps := init + [p];
    assert ps[|init|] == p;
    assert forall i :: 0 <= i < |init| ==> ps[i] == init[i];
  }

  lemma UnlinesOn(ps: seq<string>, p: string)
    ensures Unlines(ps + [p]) == Unlines(ps) + (Chop(p) + "\n")
  {
    assert (ps + [p])[..|ps|] == ps;
    assert Unlines(ps) + Chop(p) + "\n" == Unlines(ps) + (Chop(p) + "\n");
  }

  lemma MarkersInLine(text: string, p: string)
    requires IsPiece(p) && (text == "" || Ended(text))
    ensures NoMarkers(Pieces(text + (Chop(p) + "\n"))) <==> NoMarkers(Pieces(text)) && !IsMarker(p)
    ensures Ended(text + (Chop(p) + "\n"))
  {
    ChopIsBlanks(p);
    PiecesOfLine(text, p);
    NoMarkersOn(Pieces(text), Chop(p) + "\n");
  }

  lemma PiecesOfLine(text: string, p: string)
    requires IsPiece(p) && (text == "" || Ended(text))
    ensures Pieces(text + (Chop(p) + "\n")) == Pieces(text) + [Chop(p) + "\n"]
  {
    ChopHasNoFeed(p);
    OnePiece(Chop(p));
    PiecesSplit(text, Chop(p) + "\n");
  }

  lemma {:induction false} PlainIsItsCrlf(line: string)
    requires forall i :: 0 <= i < |line| ==> line[i] != '\n'
    ensures Crlf(line) == line
    decreases |line|
  {
    if line != "" {
      var rest := line[..|line| - 1];
      PlainIsItsCrlf(rest);
      assert line == rest + [line[|line| - 1]];
    }
  }

  lemma CrlfIsBlanks(p: string)
    requires IsPiece(p)
    ensures IsMarker(Crlf(p)) <==> IsMarker(p)
  {
    if Ended(p) {
      var line := p[..|p| - 1];
      PlainIsItsCrlf(line);
      assert p == line + ['\n'] && Crlf(p) == line + ['\r'] + ['\n'];
      TrimWhitespace(line, '\n');
      TrimWhitespace(line + ['\r'], '\n');
      TrimWhitespace(line, '\r');
    } else {
      PlainIsItsCrlf(p);
    }
  }

  lemma {:induction false} MarkersInCrlf(ps: seq<string>)
    requires forall p :: p in ps ==> IsPiece(p)
    ensures NoMarkers(CrlfEach(ps)) <==> NoMarkers(ps)
    decreases |ps|
  {
    if ps != [] {
      var init, p := ps[..|ps| - 1], ps[|ps| - 1];
      MarkersInCrlf(init);
      assert ps == init + [p] && p in ps;
      MarkersInCrlfOn(init, p);
    }
  }

  lemma MarkersInCrlfOn(ps: seq<string>, p: string)
    requires IsPiece(p) && (NoMarkers(CrlfEach(ps)) <==> NoMarkers(ps))
    ensures NoMarkers(CrlfEach(ps + [p])) <==> NoMarkers(ps + [p])
  {
    assert (ps + [p])[..|ps|] == ps;
    CrlfIsBlanks(p);
    NoMarkersOn(ps, p);
    NoMarkersOn(CrlfEach(ps), Crlf(p));
  }

  lemma MarkersInEndings(crlf: bool, s: string)
    ensures NoMarkers(Pieces(Endings(crlf, s))) <==> NoMarkers(Pieces(s))
  {
    PiecesOfCrlf(s);
    PiecesArePieces(s);
    MarkersInCrlf(Pieces(s));
  }

  // --- what the foreign pieces are --------------------------------------------------------------

  lemma {:induction false} ForeignPieces(ps: seq<string>)
    requires ArePieces(ps)
    ensures var s := Walk(NOTHING_SEEN, ps);
            s.Scan? ==> ArePieces(s.foreign) && NoMarkers(s.foreign) && forall p :: p in s.foreign ==> p in ps
    decreases |ps|
  {
    if ps != [] {
      var init, p := ps[..|ps| - 1], ps[|ps| - 1];
      ForeignPieces(init);
      var s := Walk(NOTHING_SEEN, init);
      if s.Scan? {
        NoMarkersOn(s.foreign, p);
        forall q | q in s.foreign
          ensures q in ps && Ended(q)
        {
          var i :| 0 <= i < |init| && init[i] == q;
          assert ps[i] == q;
        }
      }
    }
  }

  ghost function ForeignText(text: string): string
    requires Managed(text).Ok?
  {
    Concat(Managed(text).value.foreign)
  }

  lemma KeptIsNorm(text: string)
    requires Managed(text).Ok?
    ensures Kept(text) == Norm(TrimHostsEnd(ForeignText(text)))
  {
    PiecesArePieces(text);
    ForeignPieces(Pieces(text));
    TrimmedLines(Managed(text).value.foreign);
  }

  lemma KeptTextHasNoMarkers(text: string)
    requires Managed(text).Ok?
    ensures NoMarkers(Pieces(Kept(text)))
  {
    var foreign := Managed(text).value.foreign;
    PiecesArePieces(text);
    ForeignPieces(Pieces(text));
    MarkersInUnlines(foreign);
    MarkersIgnoreTrim(Unlines(foreign));
  }

  lemma KeptHasNoMarkers(text: string)
    requires Managed(text).Ok?
    ensures NoMarkers(Pieces(Head(Kept(text))))
  {
    KeptTextHasNoMarkers(text);
    HeadHasNoMarkers(Kept(text));
  }

  lemma HeadHasNoMarkers(kept: string)
    requires NoMarkers(Pieces(kept))
    ensures NoMarkers(Pieces(Head(kept)))
  {
    MarkersIgnoreTail(kept, '\n');
    MarkersIgnoreTail(kept + ['\n'], '\n');
    assert kept + ['\n'] + ['\n'] == kept + "\n\n";
  }

  lemma KeptIsPlain(text: string)
    requires Managed(text).Ok? && !HasCrlf(text)
    ensures !HasCrlf(ForeignText(text)) && Kept(text) == TrimHostsEnd(ForeignText(text)) && !HasCrlf(Kept(text))
  {
    var foreign := Managed(text).value.foreign;
    PiecesArePieces(text);
    ForeignPieces(Pieces(text));
    PiecesOfPlain(text);
    PlainPieces(foreign);
    KeptIsNorm(text);
    PlainPrefix(TrimHostsEnd(ForeignText(text)), ForeignText(text));
    NormOfPlain(TrimHostsEnd(ForeignText(text)));
  }

  lemma PlainPrefix(t: string, s: string)
    requires t <= s && !HasCrlf(s)
    ensures !HasCrlf(t)
  {
    HasCrlfConcat(t, s[|t|..]);
    assert s == t + s[|t|..];
  }

  // Foreign bytes survive, up to the trimmed end, exactly when the line endings left among them
  // are all of the kind the file is written back with: always when it has no CRLF at all, and
  // otherwise if no line feed stands alone.
  lemma ForeignTextSurvives(text: string)
    requires Managed(text).Ok?
    ensures Endings(HasCrlf(text), Kept(text)) == TrimHostsEnd(ForeignText(text))
        <==> (HasCrlf(text) ==> AllCrlf(TrimHostsEnd(ForeignText(text))))
  {
    KeptIsNorm(text);
    if !HasCrlf(text) {
      KeptIsPlain(text);
    }
    CrlfOfNorm(TrimHostsEnd(ForeignText(text)));
  }
}
