/**
  The laws of the managed hosts block: applying replaces what was applied before, clearing undoes
  it, and neither loses track of the block.
 */
module HostsTheorems {
  import opened Common
  import opened Text
  import opened LineText
  import opened HostsMarkers
  import opened HostsBlock

  // --- the pieces of a rendered text ------------------------------------------------------------

  function BeginLine(crlf: bool): string { BEGIN_MARKER + if crlf then "\r\n" else "\n" }
  function EndLine(crlf: bool): string { END_MARKER + if crlf then "\r\n" else "\n" }

  lemma MarkersAreLines()
    ensures forall i :: 0 <= i < |BEGIN_MARKER| ==> BEGIN_MARKER[i] != '\n'
    ensures forall i :: 0 <= i < |END_MARKER| ==> END_MARKER[i] != '\n'
    ensures BEGIN_MARKER != "" && !IsWhitespace(BEGIN_MARKER[0]) && !IsWhitespace(BEGIN_MARKER[|BEGIN_MARKER| - 1])
    ensures END_MARKER != "" && !IsWhitespace(END_MARKER[0]) && !IsWhitespace(END_MARKER[|END_MARKER| - 1])
  {
  }

  lemma MarkerLines(crlf: bool)
    ensures IsBegin(BeginLine(crlf)) && IsEnd(EndLine(crlf))
    ensures Pieces(Endings(crlf, BEGIN_MARKER + "\n")) == [BeginLine(crlf)]
    ensures Pieces(Endings(crlf, END_MARKER + "\n")) == [EndLine(crlf)]
  {
    var begin, end := BEGIN_MARKER, END_MARKER;
    MarkersAreLines();
    MarkerLine(begin, crlf);
    MarkerLine(end, crlf);
  }

  lemma MarkerLine(marker: string, crlf: bool)
    requires marker != "" && !IsWhitespace(marker[0]) && !IsWhitespace(marker[|marker| - 1])
    requires forall i :: 0 <= i < |marker| ==> marker[i] != '\n'
    ensures Trim(marker + if crlf then "\r\n" else "\n") == marker
    ensures Pieces(Endings(crlf, marker + "\n")) == [marker + if crlf then "\r\n" else "\n"]
  {
    assert Trim(marker) == marker;
    TrimWhitespace(marker, '\n');
    TrimWhitespace(marker, '\r');
    TrimWhitespace(marker + ['\r'], '\n');
    assert marker + ['\r'] + ['\n'] == marker + "\r\n";
    OnePiece(marker);
    PiecesOfCrlf(marker + "\n");
    PlainIsItsCrlf(marker);
    CrlfOn(marker, '\n');
    CrlfEachOn([], marker + "\n");
    assert [] + [marker + "\n"] == [marker + "\n"];
  }

  lemma EndingsSplit(crlf: bool, a: string, b: string)
    requires a == "" || Ended(a)
    ensures Endings(crlf, a + b) == Endings(crlf, a) + Endings(crlf, b)
    ensures Endings(crlf, a) == "" || Ended(Endings(crlf, a))
    ensures Pieces(Endings(crlf, a + b)) == Pieces(Endings(crlf, a)) + Pieces(Endings(crlf, b))
  {
    CrlfConcat(a, b);
    if a != "" {
      EndedCrlf(a);
    }
    PiecesSplit(Endings(crlf, a), Endings(crlf, b));
  }

  lemma RenderedPieces(crlf: bool, kept: string, body: string)
    ensures Pieces(Endings(crlf, Render(kept, body))) ==
            Pieces(Endings(crlf, Head(kept))) + [BeginLine(crlf)] + Pieces(Endings(crlf, body + "\n")) + [EndLine(crlf)]
  {
    var head, begin, middle, end := Head(kept), BEGIN_MARKER + "\n", body + "\n", END_MARKER + "\n";
    MarkerLines(crlf);
    EndingsSplit(crlf, head + begin + middle, end);
    EndingsSplit(crlf, head + begin, middle);
    EndingsSplit(crlf, head, begin);
  }

  // --- what apply leaves ------------------------------------------------------------------------

  // The text after an apply is accepted again if and only if the body has no marker line; the
  // sanitiser lets such comment lines through.
  lemma ApplyIsAccepted(text: string, body: string)
    requires Managed(text).Ok?
    ensures Managed(Applied(text, body)).Ok? <==> NoMarkers(Pieces(body))
    ensures NoMarkers(Pieces(body)) ==>
              var crlf := HasCrlf(text);
              Managed(Applied(text, body)) ==
                Ok(Scan(Pieces(Endings(crlf, Head(Kept(text)))), Pieces(Endings(crlf, body + "\n")), 1, false))
  {
    var crlf, kept := HasCrlf(text), Kept(text);
    var x, y := Pieces(Endings(crlf, Head(kept))), Pieces(Endings(crlf, body + "\n"));
    RenderedPieces(crlf, kept, body);
    KeptHasNoMarkers(text);
    MarkersInEndings(crlf, Head(kept));
    MarkersInBody(crlf, body);
    MarkerLines(crlf);
    WalkParts(x, BeginLine(crlf), y, EndLine(crlf));
  }

  lemma MarkersInBody(crlf: bool, body: string)
    ensures NoMarkers(Pieces(Endings(crlf, body + "\n"))) <==> NoMarkers(Pieces(body))
  {
    MarkersInEndings(crlf, body + "\n");
    MarkersIgnoreTail(body, '\n');
  }

  lemma WalkParts(x: seq<string>, begin: string, y: seq<string>, end: string)
    requires NoMarkers(x) && IsBegin(begin) && IsEnd(end)
    ensures Conclude(Walk(NOTHING_SEEN, x + [begin] + y + [end])).Ok? <==> NoMarkers(y)
    ensures NoMarkers(y) ==> Walk(NOTHING_SEEN, x + [begin] + y + [end]) == Scan(x, y, 1, false)
  {
    if NoMarkers(y) {
      WalkAround(x, begin, y, end, []);
      assert x + [begin] + y + [end] + [] == x + [begin] + y + [end];
      assert x + [] == x;
    } else {
      MarkerInsideIsRefused(x, begin, y, end);
    }
  }

  lemma PlainRender(kept: string, body: string)
    requires !HasCrlf(kept) && (kept != "" ==> kept[|kept| - 1] != '\r') && CleanBody(body)
    ensures !HasCrlf(Render(kept, body)) && !HasCrlf(Head(kept))
  {
    var begin, end := BEGIN_MARKER + "\n", END_MARKER + "\n";
    MarkersArePlain();
    assert !HasCrlf("\n\n") && !HasCrlf("\n");
    HasCrlfConcat(kept, "\n\n");
    HasCrlfConcat(Head(kept), begin);
    HasCrlfConcat(body, "\n");
    HasCrlfConcat(Head(kept) + begin, body + "\n");
    HasCrlfConcat(Head(kept) + begin + (body + "\n"), end);
  }

  lemma MarkersArePlain()
    ensures !HasCrlf(BEGIN_MARKER + "\n") && !HasCrlf(END_MARKER + "\n")
  {
  }

  lemma CrlfShows(kept: string, body: string)
    ensures HasCrlf(Crlf(Render(kept, body)))
  {
    var front := Head(kept) + (BEGIN_MARKER + "\n") + (body + "\n") + END_MARKER;
    assert Render(kept, body) == front + ['\n'];
    CrlfOn(front, '\n');
    var t := Crlf(front) + "\r\n";
    assert t[|t| - 2] == '\r' && t[|t| - 2 + 1] == '\n';
  }

  // A file keeps its kind of line endings.
  lemma ApplyKeepsEndings(text: string, body: string)
    requires Managed(text).Ok? && (HasCrlf(text) || CleanBody(body))
    ensures HasCrlf(Applied(text, body)) <==> HasCrlf(text)
  {
    if HasCrlf(text) {
      CrlfShows(Kept(text), body);
    } else {
      KeptIsPlain(text);
      PlainRender(Kept(text), body);
    }
  }

  // What is kept of a text whose foreign part is `Head(kept)` is `kept`.
  lemma KeptOfApplied(text: string, body: string)
    requires Managed(text).Ok? && NoMarkers(Pieces(body)) && (HasCrlf(text) || CleanBody(body))
    ensures Managed(Applied(text, body)).Ok? && Kept(Applied(text, body)) == Kept(text)
  {
    ApplyIsAccepted(text, body);
    var crlf, kept, next := HasCrlf(text), Kept(text), Applied(text, body);
    KeptIsNorm(next);
    PiecesArePieces(Endings(crlf, Head(kept)));
    assert ForeignText(next) == Endings(crlf, Head(kept));
    TrimOfNorm(Endings(crlf, Head(kept)));
    if crlf {
      NormOfCrlf(Head(kept));
    } else {
      KeptIsPlain(text);
      PlainRender(kept, body);
      NormOfPlain(Head(kept));
    }
    TrimOfHead(kept);
  }

  lemma TrimOfHead(kept: string)
    requires kept != "" ==> !IsTail(kept[|kept| - 1])
    ensures TrimHostsEnd(Head(kept)) == kept
  {
    if kept != "" {
      TrimTail(kept, '\n');
      TrimTail(kept + ['\n'], '\n');
      assert Head(kept) == kept + ['\n'] + ['\n'];
    }
  }

  // Applying twice is applying the second body.
  lemma LastApplyWins(text: string, first: string, second: string)
    requires Managed(text).Ok? && NoMarkers(Pieces(first)) && (HasCrlf(text) || CleanBody(first))
    ensures Managed(Applied(text, first)).Ok? && Applied(Applied(text, first), second) == Applied(text, second)
  {
    KeptOfApplied(text, first);
    ApplyKeepsEndings(text, first);
  }

  // Clearing after an apply leaves the foreign lines, trimmed at the end, in the file's own kind
  // of line endings; and what is left has no block and does not change any more.
  lemma ClearUndoesApply(text: string, body: string)
    requires Managed(text).Ok? && NoMarkers(Pieces(body)) && (HasCrlf(text) || CleanBody(body))
    ensures Managed(Applied(text, body)).Ok?
    ensures Cleared(Applied(text, body)) == Endings(HasCrlf(text), Kept(text) + "\n")
    ensures var cleared := Cleared(Applied(text, body));
            Managed(cleared).Ok? && Managed(cleared).value.blocks == 0 && Cleared(cleared) == cleared
  {
    ApplyIsAccepted(text, body);
    KeptOfApplied(text, body);
    ApplyKeepsEndings(text, body);
    var crlf, kept := HasCrlf(text), Kept(text);
    PlainClear(crlf, text);
  }

  lemma PlainClear(crlf: bool, text: string)
    requires Managed(text).Ok?
    ensures var cleared := Endings(crlf, Kept(text) + "\n"); Managed(cleared).Ok? && Managed(cleared).value.blocks == 0
  {
    var cleared := Endings(crlf, Kept(text) + "\n");
    KeptTextHasNoMarkers(text);
    MarkersIgnoreTail(Kept(text), '\n');
    MarkersInEndings(crlf, Kept(text) + "\n");
    WalkPlain(NOTHING_SEEN, Pieces(cleared));
  }

  // `dpi_hosts_status` after an apply: the block is there and reads as the body did.
  lemma StatusSeesTheBody(text: string, body: string)
    requires Managed(text).Ok? && NoMarkers(Pieces(body)) && (HasCrlf(text) || CleanBody(body))
    ensures var s := Managed(Applied(text, body));
            s.Ok? && s.value.blocks == 1 && Unlines(s.value.inner) == body + "\n"
  {
    ApplyIsAccepted(text, body);
    ShownBody(HasCrlf(text), body);
  }

  lemma ShownBody(crlf: bool, body: string)
    requires crlf || CleanBody(body)
    ensures Unlines(Pieces(Endings(crlf, body + "\n"))) == body + "\n"
  {
    var line := body + "\n";
    var shown := Endings(crlf, line);
    PiecesArePieces(shown);
    UnlinesIsNorm(Pieces(shown));
    if crlf {
      EndedCrlf(line);
      NormOfCrlf(line);
    } else {
      HasCrlfConcat(body, "\n");
      assert !HasCrlf("\n");
      NormOfPlain(line);
    }
    LastPiece(shown);
    assert Norm(shown) + "" == Norm(shown);
  }
}
