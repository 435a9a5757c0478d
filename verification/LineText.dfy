/**
  Lines and line endings of the text files that `src-tauri/src/dpi.rs` rewrites: how it takes
  them apart and puts them together again.
 */
module LineText {
  import opened Text

  // `split_inclusive('\n')`: the pieces of a text, each with its line feed.
  function Pieces(s: string): seq<string> {
    if s == "" then [] else Grow(Pieces(s[..|s| - 1]), s[|s| - 1])
  }

  // One more character of text.
  function Grow(ps: seq<string>, c: char): seq<string> {
    if ps == [] || Ended(ps[|ps| - 1]) then ps + [[c]] else ps[..|ps| - 1] + [ps[|ps| - 1] + [c]]
  }

  function Concat(ps: seq<string>): string {
    if ps == [] then "" else Concat(ps[..|ps| - 1]) + ps[|ps| - 1]
  }

  predicate Ended(p: string) { p != "" && p[|p| - 1] == '\n' }

  // Not empty, and no line feed but the last character.
  predicate IsPiece(p: string) {
    p != "" && forall i :: 0 <= i < |p| - 1 ==> p[i] != '\n'
  }

  // Only the last piece may lack its line feed.
  predicate ArePieces(ps: seq<string>) {
    && (forall i :: 0 <= i < |ps| ==> IsPiece(ps[i]))
    && (forall i :: 0 <= i < |ps| - 1 ==> Ended(ps[i]))
  }

  // `str::lines` takes off a line feed, with the carriage return before it.
  function Chop(p: string): string {
    if |p| >= 2 && p[|p| - 2..] == "\r\n" then p[..|p| - 2]
    else if Ended(p) then p[..|p| - 1]
    else p
  }

  // `str::lines`
  function Lines(ps: seq<string>): seq<string> {
    seq(|ps|, i requires 0 <= i < |ps| => Chop(ps[i]))
  }

  // The lines, each with a line feed.
  function Unlines(ps: seq<string>): string {
    if ps == [] then "" else Unlines(ps[..|ps| - 1]) + Chop(ps[|ps| - 1]) + "\n"
  }

  lemma {:induction false} PiecesArePieces(s: string)
    ensures ArePieces(Pieces(s))
    ensures Concat(Pieces(s)) == s
    decreases |s|
  {
    if s == "" {
      assert Pieces(s) == [];
    } else {
      var rest, c := s[..|s| - 1], s[|s| - 1];
      assert rest + [c] == s;
      PiecesArePieces(rest);
      PiecesArePiecesOn(rest, c);
    }
  }

  lemma PiecesArePiecesOn(s: string, c: char)
    requires ArePieces(Pieces(s)) && Concat(Pieces(s)) == s
    ensures ArePieces(Pieces(s + [c])) && Concat(Pieces(s + [c])) == s + [c]
  {
    PiecesOn(s, c);
    GrowOn(Pieces(s), c);
  }

  lemma GrowOn(ps: seq<string>, c: char)
    requires ArePieces(ps)
    ensures ArePieces(Grow(ps, c)) && Concat(Grow(ps, c)) == Concat(ps) + [c]
  {
    if ps == [] || Ended(ps[|ps| - 1]) {
      assert (ps + [[c]])[..|ps|] == ps;
    } else {
      var init, last := ps[..|ps| - 1], ps[|ps| - 1];
      assert IsPiece(last + [c]);
      assert Grow(ps, c)[..|init|] == init;
      assert Concat(init) + (last + [c]) == Concat(init) + last + [c];
    }
  }

  lemma PiecesOn(s: string, c: char)
    ensures Pieces(s + [c]) == Grow(Pieces(s), c)
  {
    assert (s + [c])[..|s|] == s;
  }

  lemma ConcatEnds(ps: seq<string>)
    requires ps != [] && ps[|ps| - 1] != ""
    ensures Concat(ps) != "" && (Ended(Concat(ps)) <==> Ended(ps[|ps| - 1]))
  {
  }

  // The last piece of a text tells whether the text has ended its line.
  lemma LastPiece(s: string)
    requires s != ""
    ensures Pieces(s) != [] && (Ended(Pieces(s)[|Pieces(s)| - 1]) <==> Ended(s))
  {
    PiecesArePieces(s);
    ConcatEnds(Pieces(s));
  }

  // Text that goes on after a line feed.
  lemma {:induction false} PiecesSplit(x: string, y: string)
    requires x == "" || Ended(x)
    ensures Pieces(x + y) == Pieces(x) + Pieces(y)
    decreases |y|
  {
    if y == "" {
      assert x + y == x;
    } else {
      var init, c := y[..|y| - 1], y[|y| - 1];
      assert y == init + [c];
      PiecesSplit(x, init);
      PiecesSplitOn(x, init, c);
    }
  }

  lemma PiecesSplitOn(x: string, y: string, c: char)
    requires x == "" || Ended(x)
    requires Pieces(x + y) == Pieces(x) + Pieces(y)
    ensures Pieces(x + (y + [c])) == Pieces(x) + Pieces(y + [c])
  {
    assert x + (y + [c]) == (x + y) + [c];
    PiecesOn(x + y, c);
    PiecesOn(y, c);
    if x != "" {
      LastPiece(x);
    }
    GrowRight(Pieces(x), Pieces(y), c);
  }

  lemma GrowRight(a: seq<string>, b: seq<string>, c: char)
    requires a == [] || Ended(a[|a| - 1])
    ensures Grow(a + b, c) == a + Grow(b, c)
  {
    if b != [] {
      assert (a + b)[..|a + b| - 1] == a + b[..|b| - 1];
    }
  }

  // A line on its own.
  lemma {:induction false} OnePiece(line: string)
    requires forall i :: 0 <= i < |line| ==> line[i] != '\n'
    ensures Pieces(line) == if line == "" then [] else [line]
    ensures Pieces(line + "\n") == [line + "\n"]
    decreases |line|
  {
    if line != "" {
      var rest, c := line[..|line| - 1], line[|line| - 1];
      assert rest + [c] == line;
      OnePiece(rest);
      OnePieceOn(rest, c);
    }
    PiecesOn(line, '\n');
  }

  lemma OnePieceOn(line: string, c: char)
    requires c != '\n' && Pieces(line) == (if line == "" then [] else [line])
    requires forall i :: 0 <= i < |line| ==> line[i] != '\n'
    ensures Pieces(line + [c]) == [line + [c]]
  {
    PiecesOn(line, c);
  }

  // --- line endings -----------------------------------------------------------------------------

  predicate HasCrlf(s: string) {
    exists i :: 0 <= i < |s| - 1 && s[i] == '\r' && s[i + 1] == '\n'
  }

  // `replace("\r\n", "\n")`
  function Norm(s: string): string {
    if |s| < 2 then s
    else if s[|s| - 2..] == "\r\n" then Norm(s[..|s| - 2]) + "\n"
    else Norm(s[..|s| - 1]) + [s[|s| - 1]]
  }

  // `replace('\n', "\r\n")`
  function Crlf(s: string): string {
    if s == "" then ""
    else Crlf(s[..|s| - 1]) + if s[|s| - 1] == '\n' then "\r\n" else [s[|s| - 1]]
  }

  function Endings(crlf: bool, s: string): string {
    if crlf then Crlf(s) else s
  }

  // Every line feed comes with a carriage return.
  predicate AllCrlf(s: string) {
    forall i :: 0 <= i < |s| && s[i] == '\n' ==> i > 0 && s[i - 1] == '\r'
  }

  lemma CrlfOn(s: string, c: char)
    ensures Crlf(s + [c]) == Crlf(s) + if c == '\n' then "\r\n" else [c]
  {
    assert (s + [c])[..|s|] == s;
  }

  lemma NormOn(s: string, c: char)
    requires c != '\n' || s == "" || s[|s| - 1] != '\r'
    ensures Norm(s + [c]) == Norm(s) + [c]
  {
    var t := s + [c];
    assert t[..|s|] == s;
    if s != "" {
      assert t[|t| - 2..][0] == s[|s| - 1] && t[|t| - 2..][1] == c;
    }
  }

  lemma NormOnCrlf(s: string)
    ensures Norm(s + "\r\n") == Norm(s) + "\n"
  {
    var t := s + "\r\n";
    assert t[..|t| - 2] == s && t[|t| - 2..] == "\r\n";
  }

  lemma {:induction false} CrlfOfNorm(s: string)
    ensures Crlf(Norm(s)) == s <==> AllCrlf(s)
    decreases |s|
  {
    if s != "" {
      var rest, c := s[..|s| - 1], s[|s| - 1];
      assert s == rest + [c];
      if c == '\n' && rest != "" && rest[|rest| - 1] == '\r' {
        var front := rest[..|rest| - 1];
        assert s == front + "\r\n";
        CrlfOfNorm(front);
        NormOnCrlf(front);
        CrlfOn(Norm(front), '\n');
        AllCrlfOn(front);
        SameEnd(Crlf(Norm(front)), front, "\r\n");
      } else {
        NormOn(rest, c);
        if c == '\n' {
          CrlfIsAllCrlf(Norm(s));
          assert s[|s| - 1] == '\n';
        } else {
          CrlfOfNorm(rest);
          CrlfOn(Norm(rest), c);
          SameEnd(Crlf(Norm(rest)), rest, [c]);
          AllCrlfOnOther(rest, c);
        }
      }
    }
  }

  lemma SameEnd(a: string, b: string, end: string)
    ensures a + end == b + end <==> a == b
  {
    if a + end == b + end {
      assert a == (a + end)[..|a|];
      assert b == (b + end)[..|b|];
    }
  }

  lemma AllCrlfOn(s: string)
    ensures AllCrlf(s + "\r\n") <==> AllCrlf(s)
  {
    var t := s + "\r\n";
    if AllCrlf(t) {
      forall i | 0 <= i < |s| && s[i] == '\n'
        ensures i > 0 && s[i - 1] == '\r'
      {
        assert t[i] == '\n';
        assert t[i - 1] == '\r';
      }
    }
  }

  lemma AllCrlfOnOther(s: string, c: char)
    requires c != '\n'
    ensures AllCrlf(s + [c]) <==> AllCrlf(s)
  {
    var t := s + [c];
    if AllCrlf(t) {
      forall i | 0 <= i < |s| && s[i] == '\n'
        ensures i > 0 && s[i - 1] == '\r'
      {
        assert t[i] == '\n';
        assert t[i - 1] == '\r';
      }
    }
  }

  lemma {:induction false} CrlfIsAllCrlf(s: string)
    ensures AllCrlf(Crlf(s))
    decreases |s|
  {
    if s != "" {
      var rest, c := s[..|s| - 1], s[|s| - 1];
      CrlfIsAllCrlf(rest);
      if c == '\n' {
        AllCrlfOn(Crlf(rest));
      } else {
        AllCrlfOnOther(Crlf(rest), c);
      }
    }
  }

  lemma {:induction false} NormOfCrlf(s: string)
    ensures Norm(Crlf(s)) == s
    decreases |s|
  {
    if s == "" {
      assert Crlf(s) == "";
    } else {
      var rest, c := s[..|s| - 1], s[|s| - 1];
      assert rest + [c] == s;
      NormOfCrlf(rest);
      NormOfCrlfOn(rest, c);
    }
  }

  lemma NormOfCrlfOn(s: string, c: char)
    requires Norm(Crlf(s)) == s
    ensures Norm(Crlf(s + [c])) == s + [c]
  {
    CrlfOn(s, c);
    if c == '\n' {
      NormOnCrlf(Crlf(s));
    } else {
      NormOn(Crlf(s), c);
    }
  }

  lemma {:induction false} NormOfPlain(s: string)
    requires !HasCrlf(s)
    ensures Norm(s) == s
    decreases |s|
  {
    if s != "" {
      var rest, c := s[..|s| - 1], s[|s| - 1];
      assert s == rest + [c];
      HasCrlfConcat(rest, [c]);
      NormOfPlain(rest);
      NormOn(rest, c);
    }
  }

  lemma {:induction false} CrlfConcat(a: string, b: string)
    ensures Crlf(a + b) == Crlf(a) + Crlf(b)
    decreases |b|
  {
    if b == "" {
      assert a + b == a;
    } else {
      var rest, c := b[..|b| - 1], b[|b| - 1];
      assert a + b == a + rest + [c] && b == rest + [c];
      CrlfConcat(a, rest);
      CrlfOn(a + rest, c);
    }
  }

  lemma HasCrlfConcat(a: string, b: string)
    ensures HasCrlf(a + b) <==>
            HasCrlf(a) || HasCrlf(b) || (a != "" && b != "" && a[|a| - 1] == '\r' && b[0] == '\n')
  {
    if HasCrlf(a) {
      var i :| 0 <= i < |a| - 1 && a[i] == '\r' && a[i + 1] == '\n';
      assert (a + b)[i] == '\r' && (a + b)[i + 1] == '\n';
    }
    if HasCrlf(b) {
      var i :| 0 <= i < |b| - 1 && b[i] == '\r' && b[i + 1] == '\n';
      assert (a + b)[|a| + i] == '\r' && (a + b)[|a| + i + 1] == '\n';
    }
    if a != "" && b != "" && a[|a| - 1] == '\r' && b[0] == '\n' {
      assert (a + b)[|a| - 1] == '\r' && (a + b)[|a| - 1 + 1] == '\n';
    }
    if HasCrlf(a + b) {
      var i :| 0 <= i < |a + b| - 1 && (a + b)[i] == '\r' && (a + b)[i + 1] == '\n';
      if i >= |a| {
        assert b[i - |a|] == '\r' && b[i - |a| + 1] == '\n';
      } else if i < |a| - 1 {
        assert a[i] == '\r' && a[i + 1] == '\n';
      }
    }
  }

  // --- the trimmed end --------------------------------------------------------------------------

  predicate IsTail(c: char) { c == ' ' || c == '\t' || c == '\r' || c == '\n' }

  // `trim_hosts_end`
  function TrimHostsEnd(s: string): (t: string)
    ensures t <= s
    ensures t != "" ==> !IsTail(t[|t| - 1])
  {
    if s != "" && IsTail(s[|s| - 1]) then TrimHostsEnd(s[..|s| - 1]) else s
  }

  lemma TrimTail(s: string, c: char)
    requires IsTail(c)
    ensures TrimHostsEnd(s + [c]) == TrimHostsEnd(s)
  {
    assert (s + [c])[..|s|] == s;
  }

  lemma {:induction false} TrimOfNorm(s: string)
    ensures TrimHostsEnd(Norm(s)) == Norm(TrimHostsEnd(s))
    decreases |s|
  {
    if s != "" {
      var rest, c := s[..|s| - 1], s[|s| - 1];
      assert s == rest + [c];
      if c == '\n' && rest != "" && rest[|rest| - 1] == '\r' {
        var front := rest[..|rest| - 1];
        assert rest == front + ['\r'] && s == front + "\r\n";
        TrimOfNorm(front);
        NormOnCrlf(front);
        TrimTail(rest, '\n');
        TrimTail(front, '\r');
        TrimTail(Norm(front), '\n');
      } else {
        NormOn(rest, c);
        if IsTail(c) {
          TrimOfNorm(rest);
          TrimTail(rest, c);
          TrimTail(Norm(rest), c);
        }
      }
    }
  }

  lemma {:induction false} NormAfterLine(text: string, line: string)
    requires text == "" || Ended(text)
    requires forall i :: 0 <= i < |line| ==> line[i] != '\n'
    ensures Norm(text + line) == Norm(text) + line
    decreases |line|
  {
    if line == "" {
      assert text + line == text;
    } else {
      var rest, c := line[..|line| - 1], line[|line| - 1];
      assert line == rest + [c] && text + line == text + rest + [c];
      NormAfterLine(text, rest);
      NormOn(text + rest, c);
    }
  }

  // Chopping all lines amounts to normalising the text, but for a missing last line feed.
  lemma {:induction false} UnlinesIsNorm(ps: seq<string>)
    requires ArePieces(ps)
    ensures Unlines(ps) == Norm(Concat(ps)) + if ps == [] || Ended(ps[|ps| - 1]) then "" else "\n"
    decreases |ps|
  {
    if ps != [] {
      var init, p := ps[..|ps| - 1], ps[|ps| - 1];
      UnlinesIsNorm(init);
      if init != [] {
        assert Ended(init[|init| - 1]);
        ConcatEnds(init);
      }
      assert Unlines(init) == Norm(Concat(init));
      NormOfPiece(Concat(init), p);
      assert Concat(ps) == Concat(init) + p;
      assert Unlines(ps) == Unlines(init) + Chop(p) + "\n";
      if Ended(p) {
        assert Norm(Concat(ps)) + "" == Norm(Concat(ps));
      } else {
        assert Norm(Concat(init)) + Chop(p) + "" == Norm(Concat(init)) + Chop(p);
      }
    }
  }

  lemma NormOfPiece(text: string, p: string)
    requires text == "" || Ended(text)
    requires IsPiece(p)
    ensures Norm(text + p) == Norm(text) + Chop(p) + if Ended(p) then "\n" else ""
  {
    var line := Chop(p);
    ChopHasNoFeed(p);
    NormAfterLine(text, line);
    ChopCases(p);
    if p == line + "\r\n" {
      NormOfCrlfLine(text, line);
    } else if p == line + "\n" {
      NormOfLine(text, line);
    } else {
      assert Norm(text) + line + "" == Norm(text) + line;
    }
  }

  lemma ChopCases(p: string)
    ensures var line := Chop(p);
            || (p == line + "\r\n" && Ended(p))
            || (p == line + "\n" && Ended(p) && (line == "" || line[|line| - 1] != '\r'))
            || (p == line && !Ended(p))
  {
    var line := Chop(p);
    if |p| >= 2 && p[|p| - 2..] == "\r\n" {
      assert p == line + "\r\n";
      assert p[|p| - 1] == p[|p| - 2..][1];
    } else if Ended(p) {
      assert p == line + "\n";
      if line != "" {
        NotCarriage(line, p);
      }
    }
  }

  lemma NormOfCrlfLine(text: string, line: string)
    requires Norm(text + line) == Norm(text) + line
    ensures Norm(text + (line + "\r\n")) == Norm(text) + line + "\n"
  {
    assert text + (line + "\r\n") == (text + line) + "\r\n";
    NormOnCrlf(text + line);
  }

  lemma NormOfLine(text: string, line: string)
    requires text == "" || Ended(text)
    requires Norm(text + line) == Norm(text) + line && (line == "" || line[|line| - 1] != '\r')
    ensures Norm(text + (line + "\n")) == Norm(text) + line + "\n"
  {
    assert text + (line + "\n") == (text + line) + ['\n'];
    NormOn(text + line, '\n');
  }

  lemma NotCarriage(line: string, p: string)
    requires line != "" && p == line + "\n" && p[|p| - 2..] != "\r\n"
    ensures line[|line| - 1] != '\r'
  {
    assert p[|p| - 2..] == [line[|line| - 1], '\n'];
  }

  lemma TrimmedLines(ps: seq<string>)
    requires ArePieces(ps)
    ensures TrimHostsEnd(Unlines(ps)) == Norm(TrimHostsEnd(Concat(ps)))
  {
    UnlinesIsNorm(ps);
    TrimOfNorm(Concat(ps));
    TrimTail(Norm(Concat(ps)), '\n');
    assert Norm(Concat(ps)) + "" == Norm(Concat(ps));
  }

  // Leaving out pieces brings no line endings together.
  lemma {:induction false} PlainPieces(ps: seq<string>)
    requires ArePieces(ps) && forall p :: p in ps ==> !HasCrlf(p)
    ensures !HasCrlf(Concat(ps))
    decreases |ps|
  {
    if ps != [] {
      var init, p := ps[..|ps| - 1], ps[|ps| - 1];
      PlainPieces(init);
      HasCrlfConcat(Concat(init), p);
      if init != [] {
        assert Ended(init[|init| - 1]);
        ConcatEnds(init);
      }
    }
  }

  lemma {:induction false} PiecesOfPlain(s: string)
    requires !HasCrlf(s)
    ensures forall p :: p in Pieces(s) ==> !HasCrlf(p)
    decreases |s|
  {
    if s != "" {
      var rest := s[..|s| - 1];
      assert s == rest + [s[|s| - 1]];
      HasCrlfConcat(rest, [s[|s| - 1]]);
      PiecesOfPlain(rest);
      var ps := Pieces(s);
      var init, last := ps[..|ps| - 1], ps[|ps| - 1];
      PiecesArePieces(s);
      HasCrlfConcat(Concat(init), last);
      assert ps == init + [last];
      assert forall p :: p in init ==> p in Pieces(rest);
    }
  }

  // The pieces of a text with all its line endings changed.
  function CrlfEach(ps: seq<string>): seq<string> {
    if ps == [] then [] else CrlfEach(ps[..|ps| - 1]) + [Crlf(ps[|ps| - 1])]
  }

  lemma {:induction false} PiecesOfCrlf(s: string)
    ensures Pieces(Crlf(s)) == CrlfEach(Pieces(s))
    decreases |s|
  {
    if s != "" {
      var rest, c := s[..|s| - 1], s[|s| - 1];
      PiecesOfCrlf(rest);
      PiecesArePieces(rest);
      var ps := Pieces(rest);
      if c == '\n' {
        assert Crlf(rest) + "\r\n" == Crlf(rest) + ['\r'] + ['\n'];
        PiecesOn(Crlf(rest), '\r');
        PiecesOn(Crlf(rest) + ['\r'], '\n');
      } else {
        PiecesOn(Crlf(rest), c);
      }
      CrlfGrow(ps, c);
    }
  }

  lemma CrlfGrow(ps: seq<string>, c: char)
    requires forall p :: p in ps ==> p != ""
    ensures CrlfEach(Grow(ps, c)) == if c == '\n' then Grow(Grow(CrlfEach(ps), '\r'), '\n') else Grow(CrlfEach(ps), c)
  {
    var each := CrlfEach(ps);
    if ps == [] || Ended(ps[|ps| - 1]) {
      CrlfOne(c);
      CrlfEachOn(ps, [c]);
      if ps != [] {
        EndedCrlf(ps[|ps| - 1]);
      }
      GrowTwice(each, '\r', '\n');
    } else {
      var init, last := ps[..|ps| - 1], ps[|ps| - 1];
      assert last in ps;
      EndedCrlf(last);
      CrlfOn(last, c);
      CrlfEachOn(init, last + [c]);
      GrowOpen(CrlfEach(init), Crlf(last), c);
    }
  }

  lemma CrlfEachOn(ps: seq<string>, p: string)
    ensures CrlfEach(ps + [p]) == CrlfEach(ps) + [Crlf(p)]
  {
    assert (ps + [p])[..|ps|] == ps;
  }

  lemma EndedCrlf(p: string)
    requires p != ""
    ensures Crlf(p) != "" && (Ended(Crlf(p)) <==> Ended(p))
  {
  }

  lemma GrowTwice(ps: seq<string>, c: char, d: char)
    requires ps == [] || Ended(ps[|ps| - 1])
    requires c != '\n'
    ensures Grow(Grow(ps, c), d) == ps + [[c, d]]
  {
    assert (ps + [[c]])[..|ps|] == ps;
    assert [c] + [d] == [c, d];
  }

  lemma GrowOpen(init: seq<string>, last: string, c: char)
    requires last != "" && !Ended(last)
    ensures Grow(init + [last], c) == init + [last + [c]]
    ensures Grow(Grow(init + [last], '\r'), '\n') == init + [last + "\r\n"]
  {
    assert (init + [last])[..|init|] == init;
    assert (init + [last + ['\r']])[..|init|] == init;
    assert last + ['\r'] + ['\n'] == last + "\r\n";
  }

  lemma CrlfOne(c: char)
    ensures Crlf([c]) == if c == '\n' then "\r\n" else [c]
  {
    assert Crlf([c]) == Crlf("") + if c == '\n' then "\r\n" else [c];
  }

  // --- blanks around a line ---------------------------------------------------------------------

  lemma TrimWhitespace(s: string, c: char)
    requires IsWhitespace(c)
    ensures Trim(s + [c]) == Trim(s)
  {
    assert (s + [c])[..|s|] == s;
  }

  lemma ChopHasNoFeed(p: string)
    requires IsPiece(p)
    ensures forall i :: 0 <= i < |Chop(p)| ==> Chop(p)[i] != '\n'
  {
  }

  lemma ChopIsBlanks(p: string)
    ensures Trim(Chop(p) + "\n") == Trim(p)
  {
    var line := Chop(p);
    TrimWhitespace(line, '\n');
    if |p| >= 2 && p[|p| - 2..] == "\r\n" {
      assert p == line + ['\r'] + ['\n'];
      TrimWhitespace(line + ['\r'], '\n');
      TrimWhitespace(line, '\r');
    } else if Ended(p) {
      assert p == line + ['\n'];
    }
  }

  lemma TrimChop(p: string)
    ensures Trim(Chop(p)) == Trim(p)
  {
    ChopIsBlanks(p);
    TrimWhitespace(Chop(p), '\n');
  }
}
