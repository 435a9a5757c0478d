/**
  The check on what goes into the managed block, `sanitize_hosts_body` of `src-tauri/src/dpi.rs`:
  every line an address and names, or a comment, and no stray line endings.
 */
module HostsSanitizer {
  import opened Common
  import opened Text
  import opened LineText
  import opened HostsMarkers
  import opened HostsBlock

  // `str::split_whitespace`
  function Words(s: string): (words: seq<string>)
    ensures forall w :: w in words ==> IsWord(w)
    decreases |s|
  {
    if s == "" then []
    else if IsWhitespace(s[0]) then Words(s[1..])
    else
      var rest := Words(s[1..]);
      if |s| > 1 && !IsWhitespace(s[1]) && rest != [] then
        assert rest[0] in rest && forall w :: w in rest[1..] ==> w in rest;
        [[s[0]] + rest[0]] + rest[1..]
      else [[s[0]]] + rest
  }

  // Blanks have no words, and a word between blanks comes before the words behind it.
  lemma {:induction false} NoWords(blank: string)
    requires Blank(blank)
    ensures Words(blank) == []
  {
    if blank != "" {
      NoWords(blank[1..]);
    }
  }

  lemma {:induction false} FirstWordFirst(blank: string, word: string, rest: string)
    requires Blank(blank) && IsWord(word) && (rest == "" || IsWhitespace(rest[0]))
    ensures Words(blank + word + rest) == [word] + Words(rest)
    decreases |blank|, |word|
  {
    var s := blank + word + rest;
    if blank != "" {
      assert s[1..] == blank[1..] + word + rest;
      FirstWordFirst(blank[1..], word, rest);
    } else if |word| == 1 {
      assert s == word + rest && s[1..] == rest && [s[0]] == word;
    } else {
      assert s[1..] == "" + word[1..] + rest && s[1] == word[1];
      FirstWordFirst("", word[1..], rest);
      assert ([word[1..]] + Words(rest))[1..] == Words(rest);
      assert !IsWhitespace(word[0]) && !IsWhitespace(word[1]) && [s[0]] + word[1..] == word;
    }
  }

  predicate IsWord(w: string) { w != "" && NoBlanks(w) }

  predicate NoBlanks(w: string) {
    forall i :: 0 <= i < |w| ==> !IsWhitespace(w[i])
  }

  predicate IsNameChar(c: char) {
    'a' <= c <= 'z' || 'A' <= c <= 'Z' || '0' <= c <= '9' || c == '-' || c == '_'
  }

  // `valid_hosts_domain`
  predicate ValidDomain(name: string) {
    && 0 < |name| <= 253
    && forall l :: l in Split(name, '.') ==>
         0 < |l| <= 63 && l[0] != '-' && l[|l| - 1] != '-' && forall i :: 0 <= i < |l| ==> IsNameChar(l[i])
  }

  // A host name has labels of 1 to 63 letters, digits, hyphens and underscores, no hyphen at
  // either end of one, and at most 253 characters.
  lemma DomainNames(name: string)
    ensures ValidDomain(name) <==>
              && 0 < |name| < 254
              && forall l :: l in Split(name, '.') ==>
                   0 < |l| < 64 && l[0] as int != 45 && l[|l| - 1] as int != 45
                   && forall i :: 0 <= i < |l| ==> var n := l[i] as int; 47 < n < 58 || 64 < n < 91 || 96 < n < 123 || n == 45 || n == 95
  {
  }

  // The words before a comment.
  function UpToComment(words: seq<string>): (names: seq<string>)
    ensures names <= words
  {
    if words == [] || (words[0] != "" && words[0][0] == '#') then [] else [words[0]] + UpToComment(words[1..])
  }

  function Spaced(words: seq<string>): string {
    if words == [] then "" else " " + words[0] + Spaced(words[1..])
  }

  // One line of the body, or nothing if it may not go into the file.
  function Sanitized(line: string, isAddress: string -> bool): Option<string> {
    var trimmed := Trim(line);
    if trimmed == "" || trimmed[0] == '#' then Some(trimmed)
    else
      var words := Words(trimmed);
      if words == [] || !isAddress(words[0]) then None
      else
        var names := UpToComment(words[1..]);
        if names == [] || exists n :: n in names && !ValidDomain(n) then None
        else Some(words[0] + Spaced(names))
  }

  // An entry names an address and at least one valid domain.
  ghost predicate IsEntry(line: string, isAddress: string -> bool) {
    exists address, names :: line == address + Spaced(names) && isAddress(address) && names != []
                             && forall n :: n in names ==> ValidDomain(n)
  }

  function Join(lines: seq<string>): string {
    if lines == [] then ""
    else if |lines| == 1 then lines[0]
    else Join(lines[..|lines| - 1]) + "\n" + lines[|lines| - 1]
  }

  // One turn of the loop: the address, the names up to a comment, the check of each name, and the
  // line put together again.
  method SanitizeLine(line: string, isAddress: string -> bool) returns (r: Option<string>)
    ensures r == Sanitized(line, isAddress)
  {
    var trimmed := Trim(line);
    if trimmed == "" || trimmed[0] as int == 35 {
      return Some(trimmed);
    }
    var words := Words(trimmed);
    if words == [] || !isAddress(words[0]) {
      return None;
    }
    assert forall w :: w in words[1..] ==> w in words;
    var names := TakeNames(words[1..]);
    if names == [] {
      return None;
    }
    var fit := AllDomains(names);
    if !fit {
      return None;
    }
    var text := SpaceOut(names);
    r := Some(words[0] + text);
  }

  method AllDomains(names: seq<string>) returns (fit: bool)
    ensures fit <==> forall n :: n in names ==> ValidDomain(n)
  {
    for i := 0 to |names|
      invariant forall n :: n in names[..i] ==> ValidDomain(n)
    {
      if !ValidDomain(names[i]) {
        assert names[i] in names;
        return false;
      }
      assert names[..i + 1] == names[..i] + [names[i]];
    }
    assert names[..|names|] == names;
    fit := true;
  }

  method SpaceOut(names: seq<string>) returns (text: string)
    ensures text == Spaced(names)
  {
    text := "";
    for i := 0 to |names|
      invariant text == Spaced(names[..i])
    {
      SpacedOn(names[..i], names[i]);
      assert names[..i + 1] == names[..i] + [names[i]];
      text := text + " " + names[i];
    }
    assert names[..|names|] == names;
  }

  lemma {:induction false} SpacedOn(words: seq<string>, word: string)
    ensures Spaced(words + [word]) == Spaced(words) + " " + word
    decreases |words|
  {
    if words == [] {
      assert Spaced([word]) == " " + word + Spaced([word][1..]);
    } else {
      assert (words + [word])[1..] == words[1..] + [word];
      SpacedOn(words[1..], word);
    }
  }

  method TakeNames(words: seq<string>) returns (names: seq<string>)
    requires forall w :: w in words ==> w != ""
    ensures names == UpToComment(words)
  {
    names := [];
    for i := 0 to |words|
      invariant names + UpToComment(words[i..]) == UpToComment(words)
    {
      assert words[i..][1..] == words[i + 1..] && words[i] in words;
      if words[i][0] as int == 35 {
        return;
      }
      names := names + [words[i]];
    }
    assert words[|words|..] == [];
  }

  // Accepts exactly the bodies all of whose lines are fit, and gives them back cleaned up.
  method SanitizeHostsBody(body: string, isAddress: string -> bool) returns (r: Result<string, nat>)
    ensures var lines := Lines(Pieces(body));
            match r
            case Ok(text) =>
              exists out: seq<string> ::
                && |out| == |lines| && text == Join(out)
                && forall i :: 0 <= i < |out| ==> Sanitized(lines[i], isAddress) == Some(out[i])
            case Err(at) =>
              at < |lines| && Sanitized(lines[at], isAddress) == None
              && forall i :: 0 <= i < at ==> Sanitized(lines[i], isAddress).Some?
  {
    var lines := Lines(Pieces(body));
    var out: seq<string> := [];
    for i := 0 to |lines|
      invariant |out| == i && forall j :: 0 <= j < i ==> Sanitized(lines[j], isAddress) == Some(out[j])
    {
      var line := SanitizeLine(lines[i], isAddress);
      if line.None? {
        return Err(i);
      }
      out := out + [line.value];
    }
    r := Ok(Join(out));
  }

  // --- what a sanitised body is -----------------------------------------------------------------

  // The other lines are entries.
  lemma SanitizedMeans(line: string, isAddress: string -> bool)
    requires Sanitized(line, isAddress).Some?
    ensures var out := Sanitized(line, isAddress).value;
            (out == Trim(line) && (out == "" || out[0] == '#')) || IsEntry(out, isAddress)
  {
    var trimmed := Trim(line);
    if trimmed != "" && trimmed[0] != '#' {
      var words := Words(trimmed);
      var names := UpToComment(words[1..]);
      assert Sanitized(line, isAddress).value == words[0] + Spaced(names);
    }
  }

  // No line feed inside, no carriage return at the end.
  ghost predicate OneLine(s: string) {
    (forall i :: 0 <= i < |s| ==> s[i] != '\n') && (s != "" ==> s[|s| - 1] != '\r')
  }

  lemma {:induction false} SpacedIsOneLine(words: seq<string>)
    requires forall w :: w in words ==> NoBlanks(w)
    ensures OneLine(Spaced(words))
    ensures words != [] ==> Spaced(words) != ""
  {
    if words != [] {
      SpacedIsOneLine(words[1..]);
      var rest := Spaced(words[1..]);
      assert NoBlanks(words[0]);
      assert Spaced(words) == " " + words[0] + rest;
    }
  }

  // What one line becomes is one line, and a marker only if it was one.
  lemma SanitizedLine(line: string, isAddress: string -> bool)
    requires Sanitized(line, isAddress).Some? && forall i :: 0 <= i < |line| ==> line[i] != '\n'
    ensures var out := Sanitized(line, isAddress).value; OneLine(out) && (IsMarker(out) <==> IsMarker(line))
  {
    var trimmed := Trim(line);
    TrimTwice(line);
    if trimmed == "" || trimmed[0] == '#' {
      TrimmedPart(line, '\n');
      SameMarker(trimmed, line);
    } else {
      SanitizedEntry(trimmed, Sanitized(line, isAddress).value);
      MarkersAreComments(line);
    }
  }

  lemma SameMarker(a: string, b: string)
    requires Trim(a) == Trim(b)
    ensures IsMarker(a) <==> IsMarker(b)
  {
  }

  lemma SanitizedEntry(trimmed: string, out: string)
    requires trimmed != "" && !IsWhitespace(trimmed[0]) && trimmed[0] != '#'
    requires var words := Words(trimmed); words != [] && out == words[0] + Spaced(UpToComment(words[1..]))
    ensures OneLine(out) && !IsMarker(out)
  {
    var words := Words(trimmed);
    FirstWord(trimmed);
    NamesAreWords(words);
    Glued(words[0], Spaced(UpToComment(words[1..])));
    TrimKeepsStart(out);
    MarkersAreComments(out);
  }

  lemma NamesAreWords(words: seq<string>)
    requires words != [] && forall w :: w in words ==> IsWord(w)
    ensures IsWord(words[0]) && OneLine(Spaced(UpToComment(words[1..])))
  {
    var names := UpToComment(words[1..]);
    forall w | w in names
      ensures NoBlanks(w)
    {
      assert w in words[1..] && w in words;
    }
    SpacedIsOneLine(names);
  }

  lemma Glued(word: string, rest: string)
    requires IsWord(word) && OneLine(rest)
    ensures OneLine(word + rest)
  {
  }

  lemma FirstWord(s: string)
    requires s != "" && !IsWhitespace(s[0])
    ensures Words(s) != [] && Words(s)[0][0] == s[0]
  {
  }

  lemma MarkersAreComments(s: string)
    ensures IsMarker(s) ==> Trim(s) != "" && Trim(s)[0] == '#'
  {
    assert BEGIN_MARKER[0] == '#' && END_MARKER[0] == '#';
  }

  lemma TrimKeepsStart(s: string)
    requires s != "" && !IsWhitespace(s[0])
    ensures Trim(s) != "" && Trim(s)[0] == s[0]
  {
    EndKeepsStart(s);
  }

  lemma {:induction false} EndKeepsStart(s: string)
    requires s != "" && !IsWhitespace(s[0])
    ensures TrimEnd(s) != "" && TrimEnd(s)[0] == s[0]
    decreases |s|
  {
    if IsWhitespace(s[|s| - 1]) {
      EndKeepsStart(s[..|s| - 1]);
    }
  }

  ghost predicate AllOneLine(lines: seq<string>) {
    forall l :: l in lines ==> OneLine(l)
  }

  ghost predicate SomeMarker(lines: seq<string>) {
    exists l :: l in lines && IsMarker(l)
  }

  // Joined lines have no CRLF, and marker lines only where the lines are.
  lemma {:induction false} JoinedLines(lines: seq<string>)
    requires AllOneLine(lines)
    ensures !HasCrlf(Join(lines))
    ensures Join(lines) != "" ==> Join(lines)[|Join(lines)| - 1] != '\r'
    ensures NoMarkers(Pieces(Join(lines))) <==> !SomeMarker(lines)
    decreases |lines|
  {
    if lines == [] {
    } else if |lines| == 1 {
      assert lines == [lines[0]];
      OneLineMarks(lines[0]);
    } else {
      var init, last := lines[..|lines| - 1], lines[|lines| - 1];
      assert lines == init + [last];
      JoinedLines(init);
      OneMoreMarks(Join(init), last);
      assert SomeMarker(lines) <==> SomeMarker(init) || IsMarker(last);
    }
  }

  lemma OneLineMarks(line: string)
    requires OneLine(line)
    ensures !HasCrlf(line) && (NoMarkers(Pieces(line)) <==> !IsMarker(line))
  {
    OnePiece(line);
    BlankIsNoMarker();
    NoMarkersOn([], line);
    assert [] + [line] == [line];
  }

  lemma OneMoreMarks(text: string, last: string)
    requires !HasCrlf(text) && (text != "" ==> text[|text| - 1] != '\r') && OneLine(last)
    ensures !HasCrlf(text + "\n" + last)
    ensures var all := text + "\n" + last; all[|all| - 1] != '\r'
    ensures NoMarkers(Pieces(text + "\n" + last)) <==> NoMarkers(Pieces(text)) && !IsMarker(last)
  {
    OneMorePlain(text, last);
    PiecesSplit(text + "\n", last);
    MarkersIgnoreTail(text, '\n');
    OneMoreMarker(Pieces(text + "\n"), last);
  }

  lemma OneMorePlain(text: string, last: string)
    requires !HasCrlf(text) && (text != "" ==> text[|text| - 1] != '\r') && OneLine(last)
    ensures !HasCrlf(text + "\n" + last)
  {
    assert !HasCrlf("\n");
    HasCrlfConcat(text, "\n");
    OneLineMarks(last);
    HasCrlfConcat(text + "\n", last);
  }

  lemma OneMoreMarker(ps: seq<string>, last: string)
    requires OneLine(last)
    ensures NoMarkers(ps + Pieces(last)) <==> NoMarkers(ps) && !IsMarker(last)
  {
    OnePiece(last);
    NoMarkersOn(ps, last);
    BlankIsNoMarker();
    assert ps + [] == ps;
  }

  // A sanitised body is always clean, and it keeps a marker line exactly when it had one.  So a
  // signed body with such a comment line gets through, and spoils the file it is applied to.
  lemma SanitizedBody(body: string, isAddress: string -> bool, out: seq<string>)
    requires |out| == |Pieces(body)|
    requires forall i :: 0 <= i < |out| ==> Sanitized(Lines(Pieces(body))[i], isAddress) == Some(out[i])
    ensures CleanBody(Join(out))
    ensures NoMarkers(Pieces(Join(out))) <==> NoMarkers(Pieces(body))
  {
    var ps := Pieces(body);
    PiecesArePieces(body);
    forall i | 0 <= i < |out|
      ensures OneLine(out[i]) && (IsMarker(out[i]) <==> IsMarker(ps[i]))
    {
      assert Sanitized(Lines(ps)[i], isAddress) == Some(out[i]);
      SanitizedPiece(ps[i], isAddress);
    }
    JoinedLines(out);
    SameMarkers(ps, out);
  }

  lemma SanitizedPiece(p: string, isAddress: string -> bool)
    requires IsPiece(p) && Sanitized(Chop(p), isAddress).Some?
    ensures var out := Sanitized(Chop(p), isAddress).value; OneLine(out) && (IsMarker(out) <==> IsMarker(p))
  {
    ChopHasNoFeed(p);
    TrimChop(p);
    SameMarker(Chop(p), p);
    SanitizedLine(Chop(p), isAddress);
  }

  lemma SameMarkers(ps: seq<string>, out: seq<string>)
    requires |ps| == |out| && forall i :: 0 <= i < |ps| ==> (IsMarker(ps[i]) <==> IsMarker(out[i]))
    ensures SomeMarker(out) <==> !NoMarkers(ps)
  {
    if !NoMarkers(ps) {
      var i :| 0 <= i < |ps| && IsMarker(ps[i]);
      assert out[i] in out;
    }
  }
}
