/**
  The user's and the learned domain lists of `src-tauri/src/dpi.rs`: saving a list, showing the
  learned one newest first, and forgetting a domain.
 */
module DomainLists {
  import opened Common
  import opened Text
  import opened LineText

  function Unlined(lines: seq<string>): string {
    if lines == [] then "" else Unlined(lines[..|lines| - 1]) + lines[|lines| - 1] + "\n"
  }

  predicate IsComment(t: string) { "#" <= t || "//" <= t }

  // A line that names a domain.
  predicate IsDomain(line: string) {
    var t := Trim(line);
    t != "" && !IsComment(t)
  }

  // Blank lines name nothing, nor do those whose text begins with '#' or two slashes.
  lemma DomainLines(line: string)
    ensures var t := Trim(line);
            IsDomain(line) <==> |t| > 0 && t[0] != '#' && !(|t| > 1 && t[0] == '/' && t[1] == '/')
  {
    var t := Trim(line);
    assert "//" <= t <==> |t| > 1 && t[..2] == "//";
    assert |t| > 1 ==> (t[..2] == "//" <==> t[0] == '/' && t[1] == '/');
  }

  predicate SameDomain(a: string, b: string) { LowerAscii(a) == LowerAscii(b) }

  predicate Has(domains: seq<string>, domain: string) {
    exists i :: 0 <= i < |domains| && SameDomain(domains[i], domain)
  }

  // --- the learned list -------------------------------------------------------------------------

  // Newest first, and of names that differ only in case the newest.
  function Listed(lines: seq<string>): seq<string> {
    if lines == [] then []
    else
      var last := lines[|lines| - 1];
      if IsDomain(last) then [Trim(last)] + Others(Listed(lines[..|lines| - 1]), Trim(last))
      else Listed(lines[..|lines| - 1])
  }

  // All but one domain, whatever its case.
  function Others(domains: seq<string>, domain: string): (rest: seq<string>)
    ensures forall d :: d in rest <==> d in domains && !SameDomain(d, domain)
  {
    if domains == [] then []
    else if SameDomain(domains[0], domain) then Others(domains[1..], domain)
    else [domains[0]] + Others(domains[1..], domain)
  }

  ghost predicate NoRepeats(domains: seq<string>) {
    forall i, j :: 0 <= i < j < |domains| ==> !SameDomain(domains[i], domains[j])
  }

  // The last line that names a domain, whatever its case.
  function LastAt(lines: seq<string>, domain: string): int {
    if lines == [] then -1
    else
      var last := lines[|lines| - 1];
      if IsDomain(last) && SameDomain(Trim(last), domain) then |lines| - 1 else LastAt(lines[..|lines| - 1], domain)
  }

  ghost predicate NewestFirst(lines: seq<string>, domains: seq<string>) {
    && (forall d :: d in domains ==> 0 <= LastAt(lines, d) < |lines| && Trim(lines[LastAt(lines, d)]) == d)
    && Descending(lines, domains)
  }

  // Each one is named last by a later line than all that follow it.
  ghost predicate Descending(lines: seq<string>, domains: seq<string>) {
    domains == []
    || ((forall d :: d in domains[1..] ==> LastAt(lines, domains[0]) > LastAt(lines, d)) && Descending(lines, domains[1..]))
  }

  // Every domain is listed in the spelling of the last line that names it, latest line first.
  lemma {:induction false} ListedIsNewestFirst(lines: seq<string>)
    ensures NewestFirst(lines, Listed(lines))
    decreases |lines|
  {
    if lines != [] {
      var init, last := lines[..|lines| - 1], lines[|lines| - 1];
      ListedIsNewestFirst(init);
      var older := Listed(init);
      if IsDomain(last) {
        var t, rest := Trim(last), Others(older, Trim(last));
        OthersDescend(init, older, t);
        StillDescend(lines, rest);
        assert ([t] + rest)[1..] == rest;
      } else {
        StillDescend(lines, older);
      }
    }
  }

  // A new line that names none of them changes nothing.
  lemma {:induction false} StillDescend(lines: seq<string>, domains: seq<string>)
    requires lines != [] && Descending(lines[..|lines| - 1], domains)
    requires forall d :: d in domains ==> LastAt(lines, d) == LastAt(lines[..|lines| - 1], d)
    ensures Descending(lines, domains)
  {
    if domains != [] {
      StillDescend(lines, domains[1..]);
    }
  }

  lemma {:induction false} OthersDescend(lines: seq<string>, domains: seq<string>, domain: string)
    requires Descending(lines, domains)
    ensures Descending(lines, Others(domains, domain))
  {
    if domains != [] {
      OthersDescend(lines, domains[1..], domain);
      var rest := Others(domains[1..], domain);
      assert ([domains[0]] + rest)[1..] == rest;
    }
  }

  lemma AheadNoRepeats(domain: string, rest: seq<string>)
    requires NoRepeats(rest) && forall d :: d in rest ==> !SameDomain(d, domain)
    ensures NoRepeats([domain] + rest)
  {
    var all := [domain] + rest;
    forall i | 0 < i < |all|
      ensures all[i] == rest[i - 1] && !SameDomain(all[0], all[i])
    {
      assert rest[i - 1] in rest;
    }
  }

  // Every domain of the file is listed, once whatever its case, and nothing else is.
  lemma {:induction false} ListedMeans(lines: seq<string>)
    ensures NoRepeats(Listed(lines))
    ensures forall l :: l in lines && IsDomain(l) ==> Has(Listed(lines), Trim(l))
    ensures forall d :: d in Listed(lines) ==> exists l :: l in lines && IsDomain(l) && Trim(l) == d
    decreases |lines|
  {
    if lines != [] {
      var init, last := lines[..|lines| - 1], lines[|lines| - 1];
      ListedMeans(init);
      assert lines == init + [last];
      if IsDomain(last) {
        OthersNoRepeats(Listed(init), Trim(last));
        AheadNoRepeats(Trim(last), Others(Listed(init), Trim(last)));
        forall l | l in lines && IsDomain(l)
          ensures Has(Listed(lines), Trim(l))
        {
          if l != last {
            StillHas(Listed(init), Trim(last), Trim(l));
          } else {
            assert Listed(lines)[0] == Trim(l);
          }
        }
      }
    }
  }

  lemma StillHas(domains: seq<string>, t: string, d: string)
    requires Has(domains, d)
    ensures Has([t] + Others(domains, t), d)
  {
    var rest := Others(domains, t);
    var all := [t] + rest;
    if SameDomain(t, d) {
      assert all[0] == t;
    } else {
      var i :| 0 <= i < |domains| && SameDomain(domains[i], d);
      assert domains[i] in domains && domains[i] in rest;
      var j :| 0 <= j < |rest| && rest[j] == domains[i];
      assert all[j + 1] == rest[j];
    }
  }

  lemma {:induction false} OthersNoRepeats(domains: seq<string>, domain: string)
    requires NoRepeats(domains)
    ensures NoRepeats(Others(domains, domain))
  {
    if domains != [] {
      assert NoRepeats(domains[1..]);
      OthersNoRepeats(domains[1..], domain);
      var rest := Others(domains[1..], domain);
      forall d | d in rest
        ensures !SameDomain(domains[0], d)
      {
        var j :| 0 <= j < |domains[1..]| && domains[1..][j] == d;
        assert domains[j + 1] == d;
      }
    }
  }

  // `auto_domains_from`
  method AutoDomainsFrom(text: string) returns (out: seq<string>)
    ensures out == Listed(Lines(Pieces(text)))
  {
    out := ListNewest(Lines(Pieces(text)));
  }

  // From the end, skipping what has been seen.
  method ListNewest(lines: seq<string>) returns (out: seq<string>)
    ensures out == Listed(lines)
  {
    out := [];
    FreshOfNone(Listed(lines));
    assert lines[..|lines|] == lines;
    for i := |lines| downto 0
      invariant Gathered(out, Listed(lines[..i])) == Listed(lines)
    {
      var t := Trim(lines[i]);
      ListedStep(lines, i, out);
      if IsDomain(lines[i]) {
        if !Has(out, t) {
          out := out + [t];
        }
      }
    }
  }

  // One line further to the front.
  lemma ListedStep(lines: seq<string>, i: nat, out: seq<string>)
    requires i < |lines|
    ensures var t := Trim(lines[i]);
            Gathered(out, Listed(lines[..i + 1])) ==
            Gathered(if IsDomain(lines[i]) && !Has(out, t) then out + [t] else out, Listed(lines[..i]))
  {
    assert lines[..i + 1][..i] == lines[..i];
    if IsDomain(lines[i]) {
      GatherOne(out, Trim(lines[i]), Listed(lines[..i]));
    }
  }

  // `rest` behind `out`, without what `out` has.
  function Gathered(out: seq<string>, rest: seq<string>): seq<string> {
    out + Fresh(out, rest)
  }

  function Fresh(out: seq<string>, rest: seq<string>): seq<string> {
    if rest == [] then []
    else if Has(out, rest[0]) then Fresh(out, rest[1..])
    else [rest[0]] + Fresh(out, rest[1..])
  }

  lemma {:induction false} FreshOfNone(rest: seq<string>)
    ensures Fresh([], rest) == rest
  {
    if rest != [] {
      FreshOfNone(rest[1..]);
    }
  }

  lemma GatherOne(out: seq<string>, t: string, older: seq<string>)
    ensures Gathered(out, [t] + Others(older, t)) == Gathered(if Has(out, t) then out else out + [t], older)
  {
    assert ([t] + Others(older, t))[1..] == Others(older, t);
    if Has(out, t) {
      FreshOthers(out, t, older);
    } else {
      FreshMore(out, t, older);
    }
  }

  lemma {:induction false} FreshOthers(out: seq<string>, t: string, older: seq<string>)
    requires Has(out, t)
    ensures Fresh(out, Others(older, t)) == Fresh(out, older)
  {
    if older != [] {
      FreshOthers(out, t, older[1..]);
      if !SameDomain(older[0], t) {
        assert ([older[0]] + Others(older[1..], t))[1..] == Others(older[1..], t);
      }
    }
  }

  lemma {:induction false} FreshMore(out: seq<string>, t: string, older: seq<string>)
    ensures Fresh(out, Others(older, t)) == Fresh(out + [t], older)
  {
    if older != [] {
      FreshMore(out, t, older[1..]);
      HasMore(out, t, older[0]);
      if !SameDomain(older[0], t) {
        assert ([older[0]] + Others(older[1..], t))[1..] == Others(older[1..], t);
      }
    }
  }

  lemma HasMore(out: seq<string>, t: string, d: string)
    ensures Has(out + [t], d) <==> Has(out, d) || SameDomain(t, d)
  {
    if Has(out, d) {
      var i :| 0 <= i < |out| && SameDomain(out[i], d);
      assert (out + [t])[i] == out[i];
    }
    if SameDomain(t, d) {
      assert (out + [t])[|out|] == t;
    }
  }

  // --- forgetting -------------------------------------------------------------------------------

  // The lines that `dpi_auto_forget` keeps.
  function Without(lines: seq<string>, target: string): seq<string> {
    if lines == [] then []
    else
      var rest := Without(lines[..|lines| - 1], target);
      if SameDomain(Trim(lines[|lines| - 1]), target) then rest else rest + [lines[|lines| - 1]]
  }

  lemma {:induction false} ForgetCommutes(lines: seq<string>, target: string)
    ensures Listed(Without(lines, target)) == Others(Listed(lines), target)
    decreases |lines|
  {
    if lines != [] {
      var init, last := lines[..|lines| - 1], lines[|lines| - 1];
      ForgetCommutes(init, target);
      var kept := Without(init, target);
      if SameDomain(Trim(last), target) {
        if IsDomain(last) {
          OthersTwice(Listed(init), Trim(last), target);
          assert ([Trim(last)] + Others(Listed(init), Trim(last)))[1..] == Others(Listed(init), Trim(last));
        }
      } else {
        assert (kept + [last])[..|kept|] == kept;
        if IsDomain(last) {
          OthersSwap(Listed(init), Trim(last), target);
          assert ([Trim(last)] + Others(Listed(init), Trim(last)))[1..] == Others(Listed(init), Trim(last));
        }
      }
    }
  }

  lemma {:induction false} OthersTwice(domains: seq<string>, a: string, b: string)
    requires SameDomain(a, b)
    ensures Others(Others(domains, a), b) == Others(domains, b)
  {
    if domains != [] {
      OthersTwice(domains[1..], a, b);
      if !SameDomain(domains[0], a) {
        assert ([domains[0]] + Others(domains[1..], a))[1..] == Others(domains[1..], a);
      }
    }
  }

  lemma {:induction false} OthersSwap(domains: seq<string>, a: string, b: string)
    ensures Others(Others(domains, a), b) == Others(Others(domains, b), a)
  {
    if domains != [] {
      OthersSwap(domains[1..], a, b);
      if !SameDomain(domains[0], a) {
        assert ([domains[0]] + Others(domains[1..], a))[1..] == Others(domains[1..], a);
      }
      if !SameDomain(domains[0], b) {
        assert ([domains[0]] + Others(domains[1..], b))[1..] == Others(domains[1..], b);
      }
    }
  }

  // --- writing lines back -----------------------------------------------------------------------

  ghost predicate NoFeeds(lines: seq<string>) {
    forall i :: 0 <= i < |lines| ==> forall j :: 0 <= j < |lines[i]| ==> lines[i][j] != '\n'
  }

  lemma LinesHaveNoFeeds(text: string)
    ensures NoFeeds(Lines(Pieces(text)))
  {
    PiecesArePieces(text);
    forall i | 0 <= i < |Pieces(text)|
      ensures forall j :: 0 <= j < |Lines(Pieces(text))[i]| ==> Lines(Pieces(text))[i][j] != '\n'
    {
      ChopHasNoFeed(Pieces(text)[i]);
    }
  }

  function Feeds(lines: seq<string>): seq<string> {
    if lines == [] then [] else Feeds(lines[..|lines| - 1]) + [lines[|lines| - 1] + "\n"]
  }

  lemma {:induction false} FeedsAt(lines: seq<string>)
    ensures |Feeds(lines)| == |lines| && forall i :: 0 <= i < |lines| ==> Feeds(lines)[i] == lines[i] + "\n"
    decreases |lines|
  {
    if lines != [] {
      FeedsAt(lines[..|lines| - 1]);
    }
  }

  lemma {:induction false} Written(lines: seq<string>)
    requires NoFeeds(lines)
    ensures Pieces(Unlined(lines)) == Feeds(lines) && (lines != [] ==> Ended(Unlined(lines)))
    decreases |lines|
  {
    if lines != [] {
      var init, last := lines[..|lines| - 1], lines[|lines| - 1];
      assert lines == init + [last];
      InitHasNoFeeds(init, last);
      Written(init);
      WrittenOn(init, last);
    }
  }

  lemma WrittenOn(lines: seq<string>, last: string)
    requires Pieces(Unlined(lines)) == Feeds(lines) && (lines != [] ==> Ended(Unlined(lines)))
    requires forall j :: 0 <= j < |last| ==> last[j] != '\n'
    ensures var all := lines + [last]; Pieces(Unlined(all)) == Feeds(all) && Ended(Unlined(all))
  {
    OnePiece(last);
    PiecesSplit(Unlined(lines), last + "\n");
    UnlinedOn(lines, last);
  }

  lemma UnlinedOn(lines: seq<string>, last: string)
    ensures Unlined(lines + [last]) == Unlined(lines) + (last + "\n")
    ensures Feeds(lines + [last]) == Feeds(lines) + [last + "\n"]
  {
    assert (lines + [last])[..|lines|] == lines;
    assert Unlined(lines) + last + "\n" == Unlined(lines) + (last + "\n");
  }

  lemma InitHasNoFeeds(init: seq<string>, last: string)
    requires NoFeeds(init + [last])
    ensures NoFeeds(init) && forall j :: 0 <= j < |last| ==> last[j] != '\n'
  {
    assert forall i :: 0 <= i < |init| ==> init[i] == (init + [last])[i];
    assert (init + [last])[|init|] == last;
  }

  // Written lines are read back one for one; at most a carriage return at an end is lost.
  lemma ReadBack(lines: seq<string>)
    requires NoFeeds(lines)
    ensures |Lines(Pieces(Unlined(lines)))| == |lines|
    ensures forall i :: 0 <= i < |lines| ==> Trim(Lines(Pieces(Unlined(lines)))[i]) == Trim(lines[i])
    ensures (forall i :: 0 <= i < |lines| ==> lines[i] == "" || lines[i][|lines[i]| - 1] != '\r') ==>
              Lines(Pieces(Unlined(lines))) == lines
  {
    Written(lines);
    FeedsAt(lines);
    var read := Lines(Feeds(lines));
    forall i | 0 <= i < |lines|
      ensures Trim(read[i]) == Trim(lines[i])
      ensures (lines[i] == "" || lines[i][|lines[i]| - 1] != '\r') ==> read[i] == lines[i]
    {
      TrimChop(lines[i] + "\n");
      TrimWhitespace(lines[i], '\n');
      if lines[i] == "" || lines[i][|lines[i]| - 1] != '\r' {
        ChopPlain(lines[i]);
      }
    }
  }

  lemma ChopPlain(line: string)
    requires line == "" || line[|line| - 1] != '\r'
    ensures Chop(line + "\n") == line
  {
    var p := line + "\n";
    if |p| >= 2 {
      assert p[|p| - 2..][0] == line[|line| - 1];
    }
  }

  lemma {:induction false} ListedByTrim(a: seq<string>, b: seq<string>)
    requires |a| == |b| && forall i :: 0 <= i < |a| ==> Trim(a[i]) == Trim(b[i])
    ensures Listed(a) == Listed(b)
    decreases |a|
  {
    if a != [] {
      ListedByTrim(a[..|a| - 1], b[..|b| - 1]);
    }
  }

  lemma {:induction false} WithoutHasNoFeeds(lines: seq<string>, target: string)
    requires NoFeeds(lines)
    ensures NoFeeds(Without(lines, target))
    decreases |lines|
  {
    if lines != [] {
      assert forall i :: 0 <= i < |lines| - 1 ==> lines[..|lines| - 1][i] == lines[i];
      WithoutHasNoFeeds(lines[..|lines| - 1], target);
    }
  }

  // `dpi_auto_forget`: what is written, and the list that is returned.  Reading the file again
  // gives the same list: the old one without every spelling of the domain.
  method AutoForget(text: string, domain: string) returns (r: Result<(string, seq<string>), ()>)
    ensures r.Err? <==> Trim(domain) == ""
    ensures r.Ok? ==>
              && r.value.0 == Unlined(Without(Lines(Pieces(text)), Trim(domain)))
              && r.value.1 == Others(Listed(Lines(Pieces(text))), Trim(domain))
              && Listed(Lines(Pieces(r.value.0))) == r.value.1
  {
    var target := Trim(domain);
    if target == "" {
      return Err(());
    }
    var kept := KeepOthers(Lines(Pieces(text)), target);
    var list := AutoDomainsFrom(kept);
    ForgottenAndRead(text, target);
    return Ok((kept, list));
  }

  method KeepOthers(lines: seq<string>, target: string) returns (kept: string)
    ensures kept == Unlined(Without(lines, target))
  {
    kept := "";
    for i := 0 to |lines|
      invariant kept == Unlined(Without(lines[..i], target))
    {
      var rest := Without(lines[..i], target);
      assert lines[..i + 1][..i] == lines[..i];
      if !SameDomain(Trim(lines[i]), target) {
        kept := kept + lines[i] + "\n";
        assert (rest + [lines[i]])[..|rest|] == rest;
      }
    }
    assert lines[..|lines|] == lines;
  }

  lemma ForgottenAndRead(text: string, target: string)
    ensures var lines := Lines(Pieces(text));
            Listed(Lines(Pieces(Unlined(Without(lines, target))))) == Others(Listed(lines), target)
  {
    var lines := Lines(Pieces(text));
    LinesHaveNoFeeds(text);
    WithoutHasNoFeeds(lines, target);
    ReadBack(Without(lines, target));
    ListedByTrim(Lines(Pieces(Unlined(Without(lines, target)))), Without(lines, target));
    ForgetCommutes(lines, target);
  }

  // --- the user's lists -------------------------------------------------------------------------

  // What `dpi_write_list` keeps: comments, and every domain where it first appears.
  function Saved(lines: seq<string>): seq<string> {
    if lines == [] then []
    else
      var rest := Saved(lines[..|lines| - 1]);
      var t := Trim(lines[|lines| - 1]);
      if t == "" || (!IsComment(t) && t in rest) then rest else rest + [t]
  }

  function Domains(lines: seq<string>): set<string> {
    set l | l in lines && IsDomain(l) :: Trim(l)
  }

  // Trimmed lines, and no domain twice.
  ghost predicate Clean(lines: seq<string>) {
    && (forall i :: 0 <= i < |lines| ==> lines[i] != "" && Trim(lines[i]) == lines[i])
    && (forall i, j :: 0 <= i < j < |lines| && lines[i] == lines[j] ==> IsComment(lines[i]))
  }

  lemma {:induction false} SavedMeans(lines: seq<string>)
    ensures Clean(Saved(lines)) && Domains(Saved(lines)) == Domains(lines)
    ensures forall l :: l in lines && Trim(l) != "" ==> Trim(l) in Saved(lines)
    ensures forall t :: t in Saved(lines) ==> exists l :: l in lines && Trim(l) == t
    decreases |lines|
  {
    if lines != [] {
      var init, last := lines[..|lines| - 1], lines[|lines| - 1];
      SavedMeans(init);
      assert lines == init + [last];
      TrimTwice(last);
      DomainsOn(init, last);
      var rest, t := Saved(init), Trim(last);
      if t != "" && (IsComment(t) || t !in rest) {
        DomainsOn(rest, t);
        CleanOn(rest, t);
      } else if t != "" {
        assert IsDomain(t) && Trim(t) == t;
      }
    }
  }

  lemma DomainsOn(lines: seq<string>, last: string)
    ensures Domains(lines + [last]) == Domains(lines) + if IsDomain(last) then {Trim(last)} else {}
  {
    assert forall l :: l in lines + [last] <==> l in lines || l == last;
  }

  lemma CleanOn(lines: seq<string>, last: string)
    requires Clean(lines) && last != "" && Trim(last) == last && (IsComment(last) || last !in lines)
    ensures Clean(lines + [last])
  {
    var all := lines + [last];
    forall i, j | 0 <= i < j < |all| && all[i] == all[j]
      ensures IsComment(all[i])
    {
      if j == |lines| {
        assert all[i] == lines[i];
      }
    }
  }

  lemma {:induction false} SavedOfClean(lines: seq<string>)
    requires Clean(lines)
    ensures Saved(lines) == lines
    decreases |lines|
  {
    if lines != [] {
      var init, last := lines[..|lines| - 1], lines[|lines| - 1];
      assert lines == init + [last];
      InitIsClean(init, last);
      SavedOfClean(init);
    }
  }

  lemma InitIsClean(init: seq<string>, last: string)
    requires Clean(init + [last])
    ensures Clean(init) && last != "" && Trim(last) == last && (last in init ==> IsComment(last))
  {
    var all := init + [last];
    assert all[|init|] == last;
    assert forall i :: 0 <= i < |init| ==> init[i] == all[i];
  }

  // The count is the number of different domains, and saving what was saved changes nothing.
  method WriteList(content: string) returns (out: string, n: nat)
    ensures out == Unlined(Saved(Lines(Pieces(content))))
    ensures n == |Domains(Lines(Pieces(content)))|
  {
    out, n := SaveLines(Lines(Pieces(content)));
  }

  method SaveLines(lines: seq<string>) returns (out: string, n: nat)
    ensures out == Unlined(Saved(lines)) && n == |Domains(lines)|
  {
    var seen: set<string> := {};
    out, n := "", 0;
    for i := 0 to |lines|
      invariant SavedSoFar(lines, i, out, seen) && n == |seen|
    {
      SavedStep(lines, i, out, seen);
      var t := Trim(lines[i]);
      if t != "" {
        if IsComment(t) {
          out := out + t + "\n";
        } else if t !in seen {
          seen, n := seen + {t}, n + 1;
          out := out + t + "\n";
        }
      }
    }
    assert lines[..|lines|] == lines;
  }

  ghost predicate SavedSoFar(lines: seq<string>, i: nat, out: string, seen: set<string>)
    requires i <= |lines|
  {
    out == Unlined(Saved(lines[..i])) && seen == Domains(lines[..i])
  }

  lemma SavedStep(lines: seq<string>, i: nat, out: string, seen: set<string>)
    requires i < |lines| && SavedSoFar(lines, i, out, seen)
    ensures var t := Trim(lines[i]);
            if t == "" || (!IsComment(t) && t in seen) then SavedSoFar(lines, i + 1, out, seen)
            else SavedSoFar(lines, i + 1, out + t + "\n", if IsComment(t) then seen else seen + {t})
  {
    var init, t := lines[..i], Trim(lines[i]);
    assert lines[..i + 1] == init + [lines[i]];
    DomainsOn(init, lines[i]);
    TextOn(init, lines[i]);
  }

  lemma TextOn(lines: seq<string>, line: string)
    ensures var t, text := Trim(line), Unlined(Saved(lines));
            Unlined(Saved(lines + [line])) ==
            if t == "" || (!IsComment(t) && t in Domains(lines)) then text else text + t + "\n"
  {
    var t := Trim(line);
    SavedOn(lines, line);
    UnlinedOn(Saved(lines), t);
    assert Unlined(Saved(lines)) + t + "\n" == Unlined(Saved(lines)) + (t + "\n");
  }

  // One more line is kept unless it is blank or names a domain seen before.
  lemma SavedOn(lines: seq<string>, line: string)
    ensures var t := Trim(line);
            Saved(lines + [line]) ==
            if t == "" || (!IsComment(t) && t in Domains(lines)) then Saved(lines) else Saved(lines) + [t]
  {
    assert (lines + [line])[..|lines|] == lines;
    if IsDomain(line) {
      SavedDomain(lines, line);
    }
  }

  // A domain has been written exactly if it has been seen.
  lemma SavedDomain(lines: seq<string>, line: string)
    requires IsDomain(line)
    ensures Trim(line) in Saved(lines) <==> Trim(line) in Domains(lines)
  {
    SavedMeans(lines);
    TrimTwice(line);
    var t := Trim(line);
    assert IsDomain(t);
    assert t in Saved(lines) ==> t in Domains(Saved(lines));
  }

  lemma SavingIsIdempotent(content: string)
    ensures var once := Unlined(Saved(Lines(Pieces(content))));
            && Unlined(Saved(Lines(Pieces(once)))) == once
            && Domains(Lines(Pieces(once))) == Domains(Lines(Pieces(content)))
  {
    var lines := Lines(Pieces(content));
    var saved := Saved(lines);
    LinesHaveNoFeeds(content);
    SavedMeans(lines);
    SavedHasNoFeeds(lines);
    ReadBack(saved);
    assert Lines(Pieces(Unlined(saved))) == saved;
    SavedOfClean(saved);
  }

  lemma SavedHasNoFeeds(lines: seq<string>)
    requires NoFeeds(lines)
    ensures NoFeeds(Saved(lines))
    ensures forall i :: 0 <= i < |Saved(lines)| ==> Saved(lines)[i] != "" && Saved(lines)[i][|Saved(lines)[i]| - 1] != '\r'
  {
    SavedMeans(lines);
    forall i | 0 <= i < |Saved(lines)|
      ensures forall j :: 0 <= j < |Saved(lines)[i]| ==> Saved(lines)[i][j] != '\n'
      ensures Saved(lines)[i] != "" && Saved(lines)[i][|Saved(lines)[i]| - 1] != '\r'
    {
      var t := Saved(lines)[i];
      assert t in Saved(lines);
      var l :| l in lines && Trim(l) == t;
      TrimmedPart(l, '\n');
      TrimTwice(l);
    }
  }
}
