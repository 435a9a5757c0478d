/**
  The argv rewrites of `src-tauri/src/dpi.rs`.  A winws command line is a list of sections
  separated by `--new`; filters act only inside their own section.
 */
module WinwsArgs {

  type Section = seq<string>

  const NEW := "--new"

  // --- sections ---------------------------------------------------------------------------

  function Sections(args: seq<string>): (ss: seq<Section>)
    ensures ss != []
  {
    if args == [] then [[]] else AddTo(Sections(args[..|args| - 1]), args[|args| - 1])
  }

  // One more argument: a separator opens a section, anything else goes into the last one.
  function AddTo(ss: seq<Section>, arg: string): (more: seq<Section>)
    requires ss != []
    ensures more != []
  {
    if arg == NEW then ss + [[]] else ss[..|ss| - 1] + [ss[|ss| - 1] + [arg]]
  }

  // The sections, each followed by a separator.
  function Closed(ss: seq<Section>): seq<string> {
    if ss == [] then [] else Closed(ss[..|ss| - 1]) + ss[|ss| - 1] + [NEW]
  }

  function Join(ss: seq<Section>): seq<string>
    requires ss != []
  {
    Closed(ss[..|ss| - 1]) + ss[|ss| - 1]
  }

  // The command line in which every section is rewritten on its own.
  function Rewrite(f: Section -> Section, args: seq<string>): seq<string> {
    Join(Each(f, Sections(args)))
  }

  function Each(f: Section -> Section, ss: seq<Section>): (r: seq<Section>)
    ensures |r| == |ss| && forall i :: 0 <= i < |ss| ==> r[i] == f(ss[i])
  {
    seq(|ss|, i requires 0 <= i < |ss| => f(ss[i]))
  }

  ghost predicate Plain(ss: seq<Section>) {
    forall i :: 0 <= i < |ss| ==> NEW !in ss[i]
  }

  ghost predicate KeepsPlain(f: Section -> Section) {
    forall s: Section :: NEW !in s ==> NEW !in f(s)
  }

  lemma {:induction false} SectionsArePlain(args: seq<string>)
    ensures Plain(Sections(args))
  {
    if args != [] {
      SectionsArePlain(args[..|args| - 1]);
    }
  }

  lemma {:induction false} SectionsAppend(args: seq<string>, tail: seq<string>)
    requires NEW !in tail
    ensures var ss := Sections(args);
            Sections(args + tail) == ss[..|ss| - 1] + [ss[|ss| - 1] + tail]
    decreases |tail|
  {
    if tail == [] {
      var ss := Sections(args);
      assert args + tail == args;
      assert ss[|ss| - 1] + tail == ss[|ss| - 1];
    } else {
      var rest, last := tail[..|tail| - 1], tail[|tail| - 1];
      assert rest + [last] == tail && last in tail;
      SectionsAppend(args, rest);
      SectionsAppendOn(args, rest, last);
    }
  }

  lemma SectionsAppendOn(args: seq<string>, tail: seq<string>, last: string)
    requires var ss := Sections(args); Sections(args + tail) == ss[..|ss| - 1] + [ss[|ss| - 1] + tail]
    requires last != NEW
    ensures var ss := Sections(args); Sections(args + (tail + [last])) == ss[..|ss| - 1] + [ss[|ss| - 1] + (tail + [last])]
  {
    var ss := Sections(args);
    OneMore(args, tail, last);
    SectionsOn(args + tail, last);
    AddToLast(ss[..|ss| - 1], ss[|ss| - 1] + tail, last);
    OneMore(ss[|ss| - 1], tail, last);
  }

  lemma OneMore(a: seq<string>, b: seq<string>, c: string)
    ensures a + (b + [c]) == a + b + [c]
  {
  }

  lemma AddToLast(ss: seq<Section>, s: Section, arg: string)
    requires arg != NEW
    ensures AddTo(ss + [s], arg) == ss + [s + [arg]]
  {
    assert (ss + [s])[..|ss|] == ss;
  }

  lemma SectionsOn(args: seq<string>, last: string)
    ensures Sections(args + [last]) == AddTo(Sections(args), last)
  {
    assert (args + [last])[..|args|] == args;
  }

  lemma {:induction false} SectionsOfClosed(ss: seq<Section>)
    requires Plain(ss)
    ensures Sections(Closed(ss)) == ss + [[]]
    decreases |ss|
  {
    if ss != [] {
      var n := |ss| - 1;
      SectionsOfClosed(ss[..n]);
      SectionsAppend(Closed(ss[..n]), ss[n]);
      var body := Closed(ss[..n]) + ss[n];
      assert ([] + ss[n]) == ss[n];
      assert ss[..n] + [ss[n]] == ss;
      assert Sections(body) == ss;
      assert Closed(ss) == body + [NEW] && (body + [NEW])[..|body|] == body;
    }
  }

  // Splitting undoes joining: sections keep their number, order and contents.
  lemma SectionsOfJoin(ss: seq<Section>)
    requires ss != [] && Plain(ss)
    ensures Sections(Join(ss)) == ss
  {
    var n := |ss| - 1;
    SectionsOfClosed(ss[..n]);
    SectionsAppend(Closed(ss[..n]), ss[n]);
    assert ([] + ss[n]) == ss[n];
    assert ss[..n] + [ss[n]] == ss;
  }

  // A rewrite acts section by section: splitting its result gives the rewritten sections.
  lemma RewriteActsPerSection(f: Section -> Section, args: seq<string>)
    requires KeepsPlain(f)
    ensures Sections(Rewrite(f, args)) == Each(f, Sections(args))
  {
    SectionsArePlain(args);
    SectionsOfJoin(Each(f, Sections(args)));
  }

  function Compose(f: Section -> Section, g: Section -> Section): Section -> Section {
    s => g(f(s))
  }

  lemma RewritesCompose(f: Section -> Section, g: Section -> Section, args: seq<string>)
    requires KeepsPlain(f) && KeepsPlain(g)
    ensures Rewrite(g, Rewrite(f, args)) == Rewrite(Compose(f, g), args)
    ensures KeepsPlain(Compose(f, g))
  {
    RewriteActsPerSection(f, args);
    assert Each(g, Each(f, Sections(args))) == Each(Compose(f, g), Sections(args));
  }

  lemma RewritesAgree(f: Section -> Section, g: Section -> Section, args: seq<string>)
    requires KeepsPlain(f) && KeepsPlain(g)
    ensures Rewrite(f, args) == Rewrite(g, args) <==> forall s :: s in Sections(args) ==> f(s) == g(s)
  {
    RewriteActsPerSection(f, args);
    RewriteActsPerSection(g, args);
    var ss := Sections(args);
    if Rewrite(f, args) == Rewrite(g, args) {
      forall s | s in ss ensures f(s) == g(s) {
        var i :| 0 <= i < |ss| && ss[i] == s;
        assert Each(f, ss)[i] == Each(g, ss)[i];
      }
    } else {
      assert Each(f, ss) != Each(g, ss);
    }
  }

  // --- arguments and paths ------------------------------------------------------------------

  function KeyOf(arg: string): string {
    if arg == "" || arg[0] == '=' then "" else [arg[0]] + KeyOf(arg[1..])
  }

  function ValueOf(arg: string): string {
    if arg == "" then "" else if arg[0] == '=' then arg[1..] else ValueOf(arg[1..])
  }

  lemma {:induction false} KeyAndValue(key: string, value: string)
    requires '=' !in key
    ensures KeyOf(key + "=" + value) == key && ValueOf(key + "=" + value) == value
    decreases key
  {
    if key != "" {
      assert (key + "=" + value)[1..] == key[1..] + "=" + value;
      KeyAndValue(key[1..], value);
    } else {
      assert key + "=" + value == "=" + value;
    }
  }

  const VERBATIM := "\\\\?\\"
  const VERBATIM_UNC := "\\\\?\\UNC\\"

  function StripVerbatim(p: string): string {
    if VERBATIM_UNC <= p then "\\\\" + p[|VERBATIM_UNC|..]
    else if VERBATIM <= p then p[|VERBATIM|..]
    else p
  }

  // `Path::join` on Windows for a plain file name.
  function Folder(dir: string): string {
    if dir == "" || dir[|dir| - 1] == '\\' || dir[|dir| - 1] == '/' then dir else dir + "\\"
  }

  function ListPath(lists: string, file: string): string {
    StripVerbatim(Folder(lists) + file)
  }

  // A verbatim path loses its prefix, one to a share gets back its two backslashes, and any other
  // path stays as it is.
  lemma VerbatimMeans(rest: string)
    ensures StripVerbatim("\\\\?\\UNC\\" + rest) == "\\\\" + rest
    ensures !("UNC\\" <= rest) ==> StripVerbatim("\\\\?\\" + rest) == rest
    ensures !("\\\\?\\" <= rest) ==> StripVerbatim(rest) == rest
  {
    var p := VERBATIM + rest;
    assert VERBATIM_UNC <= p ==> p[|VERBATIM|..][..4] == VERBATIM_UNC[|VERBATIM|..];
    assert VERBATIM_UNC[..|VERBATIM|] == VERBATIM;
  }

  // A file name is joined behind exactly one separator.
  lemma FolderMeans(dir: string)
    ensures dir != "" ==> Folder(dir)[|Folder(dir)| - 1] in "\\/" && dir <= Folder(dir)
    ensures Folder(dir) == dir <==> dir == "" || dir[|dir| - 1] in "\\/"
    ensures |Folder(dir)| <= |dir| + 1 && (Folder(dir) != dir ==> Folder(dir)[|dir|] == '\\')
  {
  }

  lemma ListPathEndsWithTheFile(lists: string, file: string)
    requires '\\' !in file
    ensures ListPath(lists, file) == StripVerbatim(Folder(lists)) + file
  {
    var dir := Folder(lists);
    PrefixStaysInFolder(VERBATIM_UNC, dir, file);
    PrefixStaysInFolder(VERBATIM, dir, file);
  }

  lemma PrefixStaysInFolder(prefix: string, dir: string, file: string)
    requires prefix != "" && prefix[|prefix| - 1] == '\\' && '\\' !in file
    ensures prefix <= dir + file <==> prefix <= dir
  {
    var text := dir + file;
    assert forall i :: |dir| <= i < |text| ==> text[i] == file[i - |dir|] && text[i] in file;
    assert prefix <= text ==> text[|prefix| - 1] == '\\';
  }

  function Gated(lists: string): string { "--ipset=" + ListPath(lists, "ipset-all.txt") }
  function Ungated(lists: string): string { "--ipset=" + ListPath(lists, "ipset-game.txt") }
  function AutoList(lists: string): string { "--hostlist-auto=" + ListPath(lists, "list-auto.txt") }

  lemma GatesDiffer(lists: string)
    ensures Gated(lists) != Ungated(lists)
  {
    ListPathEndsWithTheFile(lists, "ipset-all.txt");
    ListPathEndsWithTheFile(lists, "ipset-game.txt");
    var a, b := Gated(lists), Ungated(lists);
    assert a[|a| - 5] == 'l' && b[|b| - 5] == 'e';
  }

  const FAIL_THRESHOLD := "--hostlist-auto-fail-threshold=3"
  const RETRANS_THRESHOLD := "--hostlist-auto-retrans-threshold=3"
  const ANY_PROTOCOL := "--dpi-desync-any-protocol=1"

  predicate IsHostlistArg(arg: string) {
    KeyOf(arg) in ["--hostlist", "--hostlist-domains", "--hostlist-exclude", "--hostlist-exclude-domains", "--hostlist-auto"]
  }

  // The options that give a section a list of hosts are these five, whatever their value.
  lemma WhichAreHostlists(key: string, value: string)
    requires '=' !in key
    ensures IsHostlistArg(key + "=" + value) <==>
            key == "--hostlist" || key == "--hostlist-domains" || key == "--hostlist-exclude"
            || key == "--hostlist-exclude-domains" || key == "--hostlist-auto"
  {
    KeyAndValue(key, value);
  }

  predicate IsOption(arg: string, key: string, value: string) {
    KeyOf(arg) == key && ValueOf(arg) == value
  }

  lemma AnOption(arg: string, key: string, value: string)
    requires '=' !in key && arg == key + "=" + value
    ensures IsOption(arg, key, value)
  {
    KeyAndValue(key, value);
  }

  // The arguments the rewrites look for and put in, as options and values.
  lemma TheSharedGate(lists: string)
    ensures IsOption(Gated(lists), "--ipset", ListPath(lists, "ipset-all.txt"))
  {
    AnOption(Gated(lists), "--ipset", ListPath(lists, "ipset-all.txt"));
  }

  lemma TheGameGate(lists: string)
    ensures IsOption(Ungated(lists), "--ipset", ListPath(lists, "ipset-game.txt"))
  {
    AnOption(Ungated(lists), "--ipset", ListPath(lists, "ipset-game.txt"));
  }

  lemma TheAutoList(lists: string)
    ensures IsOption(AutoList(lists), "--hostlist-auto", ListPath(lists, "list-auto.txt"))
  {
    AnOption(AutoList(lists), "--hostlist-auto", ListPath(lists, "list-auto.txt"));
  }

  lemma TheFailThreshold()
    ensures IsOption(FAIL_THRESHOLD, "--hostlist-auto-fail-threshold", "3")
  {
    AnOption(FAIL_THRESHOLD, "--hostlist-auto-fail-threshold", "3");
  }

  lemma TheRetransThreshold()
    ensures IsOption(RETRANS_THRESHOLD, "--hostlist-auto-retrans-threshold", "3")
  {
    AnOption(RETRANS_THRESHOLD, "--hostlist-auto-retrans-threshold", "3");
  }

  lemma TheFlag()
    ensures IsOption(ANY_PROTOCOL, "--dpi-desync-any-protocol", "1")
  {
    AnOption(ANY_PROTOCOL, "--dpi-desync-any-protocol", "1");
  }

  // Only the separator opens a section.
  lemma OnlyNewOpens(args: seq<string>, arg: string)
    ensures |Sections(args + [arg])| == |Sections(args)| + if arg == "--new" then 1 else 0
  {
    SectionsOn(args, arg);
  }

  predicate HostnameAware(s: Section) {
    exists a :: a in s && IsHostlistArg(a)
  }

  // --- the three rewrites, section by section ----------------------------------------------

  datatype Exclusion = Exclusion(byHost: string, byAddress: string)

  function ActiveVpnExclusion(lists: string): (e: Exclusion)
    ensures KeyOf(e.byHost) == "--hostlist-exclude" && ValueOf(e.byHost) == ListPath(lists, "active-vpn-domain.txt")
    ensures KeyOf(e.byAddress) == "--ipset-exclude" && ValueOf(e.byAddress) == ListPath(lists, "active-vpn-ip.txt")
    ensures NEW !in [e.byHost, e.byAddress]
  {
    KeyAndValue("--hostlist-exclude", ListPath(lists, "active-vpn-domain.txt"));
    KeyAndValue("--ipset-exclude", ListPath(lists, "active-vpn-ip.txt"));
    Exclusion("--hostlist-exclude" + "=" + ListPath(lists, "active-vpn-domain.txt"),
              "--ipset-exclude" + "=" + ListPath(lists, "active-vpn-ip.txt"))
  }

  function SpreadSection(s: Section, e: Exclusion): Section {
    s + (if HostnameAware(s) then [e.byHost] else []) + [e.byAddress]
  }

  // Every occurrence of `what` replaced by `by`.
  function Replace(s: Section, what: string, repl: Section): Section {
    if s == [] then []
    else Replace(s[..|s| - 1], what, repl) + if s[|s| - 1] == what then repl else [s[|s| - 1]]
  }

  predicate IsGame(s: Section, tcp: string, udp: string) {
    "--filter-tcp=" + tcp in s || "--filter-udp=" + udp in s
  }

  function UngateSection(s: Section, lists: string, tcp: string, udp: string): Section {
    if IsGame(s, tcp, udp) then Replace(s, Gated(lists), [Ungated(lists)]) else s
  }

  function AutoGate(lists: string): Section {
    [AutoList(lists), FAIL_THRESHOLD, RETRANS_THRESHOLD]
  }

  function GateSection(s: Section, lists: string): Section {
    if ANY_PROTOCOL in s then s else Replace(s, Gated(lists), AutoGate(lists))
  }

  // --- the loops ------------------------------------------------------------------------------

  // What the shared loop has done after some arguments: the finished sections are out, each
  // rewritten and closed, and the open one is collected.
  ghost predicate Progress(f: Section -> Section, seen: seq<string>, out: seq<string>, section: Section) {
    var ss := Sections(seen);
    section == ss[|ss| - 1] && out == Closed(Each(f, ss[..|ss| - 1]))
  }

  lemma CloseSection(f: Section -> Section, seen: seq<string>, out: seq<string>, section: Section)
    requires Progress(f, seen, out, section)
    ensures Progress(f, seen + [NEW], out + f(section) + [NEW], [])
    ensures out + f(section) == Rewrite(f, seen)
  {
    var ss := Sections(seen);
    var n := |ss| - 1;
    assert (seen + [NEW])[..|seen|] == seen;
    assert ss + [[]] == Sections(seen + [NEW]);
    assert (ss + [[]])[..|ss|] == ss;
    assert Each(f, ss)[..n] == Each(f, ss[..n]);
  }

  lemma GrowSection(f: Section -> Section, seen: seq<string>, out: seq<string>, section: Section, arg: string)
    requires Progress(f, seen, out, section) && arg != NEW
    ensures Progress(f, seen + [arg], out, section + [arg])
  {
    var ss := Sections(seen);
    assert (seen + [arg])[..|seen|] == seen;
    assert Sections(seen + [arg])[..|ss| - 1] == ss[..|ss| - 1];
  }

  method SpreadExclusionAcrossSections(args: seq<string>, e: Exclusion) returns (out: seq<string>)
    ensures out == Rewrite(s => SpreadSection(s, e), args)
  {
    ghost var f := s => SpreadSection(s, e);
    out := [];
    var section: Section := [];
    for i := 0 to |args|
      invariant Progress(f, args[..i], out, section)
    {
      assert args[..i + 1] == args[..i] + [args[i]];
      if args[i] == NEW {
        CloseSection(f, args[..i], out, section);
        var flushed := FlushExclusion(section, e);
        out := out + flushed + [NEW];
        section := [];
      } else {
        GrowSection(f, args[..i], out, section, args[i]);
        section := section + [args[i]];
      }
    }
    assert args[..|args|] == args;
    CloseSection(f, args, out, section);
    var flushed := FlushExclusion(section, e);
    out := out + flushed;
  }

  method FlushExclusion(section: Section, e: Exclusion) returns (out: Section)
    ensures out == SpreadSection(section, e)
  {
    var hostnameAware := false;
    for i := 0 to |section|
      invariant hostnameAware <==> HostnameAware(section[..i])
    {
      assert section[..i + 1] == section[..i] + [section[i]];
      hostnameAware := hostnameAware || IsHostlistArg(section[i]);
    }
    assert section[..|section|] == section;
    out := section;
    if hostnameAware {
      out := out + [e.byHost];
    }
    out := out + [e.byAddress];
  }

  method FlushReplacing(section: Section, active: bool, what: string, repl: Section) returns (out: Section)
    ensures out == if active then Replace(section, what, repl) else section
  {
    out := [];
    for i := 0 to |section|
      invariant out == if active then Replace(section[..i], what, repl) else section[..i]
    {
      assert section[..i + 1][..i] == section[..i];
      if active && section[i] == what {
        out := out + repl;
      } else {
        out := out + [section[i]];
      }
    }
    assert section[..|section|] == section;
  }

  method MarksGame(section: Section, tcp: string, udp: string) returns (game: bool)
    ensures game <==> IsGame(section, tcp, udp)
  {
    game := false;
    for i := 0 to |section|
      invariant game <==> IsGame(section[..i], tcp, udp)
    {
      assert section[..i + 1] == section[..i] + [section[i]];
      game := game || section[i] in ["--filter-tcp=" + tcp, "--filter-udp=" + udp];
    }
    assert section[..|section|] == section;
  }

  method UngateGameIpset(args: seq<string>, lists: string, tcp: string, udp: string) returns (out: seq<string>)
    ensures out == Rewrite(s => UngateSection(s, lists, tcp, udp), args)
  {
    ghost var f := s => UngateSection(s, lists, tcp, udp);
    out := [];
    var section: Section := [];
    for i := 0 to |args|
      invariant Progress(f, args[..i], out, section)
    {
      assert args[..i + 1] == args[..i] + [args[i]];
      if args[i] == NEW {
        CloseSection(f, args[..i], out, section);
        var game := MarksGame(section, tcp, udp);
        var flushed := FlushReplacing(section, game, Gated(lists), [Ungated(lists)]);
        out := out + flushed + [NEW];
        section := [];
      } else {
        GrowSection(f, args[..i], out, section, args[i]);
        section := section + [args[i]];
      }
    }
    assert args[..|args|] == args;
    CloseSection(f, args, out, section);
    var game := MarksGame(section, tcp, udp);
    var flushed := FlushReplacing(section, game, Gated(lists), [Ungated(lists)]);
    out := out + flushed;
  }

  method GateByAutohostlist(args: seq<string>, lists: string) returns (out: seq<string>)
    ensures out == Rewrite(s => GateSection(s, lists), args)
  {
    ghost var f := s => GateSection(s, lists);
    out := [];
    var section: Section := [];
    for i := 0 to |args|
      invariant Progress(f, args[..i], out, section)
    {
      assert args[..i + 1] == args[..i] + [args[i]];
      if args[i] == NEW {
        CloseSection(f, args[..i], out, section);
        var flushed := FlushReplacing(section, ANY_PROTOCOL !in section, Gated(lists), AutoGate(lists));
        out := out + flushed + [NEW];
        section := [];
      } else {
        GrowSection(f, args[..i], out, section, args[i]);
        section := section + [args[i]];
      }
    }
    assert args[..|args|] == args;
    CloseSection(f, args, out, section);
    var flushed := FlushReplacing(section, ANY_PROTOCOL !in section, Gated(lists), AutoGate(lists));
    out := out + flushed;
  }

  // --- laws of the rewrites -------------------------------------------------------------------

  lemma {:induction false} ReplaceContains(s: Section, what: string, repl: Section, a: string)
    ensures a in Replace(s, what, repl) <==> (a in s && a != what) || (what in s && a in repl)
    decreases s
  {
    if s != [] {
      ReplaceContains(s[..|s| - 1], what, repl, a);
      assert s == s[..|s| - 1] + [s[|s| - 1]];
    }
  }

  lemma {:induction false} ReplaceNothing(s: Section, what: string, repl: Section)
    requires what !in s
    ensures Replace(s, what, repl) == s
    decreases s
  {
    if s != [] {
      ReplaceNothing(s[..|s| - 1], what, repl);
      assert s[|s| - 1] in s;
    }
  }

  lemma IpsetLiterals(lists: string)
    ensures Gated(lists) != Ungated(lists)
    ensures |Gated(lists)| > 2 && Gated(lists)[2] == 'i' && |Ungated(lists)| > 2 && Ungated(lists)[2] == 'i'
  {
    GatesDiffer(lists);
  }

  lemma HostlistLiterals(lists: string)
    ensures forall a :: a in AutoGate(lists) ==> |a| > 2 && a[2] == 'h'
  {
    assert AutoList(lists)[2] == 'h';
    assert FAIL_THRESHOLD[2] == 'h' && RETRANS_THRESHOLD[2] == 'h';
  }

  // No rewritten argument is one the rewrites look for, or a separator.
  predicate Neutral(a: string) {
    |a| > 2 && (a[2] == 'f' || a[2] == 'd' || a[2] == 'n')
  }

  lemma NeutralLiterals(tcp: string, udp: string)
    ensures Neutral("--filter-tcp=" + tcp) && Neutral("--filter-udp=" + udp) && Neutral(ANY_PROTOCOL) && Neutral(NEW)
  {
    assert ("--filter-tcp=" + tcp)[2] == 'f' && ("--filter-udp=" + udp)[2] == 'f';
  }

  lemma NeutralSurvives(s: Section, lists: string, a: string)
    requires Neutral(a)
    ensures a in Replace(s, Gated(lists), [Ungated(lists)]) <==> a in s
    ensures a in Replace(s, Gated(lists), AutoGate(lists)) <==> a in s
  {
    IpsetLiterals(lists);
    HostlistLiterals(lists);
    ReplaceContains(s, Gated(lists), [Ungated(lists)], a);
    ReplaceContains(s, Gated(lists), AutoGate(lists), a);
  }

  lemma GateDisappears(s: Section, lists: string)
    ensures Gated(lists) !in Replace(s, Gated(lists), [Ungated(lists)])
    ensures Gated(lists) !in Replace(s, Gated(lists), AutoGate(lists))
  {
    IpsetLiterals(lists);
    HostlistLiterals(lists);
    ReplaceContains(s, Gated(lists), [Ungated(lists)], Gated(lists));
    ReplaceContains(s, Gated(lists), AutoGate(lists), Gated(lists));
  }

  lemma UngateKeeps(s: Section, lists: string, tcp: string, udp: string)
    ensures IsGame(UngateSection(s, lists, tcp, udp), tcp, udp) <==> IsGame(s, tcp, udp)
    ensures ANY_PROTOCOL in UngateSection(s, lists, tcp, udp) <==> ANY_PROTOCOL in s
    ensures Gated(lists) in UngateSection(s, lists, tcp, udp) <==> Gated(lists) in s && !IsGame(s, tcp, udp)
    ensures NEW !in s ==> NEW !in UngateSection(s, lists, tcp, udp)
  {
    NeutralLiterals(tcp, udp);
    NeutralSurvives(s, lists, "--filter-tcp=" + tcp);
    NeutralSurvives(s, lists, "--filter-udp=" + udp);
    NeutralSurvives(s, lists, ANY_PROTOCOL);
    NeutralSurvives(s, lists, NEW);
    GateDisappears(s, lists);
  }

  lemma GateKeeps(s: Section, lists: string, tcp: string, udp: string)
    ensures IsGame(GateSection(s, lists), tcp, udp) <==> IsGame(s, tcp, udp)
    ensures ANY_PROTOCOL in GateSection(s, lists) <==> ANY_PROTOCOL in s
    ensures Gated(lists) in GateSection(s, lists) <==> Gated(lists) in s && ANY_PROTOCOL in s
    ensures NEW !in s ==> NEW !in GateSection(s, lists)
  {
    NeutralLiterals(tcp, udp);
    NeutralSurvives(s, lists, "--filter-tcp=" + tcp);
    NeutralSurvives(s, lists, "--filter-udp=" + udp);
    NeutralSurvives(s, lists, ANY_PROTOCOL);
    NeutralSurvives(s, lists, NEW);
    GateDisappears(s, lists);
  }

  lemma UngateIsPlain(lists: string, tcp: string, udp: string)
    ensures KeepsPlain(s => UngateSection(s, lists, tcp, udp))
  {
    forall s: Section | NEW !in s ensures NEW !in UngateSection(s, lists, tcp, udp) { UngateKeeps(s, lists, tcp, udp); }
  }

  lemma GateIsPlain(lists: string)
    ensures KeepsPlain(s => GateSection(s, lists))
  {
    forall s: Section | NEW !in s ensures NEW !in GateSection(s, lists) { GateKeeps(s, lists, "", ""); }
  }

  lemma SpreadIsPlain(e: Exclusion)
    requires NEW !in [e.byHost, e.byAddress]
    ensures KeepsPlain(s => SpreadSection(s, e))
  {
    assert e.byHost in [e.byHost, e.byAddress] && e.byAddress in [e.byHost, e.byAddress];
  }

  function Ungate(args: seq<string>, lists: string, tcp: string, udp: string): seq<string> {
    Rewrite(s => UngateSection(s, lists, tcp, udp), args)
  }

  function Gate(args: seq<string>, lists: string): seq<string> {
    Rewrite(s => GateSection(s, lists), args)
  }

  lemma UngateIsIdempotent(args: seq<string>, lists: string, tcp: string, udp: string)
    ensures Ungate(Ungate(args, lists, tcp, udp), lists, tcp, udp) == Ungate(args, lists, tcp, udp)
  {
    var f := s => UngateSection(s, lists, tcp, udp);
    UngateIsPlain(lists, tcp, udp);
    RewritesCompose(f, f, args);
    RewritesAgree(Compose(f, f), f, args);
    forall s | s in Sections(args) ensures f(f(s)) == f(s) {
      UngateKeeps(s, lists, tcp, udp);
      if IsGame(s, tcp, udp) {
        ReplaceNothing(f(s), Gated(lists), [Ungated(lists)]);
      }
    }
  }

  lemma GateIsIdempotent(args: seq<string>, lists: string)
    ensures Gate(Gate(args, lists), lists) == Gate(args, lists)
  {
    var f := s => GateSection(s, lists);
    GateIsPlain(lists);
    RewritesCompose(f, f, args);
    RewritesAgree(Compose(f, f), f, args);
    forall s | s in Sections(args) ensures f(f(s)) == f(s) {
      GateKeeps(s, lists, "", "");
      if ANY_PROTOCOL !in s {
        ReplaceNothing(f(s), Gated(lists), AutoGate(lists));
      }
    }
  }

  // A game section behind the shared ipset that may still be handed to the autohostlist.
  predicate Contested(s: Section, lists: string, tcp: string, udp: string) {
    IsGame(s, tcp, udp) && Gated(lists) in s && ANY_PROTOCOL !in s
  }

  lemma SectionsCommute(s: Section, lists: string, tcp: string, udp: string)
    ensures GateSection(UngateSection(s, lists, tcp, udp), lists) == UngateSection(GateSection(s, lists), lists, tcp, udp)
            <==> !Contested(s, lists, tcp, udp)
  {
    UngateKeeps(s, lists, tcp, udp);
    GateKeeps(s, lists, tcp, udp);
    var u, g := UngateSection(s, lists, tcp, udp), GateSection(s, lists);
    if Contested(s, lists, tcp, udp) {
      // One order keeps the game gate, the other never introduces it for this section.
      ReplaceNothing(u, Gated(lists), AutoGate(lists));
      ReplaceNothing(g, Gated(lists), [Ungated(lists)]);
      ReplaceDiffers(s, Gated(lists), [Ungated(lists)], AutoGate(lists));
    } else if Gated(lists) !in s {
      ReplaceNothing(s, Gated(lists), [Ungated(lists)]);
      ReplaceNothing(s, Gated(lists), AutoGate(lists));
    }
  }

  lemma {:induction false} ReplaceLength(s: Section, what: string, one: Section, three: Section)
    requires |one| == 1 && |three| == 3
    ensures |Replace(s, what, one)| == |s| <= |Replace(s, what, three)|
    ensures what in s ==> |s| < |Replace(s, what, three)|
    decreases s
  {
    if s != [] {
      ReplaceLength(s[..|s| - 1], what, one, three);
    }
  }

  lemma ReplaceDiffers(s: Section, what: string, one: Section, three: Section)
    requires |one| == 1 && |three| == 3 && what in s
    ensures Replace(s, what, one) != Replace(s, what, three)
  {
    ReplaceLength(s, what, one, three);
  }

  // The two rewrites commute exactly when no section is contested.
  lemma RewritesCommute(args: seq<string>, lists: string, tcp: string, udp: string)
    ensures Gate(Ungate(args, lists, tcp, udp), lists) == Ungate(Gate(args, lists), lists, tcp, udp)
            <==> forall s :: s in Sections(args) ==> !Contested(s, lists, tcp, udp)
  {
    var u := s => UngateSection(s, lists, tcp, udp);
    var g := s => GateSection(s, lists);
    UngateIsPlain(lists, tcp, udp);
    GateIsPlain(lists);
    RewritesCompose(u, g, args);
    RewritesCompose(g, u, args);
    RewritesAgree(Compose(u, g), Compose(g, u), args);
    forall s: Section ensures Compose(u, g)(s) == Compose(g, u)(s) <==> !Contested(s, lists, tcp, udp) {
      SectionsCommute(s, lists, tcp, udp);
    }
  }

  // The debug argument dpi_start puts in front leaves every section as hostname-aware as it
  // was: the first section gains an argument that is no hostlist, the others are the same.
  lemma DebugArgumentIsInert(args: seq<string>, log: string)
    ensures var debug := "--hostlist-auto-debug" + "=" + log;
            var before, after := Sections(args), Sections([debug] + args);
            && |after| == |before| && after[0] == [debug] + before[0] && after[1..] == before[1..]
            && forall i :: 0 <= i < |before| ==> (HostnameAware(after[i]) <==> HostnameAware(before[i]))
  {
    var debug := "--hostlist-auto-debug" + "=" + log;
    KeyAndValue("--hostlist-auto-debug", log);
    assert debug[2] == 'h' && NEW[2] == 'n';
    Prepended(debug, args);
    InertArgument(debug, Sections(args), Sections([debug] + args));
  }

  lemma InertArgument(a: string, before: seq<Section>, after: seq<Section>)
    requires !IsHostlistArg(a)
    requires StartsWith(a, before, after)
    ensures forall i :: 0 <= i < |before| ==> (HostnameAware(after[i]) <==> HostnameAware(before[i]))
  {
    forall i | 0 <= i < |before|
      ensures HostnameAware(after[i]) <==> HostnameAware(before[i])
    {
      assert i > 0 ==> after[i] == after[1..][i - 1] == before[1..][i - 1] == before[i];
    }
  }

  lemma {:induction false} Prepended(first: string, args: seq<string>)
    requires first != NEW
    ensures StartsWith(first, Sections(args), Sections([first] + args))
    decreases |args|
  {
    if args == [] {
      assert [first] + args == [first];
      assert [first][..0] == [];
    } else {
      var rest, last := args[..|args| - 1], args[|args| - 1];
      assert StartsWith(first, Sections(rest + [last]), Sections([first] + (rest + [last]))) by {
        Prepended(first, rest);
        PrependedOn(first, rest, last);
      }
      assert rest + [last] == args;
    }
  }

  ghost predicate StartsWith(first: string, before: seq<Section>, after: seq<Section>) {
    before != [] && |after| == |before| && after[0] == [first] + before[0] && after[1..] == before[1..]
  }

  lemma PrependedOn(first: string, args: seq<string>, last: string)
    requires StartsWith(first, Sections(args), Sections([first] + args))
    ensures StartsWith(first, Sections(args + [last]), Sections([first] + (args + [last])))
  {
    SectionsOn(args, last);
    SectionsOn([first] + args, last);
    OneMore([first], args, last);
    PrependedStep(first, last, Sections(args), Sections([first] + args));
  }

  lemma PrependedStep(first: string, last: string, before: seq<Section>, after: seq<Section>)
    requires StartsWith(first, before, after)
    ensures StartsWith(first, AddTo(before, last), AddTo(after, last))
  {
    assert forall i :: 1 <= i < |before| ==> after[i] == after[1..][i - 1] == before[1..][i - 1] == before[i];
  }
}
