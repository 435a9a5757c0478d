/**
  What a generation of the strategy channel consists of: the checks on a staged bundle and the
  files that `dpi_sync_channel` of `src-tauri/src/dpi.rs` puts together from it.
 */
module ChannelFiles {
  import opened Common
  import opened Text
  import opened LineText

  // The lists of a generation, under the names list-general.txt, list-google.txt,
  // list-exclude.txt, ipset-exclude.txt; list-general-user.txt, list-exclude-user.txt,
  // ipset-exclude-user.txt, active-vpn-domain.txt, active-vpn-ip.txt, ipset-all.txt,
  // ipset-all.base.txt, ipset-game.txt and list-auto.txt.
  datatype ListName =
    | General | Google | Exclude | IpsetExclude
    | GeneralUser | ExcludeUser | IpsetExcludeUser | ActiveVpnDomain | ActiveVpnIp
    | IpsetAll | IpsetBase | IpsetGame | Auto

  // CHANNEL_LIST_FILES; all others are LOCAL_LIST_FILES.
  predicate FromChannel(n: ListName) { n in {General, Google, Exclude, IpsetExclude} }

  // The files under service/: hosts and ipset-service.txt.
  datatype ServiceName = HostsFile | IpsetFile

  datatype File =
    | List(list: ListName) | Bin(name: string) | Service(service: ServiceName)
    | Strategies | Version

  type Files = map<File, string>

  datatype FakeSelection = FakeSelection(discord: Option<string>, game: Option<string>)

  datatype Generation = Generation(files: Files, hasBin: bool, fakes: Option<FakeSelection>)

  const ACTIVE_DISCORD := "ACTIVE_DISCORD_UDP.bin"
  const ACTIVE_GAME := "ACTIVE_GAME_UDP.bin"
  const MAX_PAYLOAD := 1024 * 1024

  // `validate_channel_generation`
  predicate Complete(g: Generation) {
    && Strategies in g.files && Version in g.files && g.hasBin
    && (forall n :: FromChannel(n) ==> List(n) in g.files)
    && (forall n :: Service(n) in g.files)
  }

  predicate IsAlphanumeric(c: char) { '0' <= c <= '9' || 'a' <= c <= 'z' || 'A' <= c <= 'Z' }

  predicate ValidGenerationName(name: string) {
    "gen-" <= name && |name| <= 128 && forall i :: 0 <= i < |name| ==> IsAlphanumeric(name[i]) || name[i] == '-'
  }

  predicate ValidVersion(version: string) {
    0 < |version| <= 128 && forall i :: 0 <= i < |version| ==> IsAlphanumeric(version[i]) || version[i] in "._-+"
  }

  predicate EndsWith(s: string, end: string) { |end| <= |s| && s[|s| - |end|..] == end }

  predicate ValidBinName(name: string) {
    && 0 < |name| <= 128 && EndsWith(LowerAscii(name), ".bin")
    && forall i :: 0 <= i < |name| ==> IsAlphanumeric(name[i]) || name[i] in "._-"
  }

  predicate ValidFakeName(name: string) { ValidBinName(name) && !("active_" <= LowerAscii(name)) }

  // --- what the names may look like ---------------------------------------------------------------

  lemma WhichAreAlphanumeric(c: char)
    ensures var n := c as int; IsAlphanumeric(c) <==> 47 < n < 58 || 64 < n < 91 || 96 < n < 123
  {
  }

  lemma EndsWithMeans(s: string, end: string)
    ensures EndsWith(s, end) <==> exists front :: s == front + end
  {
    if EndsWith(s, end) {
      assert s == s[..|s| - |end|] + end;
    }
  }

  // Generations have names of at most 128 letters, digits and hyphens behind "gen-".
  lemma GenerationNames(rest: string)
    ensures ValidGenerationName("gen-" + rest) <==> |rest| <= 124 && forall c :: c in rest ==> IsAlphanumeric(c) || c == '-'
  {
    var name := "gen-" + rest;
    assert forall i :: 4 <= i < |name| ==> name[i] == rest[i - 4];
    if ValidGenerationName(name) {
      forall c | c in rest
        ensures IsAlphanumeric(c) || c == '-'
      {
        var i :| 0 <= i < |rest| && rest[i] == c;
        assert name[i + 4] == c;
      }
    }
  }

  lemma OnlyGenerationNames(name: string)
    requires ValidGenerationName(name)
    ensures |name| >= 4 && name == "gen-" + name[4..]
  {
  }

  // Versions are 1 to 128 letters, digits, dots, underscores, hyphens and plus signs.
  lemma Versions(version: string)
    ensures ValidVersion(version) <==> 0 < |version| < 129 && forall c :: c in version ==> IsAlphanumeric(c) || c in ['.', '_', '-', '+']
  {
    if ValidVersion(version) {
      forall c | c in version
        ensures IsAlphanumeric(c) || c in ['.', '_', '-', '+']
      {
        var i :| 0 <= i < |version| && version[i] == c;
      }
    }
  }

  // Payloads have names of at most 128 letters, digits, dots, underscores and hyphens that end in
  // ".bin" in any case; so none leads out of its directory.
  lemma PayloadNames(name: string)
    ensures ValidBinName(name) <==>
              && |name| < 129 && (exists front :: LowerAscii(name) == front + ".bin")
              && forall c :: c in name ==> IsAlphanumeric(c) || c in ['.', '_', '-']
    ensures ValidBinName(name) ==> '/' !in name && '\\' !in name && ':' !in name
  {
    EndsWithMeans(LowerAscii(name), ".bin");
    if ValidBinName(name) {
      forall c | c in name
        ensures IsAlphanumeric(c) || c in ['.', '_', '-']
      {
        var i :| 0 <= i < |name| && name[i] == c;
      }
    }
  }

  // `Path::extension` is "bin": a name that is not the extension alone.
  predicate HasBinExtension(name: string) { EndsWith(name, ".bin") && |name| > 4 }

  // --- the staged bundle ------------------------------------------------------------------------

  datatype Strategy = Strategy(args: seq<string>)

  // The unpacked bundle; `parsed` is what its strategies file parses to.
  datatype Staged = Staged(files: Files, hasBin: bool, parsed: Option<seq<Strategy>>)

  function Payloads(staged: Staged): set<string> {
    set f | f in staged.files && f.Bin? && HasBinExtension(f.name) :: f.name
  }

  function AfterMark(arg: string): Option<string> {
    if |arg| < 5 then None else if arg[..5] == "%BIN%" then Some(arg[5..]) else AfterMark(arg[1..])
  }

  function FirstWord(s: string): string {
    if s == "" || IsWhitespace(s[0]) then "" else [s[0]] + FirstWord(s[1..])
  }

  // The payload an argument names.
  function NamedPayload(arg: string): Option<string> {
    var tail := AfterMark(arg);
    if tail.Some? && EndsWith(FirstWord(tail.value), ".bin") then Some(FirstWord(tail.value)) else None
  }

  // An argument names the word behind its first "%BIN%", if that ends in ".bin".
  lemma NamedMeans(arg: string, front: string, word: string, rest: string)
    requires MarkedAt(arg, front, word, rest)
    ensures NamedPayload(arg) == if EndsWith(word, ".bin") then Some(word) else None
  {
    var behind := word + rest;
    assert arg == front + ("%BIN%" + behind);
    assert arg[|front|..] == "%BIN%" + behind;
    MarkFound(arg, |front|);
    assert arg[|front| + 5..] == behind;
    WordEnds(word, rest);
  }

  lemma UnmarkedNamesNothing(arg: string)
    requires forall i :: 0 <= i <= |arg| ==> !("%BIN%" <= arg[i..])
    ensures NamedPayload(arg) == None
  {
    MarkMeans(arg);
  }

  // The first mark stands behind `front`, and the word behind it ends where `rest` begins.
  ghost predicate MarkedAt(arg: string, front: string, word: string, rest: string) {
    && arg == front + "%BIN%" + word + rest && (forall i :: 0 <= i < |front| ==> !("%BIN%" <= arg[i..]))
    && (forall i :: 0 <= i < |word| ==> !IsWhitespace(word[i])) && (rest == "" || IsWhitespace(rest[0]))
  }

  lemma {:induction false} MarkMeans(arg: string)
    ensures AfterMark(arg) == None <==> forall i :: 0 <= i <= |arg| ==> !("%BIN%" <= arg[i..])
    decreases arg
  {
    if |arg| >= 5 {
      assert arg[0..] == arg && (arg[..5] == "%BIN%" <==> "%BIN%" <= arg);
      MarkMeans(arg[1..]);
      assert forall i :: 1 <= i <= |arg| ==> arg[i..] == arg[1..][i - 1..];
      assert forall i :: 0 <= i < |arg| ==> arg[1..][i..] == arg[i + 1..];
    }
  }

  lemma {:induction false} MarkFound(arg: string, at: nat)
    requires at <= |arg| && "%BIN%" <= arg[at..] && forall i :: 0 <= i < at ==> !("%BIN%" <= arg[i..])
    ensures AfterMark(arg) == Some(arg[at + 5..])
    decreases at
  {
    if at > 0 {
      assert arg[0..] == arg;
      assert forall i :: 0 <= i < at ==> arg[1..][i..] == arg[i + 1..];
      MarkFound(arg[1..], at - 1);
      assert arg[1..][at - 1 + 5..] == arg[at + 5..];
    } else {
      assert arg[0..] == arg;
    }
  }

  lemma {:induction false} WordEnds(word: string, rest: string)
    requires (forall i :: 0 <= i < |word| ==> !IsWhitespace(word[i])) && (rest == "" || IsWhitespace(rest[0]))
    ensures FirstWord(word + rest) == word
    decreases word
  {
    if word != "" {
      assert (word + rest)[1..] == word[1..] + rest;
      WordEnds(word[1..], rest);
    } else {
      assert word + rest == rest;
    }
  }

  predicate Names(staged: Staged, payload: string) {
    staged.parsed.Some? && exists s, a :: s in staged.parsed.value && a in s.args && NamedPayload(a) == Some(payload)
  }

  // A payload is a file with a name and the extension "bin".
  lemma BinExtensions(name: string)
    ensures HasBinExtension(name) <==> exists stem :: stem != "" && name == stem + ".bin"
  {
    EndsWithMeans(name, ".bin");
  }

  // It holds from one byte to a mebibyte.
  lemma PayloadSizes(staged: Staged, name: string)
    requires Acceptable(staged) && name in Payloads(staged)
    ensures 0 < |staged.files[Bin(name)]| < 1048577 && ValidBinName(name)
  {
  }

  predicate Acceptable(staged: Staged) {
    && Strategies in staged.files && staged.parsed.Some? && staged.parsed.value != []
    && staged.hasBin && 0 < |Payloads(staged)| <= 256
    && (forall n :: n in Payloads(staged) ==> ValidBinName(n) && 1 <= |staged.files[Bin(n)]| <= MAX_PAYLOAD)
    && (forall s, a :: s in staged.parsed.value && a in s.args ==> NamedPayload(a).Some? ==> NamedPayload(a).value in Payloads(staged))
    && Version in staged.files && ValidVersion(Trim(staged.files[Version]))
    && (forall n :: FromChannel(n) ==> List(n) in staged.files)
    && (forall n :: Service(n) in staged.files)
  }

  const CHANNEL_LISTS := [General, Google, Exclude, IpsetExclude]
  const SERVICES := [HostsFile, IpsetFile]

  // The checks in the order of `dpi_sync_channel`.
  method CheckStaged(staged: Staged) returns (ok: bool)
    ensures ok <==> Acceptable(staged)
  {
    if Strategies !in staged.files || staged.parsed.None? || staged.parsed.value == [] || !staged.hasBin {
      return false;
    }
    var incoming;
    ok, incoming := CheckPayloads(staged);
    if !ok || incoming == {} || |incoming| > 256 {
      return false;
    }
    ok := CheckReferences(staged.parsed.value, incoming);
    if !ok || Version !in staged.files || !ValidVersion(Trim(staged.files[Version])) {
      return false;
    }
    ok := CheckPresent(staged);
  }

  method CheckPayloads(staged: Staged) returns (ok: bool, incoming: set<string>)
    ensures ok <==> forall n :: n in Payloads(staged) ==> ValidBinName(n) && 1 <= |staged.files[Bin(n)]| <= MAX_PAYLOAD
    ensures ok ==> incoming == Payloads(staged)
  {
    var todo := set f | f in staged.files && f.Bin?;
    ghost var all := todo;
    incoming := {};
    while todo != {}
      invariant todo <= all && forall n :: n in incoming <==> n in Payloads(staged) && Bin(n) !in todo
      invariant forall n :: n in incoming ==> ValidBinName(n) && 1 <= |staged.files[Bin(n)]| <= MAX_PAYLOAD
      decreases |todo|
    {
      var f :| f in todo;
      if HasBinExtension(f.name) {
        if !ValidBinName(f.name) || !(1 <= |staged.files[f]| <= MAX_PAYLOAD) {
          assert f.name in Payloads(staged);
          return false, incoming;
        }
        incoming := incoming + {f.name};
      }
      todo := todo - {f};
    }
    assert incoming == Payloads(staged);
    ok := true;
  }

  method CheckReferences(strategies: seq<Strategy>, incoming: set<string>) returns (ok: bool)
    ensures ok <==> forall s, a :: s in strategies && a in s.args ==> NamedPayload(a).Some? ==> NamedPayload(a).value in incoming
  {
    for i := 0 to |strategies|
      invariant forall s, a :: s in strategies[..i] && a in s.args ==> NamedPayload(a).Some? ==> NamedPayload(a).value in incoming
    {
      var args := strategies[i].args;
      for j := 0 to |args|
        invariant forall a :: a in args[..j] ==> NamedPayload(a).Some? ==> NamedPayload(a).value in incoming
      {
        var named := NamedPayload(args[j]);
        if named.Some? && named.value !in incoming {
          assert strategies[i] in strategies && args[j] in strategies[i].args;
          return false;
        }
      }
      assert strategies[..i + 1] == strategies[..i] + [strategies[i]];
    }
    assert strategies[..|strategies|] == strategies;
    ok := true;
  }

  method CheckPresent(staged: Staged) returns (ok: bool)
    ensures ok <==> (forall n :: FromChannel(n) ==> List(n) in staged.files) && (forall n :: Service(n) in staged.files)
  {
    for i := 0 to |CHANNEL_LISTS|
      invariant forall n :: n in CHANNEL_LISTS[..i] ==> List(n) in staged.files
    {
      assert CHANNEL_LISTS[i] in CHANNEL_LISTS && CHANNEL_LISTS[..i + 1] == CHANNEL_LISTS[..i] + [CHANNEL_LISTS[i]];
      if List(CHANNEL_LISTS[i]) !in staged.files {
        assert FromChannel(CHANNEL_LISTS[i]);
        return false;
      }
    }
    AllLists();
    for i := 0 to |SERVICES|
      invariant forall n :: n in SERVICES[..i] ==> Service(n) in staged.files
    {
      assert SERVICES[..i + 1] == SERVICES[..i] + [SERVICES[i]];
      if Service(SERVICES[i]) !in staged.files {
        return false;
      }
    }
    ok := true;
  }

  lemma AllLists()
    ensures CHANNEL_LISTS[..|CHANNEL_LISTS|] == CHANNEL_LISTS && SERVICES[..|SERVICES|] == SERVICES
    ensures (forall n :: FromChannel(n) <==> n in CHANNEL_LISTS) && forall n :: n in SERVICES
  {
    assert CHANNEL_LISTS == [General, Google, Exclude, IpsetExclude] && SERVICES == [HostsFile, IpsetFile];
    forall n: ServiceName
      ensures n in SERVICES
    {
      assert n == SERVICES[0] || n == SERVICES[1];
    }
    forall n: ListName
      ensures FromChannel(n) <==> n in CHANNEL_LISTS
    {
      assert General == CHANNEL_LISTS[0] && Google == CHANNEL_LISTS[1] && Exclude == CHANNEL_LISTS[2] && IpsetExclude == CHANNEL_LISTS[3];
    }
  }

  // --- the new generation -----------------------------------------------------------------------

  // What it is made from: the bundle, the lists in force, the base list that ships with the
  // program, and the fakes the user chose.
  datatype Parts = Parts(staged: Staged, current: Files, shippedBase: Option<string>, fakes: FakeSelection)

  function Carried(parts: Parts, name: ListName): string {
    if List(name) in parts.current then parts.current[List(name)]
    else if name == IpsetBase && parts.shippedBase.Some? then parts.shippedBase.value
    else ""
  }

  function LocalLayer(parts: Parts): Files {
    map n: ListName | !FromChannel(n) :: List(n) := Carried(parts, n)
  }

  function ListLayer(parts: Parts): Files {
    map f | f in parts.staged.files && f.List? && FromChannel(f.list) :: f := parts.staged.files[f]
  }

  function PayloadLayer(parts: Parts): Files {
    map f | f in parts.staged.files && f.Bin? && HasBinExtension(f.name) :: f := parts.staged.files[f]
  }

  function ServiceLayer(parts: Parts): Files {
    map f | f in parts.staged.files && f.Service? :: f := parts.staged.files[f]
  }

  // The new base of address ranges, if the service file has any entry.
  function BaseLayer(parts: Parts): Files {
    if Service(IpsetFile) in parts.staged.files && IpsetBaseFrom(parts.staged.files[Service(IpsetFile)]).Some? then
      map[List(IpsetBase) := IpsetBaseFrom(parts.staged.files[Service(IpsetFile)]).value]
    else map[]
  }

  function TextLayer(parts: Parts): Files {
    if Strategies in parts.staged.files && Version in parts.staged.files then
      map[Strategies := parts.staged.files[Strategies], Version := Trim(parts.staged.files[Version]) + "\n"]
    else map[]
  }

  // A choice that the bundle still has.
  function StillThere(parts: Parts, choice: Option<string>): Option<string> {
    if choice.Some? && choice.value in Payloads(parts.staged) && ValidFakeName(choice.value) then choice else None
  }

  function FakeLayer(parts: Parts, slot: string, choice: Option<string>): Files {
    var kept := StillThere(parts, choice);
    if kept.Some? then map[Bin(slot) := parts.staged.files[Bin(kept.value)]] else map[]
  }

  function KeptFakes(parts: Parts): FakeSelection {
    FakeSelection(StillThere(parts, parts.fakes.discord), StillThere(parts, parts.fakes.game))
  }

  function BundleFiles(parts: Parts): Files {
    LocalLayer(parts) + ListLayer(parts) + PayloadLayer(parts) + ServiceLayer(parts) + BaseLayer(parts) + TextLayer(parts)
  }

  function BuiltFiles(parts: Parts): Files {
    BundleFiles(parts)
    + FakeLayer(parts, ACTIVE_DISCORD, parts.fakes.discord) + FakeLayer(parts, ACTIVE_GAME, parts.fakes.game)
  }

  function Built(parts: Parts): Generation {
    Generation(BuiltFiles(parts), true, Some(KeptFakes(parts)))
  }

  predicate IsEntry(line: string) { Trim(line) != "" && Trim(line)[0] != '#' }

  // `count_ipset_lines`
  function CountEntries(lines: seq<string>): nat {
    if lines == [] then 0 else CountEntries(lines[1..]) + if IsEntry(lines[0]) then 1 else 0
  }

  // `ipset_base_from_service`
  function IpsetBaseFrom(raw: string): Option<string> {
    var body := Norm(raw);
    if CountEntries(Lines(Pieces(body))) > 0 then Some(body) else None
  }

  // A service file brings a base exactly if one of its lines is neither blank nor a comment, and
  // the base is the whole file with CRLF replaced.
  lemma BaseIsBrought(raw: string)
    ensures IpsetBaseFrom(raw).Some? <==>
            exists line :: line in Lines(Pieces(Norm(raw))) && var t := Trim(line); |t| > 0 && t[0] as int != 35
    ensures IpsetBaseFrom(raw).Some? ==> IpsetBaseFrom(raw).value == Norm(raw)
  {
    SomeEntry(Lines(Pieces(Norm(raw))));
    assert forall line :: IsEntry(line) <==> var t := Trim(line); |t| > 0 && t[0] as int != 35;
  }

  lemma {:induction false} SomeEntry(lines: seq<string>)
    ensures CountEntries(lines) > 0 <==> exists line :: line in lines && IsEntry(line)
  {
    if lines != [] {
      SomeEntry(lines[1..]);
    }
  }

  // --- seeding ----------------------------------------------------------------------------------

  // The lists `ensure_lists` looks after: those of the channel and most local ones.
  predicate Seeded(n: ListName) { n !in {IpsetAll, IpsetBase} }

  // What it adds: the shipped list if there is one, or else an empty one.
  function Seeds(current: Files, shipped: map<ListName, string>): Files {
    map n: ListName | Seeded(n) && List(n) !in current :: List(n) := if FromChannel(n) && n in shipped then shipped[n] else ""
  }

  // A missing list of the channel starts as the one that ships with the program, if any; a missing
  // local one starts empty, but for the two that are written elsewhere.
  lemma SeedsAre(current: Files, shipped: map<ListName, string>, n: ListName)
    ensures var seeds := Seeds(current, shipped);
            && (List(n) in seeds <==> List(n) !in current && n != IpsetAll && n != IpsetBase)
            && (List(n) in seeds ==>
                  seeds[List(n)] == if n in {General, Google, Exclude, IpsetExclude} && n in shipped then shipped[n] else "")
            && forall f :: f in seeds ==> f.List?
  {
  }

  // --- what the construction promises -----------------------------------------------------------

  function Find(files: Files, f: File): Option<string> {
    if f in files then Some(files[f]) else None
  }

  function Or(first: Option<string>, second: Option<string>): Option<string> {
    if first.Some? then first else second
  }

  // The later layer wins.
  lemma FindMerged(a: Files, b: Files, f: File)
    ensures Find(a + b, f) == Or(Find(b, f), Find(a, f))
  {
  }

  // What the generation holds, file by file.
  function Expected(parts: Parts, f: File): Option<string>
    requires Strategies in parts.staged.files && Version in parts.staged.files
  {
    var staged := Find(parts.staged.files, f);
    match f
    case List(n) =>
      var brought := if n == IpsetBase then Find(BaseLayer(parts), f) else None;
      if brought.Some? then brought
      else if FromChannel(n) then staged
      else Some(Carried(parts, n))
    case Service(_) => staged
    case Strategies => staged
    case Version => Some(Trim(parts.staged.files[Version]) + "\n")
    case Bin(n) =>
      var discord, game := StillThere(parts, parts.fakes.discord), StillThere(parts, parts.fakes.game);
      if n == ACTIVE_GAME && game.Some? then Find(parts.staged.files, Bin(game.value))
      else if n == ACTIVE_DISCORD && discord.Some? then Find(parts.staged.files, Bin(discord.value))
      else if HasBinExtension(n) then staged
      else None
  }

  // Before the chosen fakes are laid over it.
  function ExpectedBefore(parts: Parts, f: File): Option<string>
    requires Strategies in parts.staged.files && Version in parts.staged.files
  {
    if f.Bin? then if HasBinExtension(f.name) then Find(parts.staged.files, f) else None
    else Expected(parts, f)
  }

  lemma BundleAt(parts: Parts, f: File)
    requires Strategies in parts.staged.files && Version in parts.staged.files
    ensures Find(BundleFiles(parts), f) == ExpectedBefore(parts, f)
  {
    var l1, l2, l3, l4 := LocalLayer(parts), ListLayer(parts), PayloadLayer(parts), ServiceLayer(parts);
    var l5, l6 := BaseLayer(parts), TextLayer(parts);
    FindMerged(l1, l2, f);
    FindMerged(l1 + l2, l3, f);
    FindMerged(l1 + l2 + l3, l4, f);
    FindMerged(l1 + l2 + l3 + l4, l5, f);
    FindMerged(l1 + l2 + l3 + l4 + l5, l6, f);
    FindLayers(parts, f);
  }

  lemma BuiltAt(parts: Parts, f: File)
    requires Strategies in parts.staged.files && Version in parts.staged.files
    ensures Find(Built(parts).files, f) == Expected(parts, f)
  {
    var l7, l8 := FakeLayer(parts, ACTIVE_DISCORD, parts.fakes.discord), FakeLayer(parts, ACTIVE_GAME, parts.fakes.game);
    BundleAt(parts, f);
    FindMerged(BundleFiles(parts), l7, f);
    FindMerged(BundleFiles(parts) + l7, l8, f);
  }

  lemma FindLayers(parts: Parts, f: File)
    ensures Find(LocalLayer(parts), f) == if f.List? && !FromChannel(f.list) then Some(Carried(parts, f.list)) else None
    ensures Find(ListLayer(parts), f) == if f.List? && FromChannel(f.list) then Find(parts.staged.files, f) else None
    ensures Find(PayloadLayer(parts), f) == if f.Bin? && HasBinExtension(f.name) then Find(parts.staged.files, f) else None
    ensures Find(ServiceLayer(parts), f) == if f.Service? then Find(parts.staged.files, f) else None
  {
  }

  // An accepted bundle makes a complete generation.
  lemma NewGenerationIsComplete(parts: Parts)
    requires Acceptable(parts.staged)
    ensures Complete(Built(parts))
  {
    BuiltAt(parts, Strategies);
    BuiltAt(parts, Version);
    forall n: ListName
      ensures Find(Built(parts).files, List(n)) == Expected(parts, List(n))
    {
      BuiltAt(parts, List(n));
    }
    forall n: ServiceName
      ensures Find(Built(parts).files, Service(n)) == Find(parts.staged.files, Service(n))
    {
      BuiltAt(parts, Service(n));
    }
  }

  // In it are the bundle's own lists, services, strategies and payloads, but for the two slots
  // the user chose.
  lemma BundleIsInstalled(parts: Parts, f: File)
    requires Acceptable(parts.staged)
    requires match f
      case List(n) => FromChannel(n)
      case Bin(n) => n in Payloads(parts.staged) && n != ACTIVE_DISCORD && n != ACTIVE_GAME
      case Version => false
      case _ => true
    ensures Find(Built(parts).files, f) == Find(parts.staged.files, f) != None
  {
    BuiltAt(parts, f);
  }

  // Nothing a strategy names is missing.
  lemma NamedPayloadsAreThere(parts: Parts, name: string)
    requires Acceptable(parts.staged) && Names(parts.staged, name)
    ensures Bin(name) in Built(parts).files
  {
    assert name in Payloads(parts.staged);
    BuiltAt(parts, Bin(name));
  }

  // What the local lists `lists` become in the files of a new generation: each keeps its text,
  // and one that is missing starts empty; only the address base is the one the bundle brings, if
  // it does, and starts as the one shipped with the program.
  ghost predicate ListsCarried(lists: Files, shippedBase: Option<string>, brought: Option<string>, files: Files) {
    && (forall n :: !FromChannel(n) && n != IpsetBase ==>
          Find(files, List(n)) == Some(if List(n) in lists then lists[List(n)] else ""))
    && Find(files, List(IpsetBase)) ==
       (if brought.Some? then brought
        else if List(IpsetBase) in lists then Some(lists[List(IpsetBase)])
        else if shippedBase.Some? then shippedBase
        else Some(""))
  }

  lemma LocalListsAreCarried(parts: Parts)
    requires Acceptable(parts.staged)
    ensures ListsCarried(parts.current, parts.shippedBase,
                         IpsetBaseFrom(parts.staged.files[Service(IpsetFile)]), Built(parts).files)
  {
    forall n | !FromChannel(n)
      ensures Find(Built(parts).files, List(n)) == Expected(parts, List(n))
    {
      BuiltAt(parts, List(n));
    }
  }

  // Seeding first makes no difference to them.
  lemma SeedsCarryNothing(lists: Files, shipped: map<ListName, string>, base: Option<string>, brought: Option<string>, files: Files)
    requires ListsCarried(lists + Seeds(lists, shipped), base, brought, files)
    ensures ListsCarried(lists, base, brought, files)
  {
    forall n | !FromChannel(n)
      ensures n != IpsetBase ==> Find(files, List(n)) == Some(if List(n) in lists then lists[List(n)] else "")
      ensures List(IpsetBase) in lists + Seeds(lists, shipped) <==> List(IpsetBase) in lists
    {
      assert n == IpsetAll || n == IpsetBase || Seeded(n);
    }
  }

  // Every payload comes from the bundle.
  lemma PayloadsComeFromTheBundle(parts: Parts, name: string)
    requires Acceptable(parts.staged) && Bin(name) in Built(parts).files
    ensures exists n :: n in Payloads(parts.staged) && Built(parts).files[Bin(name)] == parts.staged.files[Bin(n)]
  {
    BuiltAt(parts, Bin(name));
    var discord, game := StillThere(parts, parts.fakes.discord), StillThere(parts, parts.fakes.game);
    var n := if name == ACTIVE_GAME && game.Some? then game.value
             else if name == ACTIVE_DISCORD && discord.Some? then discord.value
             else name;
    assert Find(Built(parts).files, Bin(name)) == Find(parts.staged.files, Bin(n));
    assert n in Payloads(parts.staged);
  }

  // A choice that the bundle still has.
  ghost predicate StillOffered(staged: Staged, choice: Option<string>) {
    choice.Some? && Bin(choice.value) in staged.files && HasBinExtension(choice.value) && ValidFakeName(choice.value)
  }

  // The user's choice is what the program will send, as long as the bundle has it; when it has
  // not, or there is no choice, the slot is the bundle's own and no choice is recorded.
  ghost predicate SlotFits(staged: Staged, slot: string, choice: Option<string>, recorded: Option<string>, files: Files) {
    if StillOffered(staged, choice) then
      recorded == choice && Find(files, Bin(slot)) == Find(files, Bin(choice.value)) == Find(staged.files, Bin(choice.value))
    else
      recorded == None && Find(files, Bin(slot)) == Find(staged.files, Bin(slot))
  }

  lemma ChosenFakesAreInForce(parts: Parts)
    requires Acceptable(parts.staged)
    ensures var built := Built(parts);
            && built.fakes.Some?
            && SlotFits(parts.staged, ACTIVE_DISCORD, parts.fakes.discord, built.fakes.value.discord, built.files)
            && SlotFits(parts.staged, ACTIVE_GAME, parts.fakes.game, built.fakes.value.game, built.files)
  {
    SlotsArePayloads();
    BuiltAt(parts, Bin(ACTIVE_DISCORD));
    BuiltAt(parts, Bin(ACTIVE_GAME));
    if StillOffered(parts.staged, parts.fakes.discord) {
      NoChoiceIsASlot(parts.fakes.discord.value);
      BuiltAt(parts, Bin(parts.fakes.discord.value));
    }
    if StillOffered(parts.staged, parts.fakes.game) {
      NoChoiceIsASlot(parts.fakes.game.value);
      BuiltAt(parts, Bin(parts.fakes.game.value));
    }
  }

  // The version is the bundle's, on one line.
  lemma VersionIsInstalled(parts: Parts)
    requires Acceptable(parts.staged)
    ensures Find(Built(parts).files, Version) == Some(Trim(parts.staged.files[Version]) + "\n")
  {
    BuiltAt(parts, Version);
  }

  lemma SlotsArePayloads()
    ensures HasBinExtension(ACTIVE_DISCORD) && HasBinExtension(ACTIVE_GAME)
  {
    assert ACTIVE_DISCORD[|ACTIVE_DISCORD| - 4..] == ".bin";
    assert ACTIVE_GAME[|ACTIVE_GAME| - 4..] == ".bin";
  }

  lemma NoChoiceIsASlot(choice: string)
    requires ValidFakeName(choice)
    ensures choice != ACTIVE_DISCORD && choice != ACTIVE_GAME
  {
    SlotsAreNoChoice();
  }

  lemma SlotsAreNoChoice()
    ensures !ValidFakeName(ACTIVE_DISCORD) && !ValidFakeName(ACTIVE_GAME)
  {
    assert LowerAscii(ACTIVE_DISCORD)[..7] == "active_";
    assert LowerAscii(ACTIVE_GAME)[..7] == "active_";
  }
}
