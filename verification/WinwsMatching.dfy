/**
  What a winws section matches, as the comments of `src-tauri/src/dpi.rs` describe the engine,
  and what the argv rewrites do to it.
 */
module WinwsMatching {
  import opened Common
  import opened WinwsArgs

  type Address = nat

  // A packet: its remote address, its host name if the traffic shows one, and anything else
  // a filter may look at.
  datatype Packet = Packet(address: Address, host: Option<string>, detail: nat)

  // What the files (or inline lists) named by arguments contain, and how the filters that
  // are neither ipset nor hostlist decide.
  datatype World = World(
    addresses: string -> iset<Address>,
    hosts: string -> iset<string>,
    other: (Section, Packet) -> bool)

  predicate IsIpsetArg(a: string) {
    KeyOf(a) == "--ipset" || KeyOf(a) == "--ipset-exclude"
  }

  predicate ExcludesHosts(a: string) {
    KeyOf(a) == "--hostlist-exclude" || KeyOf(a) == "--hostlist-exclude-domains"
  }

  function Others(s: Section): Section {
    if s == [] then []
    else
      var a := s[|s| - 1];
      Others(s[..|s| - 1]) + if IsIpsetArg(a) || IsHostlistArg(a) then [] else [a]
  }

  lemma {:induction false} OthersMeans(s: Section, a: string)
    ensures a in Others(s) <==> a in s && !IsIpsetArg(a) && !IsHostlistArg(a)
    decreases |s|
  {
    if s != [] {
      OthersMeans(s[..|s| - 1], a);
      assert s == s[..|s| - 1] + [s[|s| - 1]];
    }
  }

  ghost predicate AddressListed(w: World, s: Section, key: string, address: Address) {
    exists a :: a in s && KeyOf(a) == key && address in w.addresses(ValueOf(a))
  }

  // An ipset filter with nothing loaded means "do not filter by address".
  ghost predicate NoAddresses(w: World, s: Section) {
    forall a :: a in s && KeyOf(a) == "--ipset" ==> w.addresses(ValueOf(a)) == iset{}
  }

  ghost predicate AutoHostlist(s: Section) {
    exists a :: a in s && KeyOf(a) == "--hostlist-auto"
  }

  // `hostlist_collection_is_empty`: nothing loaded into any collection of the profile.
  ghost predicate HostlistsEmpty(w: World, s: Section) {
    forall a :: a in s && IsHostlistArg(a) ==> w.hosts(ValueOf(a)) == iset{}
  }

  ghost predicate HostExcluded(w: World, s: Section, host: string) {
    exists a :: a in s && ExcludesHosts(a) && host in w.hosts(ValueOf(a))
  }

  ghost predicate HostIncluded(w: World, s: Section, host: string) {
    || (forall a :: a in s && IsHostlistArg(a) && !ExcludesHosts(a) ==> w.hosts(ValueOf(a)) == iset{})
    || (exists a :: a in s && IsHostlistArg(a) && !ExcludesHosts(a) && host in w.hosts(ValueOf(a)))
  }

  // Whether the section's profile is chosen for the packet.  The third line is the rule the
  // source quotes: without a host, a profile whose hostlists are not empty never matches,
  // unless it keeps an automatic hostlist.
  ghost predicate Matches(w: World, s: Section, p: Packet) {
    && !AddressListed(w, s, "--ipset-exclude", p.address)
    && (NoAddresses(w, s) || AddressListed(w, s, "--ipset", p.address))
    && (p.host.None? ==> AutoHostlist(s) || HostlistsEmpty(w, s))
    && (p.host.Some? ==> !HostExcluded(w, s, p.host.value) && (AutoHostlist(s) || HostIncluded(w, s, p.host.value)))
    && w.other(Others(s), p)
  }

  // --- the active VPN endpoint ----------------------------------------------------------------

  ghost predicate VpnExclusion(e: Exclusion) {
    KeyOf(e.byHost) == "--hostlist-exclude" && KeyOf(e.byAddress) == "--ipset-exclude"
  }

  lemma OthersAppend(s: Section, a: string)
    requires IsIpsetArg(a) || IsHostlistArg(a)
    ensures Others(s + [a]) == Others(s)
  {
    assert (s + [a])[..|s|] == s;
  }

  // Excluding an address affects exactly the packets with a listed address.
  lemma AddressExclusion(w: World, s: Section, a: string, p: Packet)
    requires KeyOf(a) == "--ipset-exclude"
    ensures Matches(w, s + [a], p) <==> Matches(w, s, p) && p.address !in w.addresses(ValueOf(a))
  {
    OthersAppend(s, a);
    AddressArgument(w, s, a, p.address);
    AddressIsNoHost(w, s, a);
  }

  lemma AddressArgument(w: World, s: Section, a: string, address: Address)
    requires KeyOf(a) == "--ipset-exclude"
    ensures AddressListed(w, s + [a], "--ipset-exclude", address) <==>
            AddressListed(w, s, "--ipset-exclude", address) || address in w.addresses(ValueOf(a))
    ensures AddressListed(w, s + [a], "--ipset", address) <==> AddressListed(w, s, "--ipset", address)
    ensures NoAddresses(w, s + [a]) <==> NoAddresses(w, s)
  {
    assert forall x :: x in s + [a] <==> x in s || x == a;
    assert a in s + [a];
  }

  lemma AddressIsNoHost(w: World, s: Section, a: string)
    requires KeyOf(a) == "--ipset-exclude"
    ensures AutoHostlist(s + [a]) <==> AutoHostlist(s)
    ensures HostlistsEmpty(w, s + [a]) <==> HostlistsEmpty(w, s)
    ensures forall host :: HostExcluded(w, s + [a], host) <==> HostExcluded(w, s, host)
    ensures forall host :: HostIncluded(w, s + [a], host) <==> HostIncluded(w, s, host)
  {
    assert forall x :: x in s + [a] <==> x in s || x == a;
    assert !IsHostlistArg(a) && !ExcludesHosts(a);
  }

  // Excluding hosts affects the packets of a listed host and, unless the profile is automatic,
  // the host-less packets as soon as the list is not empty.
  lemma HostExclusion(w: World, s: Section, a: string, p: Packet)
    requires KeyOf(a) == "--hostlist-exclude"
    ensures Matches(w, s + [a], p) <==>
            && Matches(w, s, p)
            && (p.host.Some? ==> p.host.value !in w.hosts(ValueOf(a)))
            && (p.host.None? ==> AutoHostlist(s) || w.hosts(ValueOf(a)) == iset{})
  {
    OthersAppend(s, a);
    HostIsNoAddress(w, s, a, p.address);
    HostArgument(w, s, a);
  }

  lemma HostIsNoAddress(w: World, s: Section, a: string, address: Address)
    requires KeyOf(a) == "--hostlist-exclude"
    ensures AddressListed(w, s + [a], "--ipset-exclude", address) <==> AddressListed(w, s, "--ipset-exclude", address)
    ensures AddressListed(w, s + [a], "--ipset", address) <==> AddressListed(w, s, "--ipset", address)
    ensures NoAddresses(w, s + [a]) <==> NoAddresses(w, s)
  {
    assert forall x :: x in s + [a] <==> x in s || x == a;
    assert !IsIpsetArg(a);
  }

  lemma HostArgument(w: World, s: Section, a: string)
    requires KeyOf(a) == "--hostlist-exclude"
    ensures AutoHostlist(s + [a]) <==> AutoHostlist(s)
    ensures HostlistsEmpty(w, s + [a]) <==> HostlistsEmpty(w, s) && w.hosts(ValueOf(a)) == iset{}
    ensures forall host :: HostExcluded(w, s + [a], host) <==> HostExcluded(w, s, host) || host in w.hosts(ValueOf(a))
    ensures forall host :: HostIncluded(w, s + [a], host) <==> HostIncluded(w, s, host)
  {
    assert forall x :: x in s + [a] <==> x in s || x == a;
    assert IsHostlistArg(a) && ExcludesHosts(a);
    assert a in s + [a];
  }

  // What spreading the exclusion does to one section: packets to the active VPN address are
  // never touched; a section without hostlists is otherwise unchanged, host-less packets
  // included; a section with hostlists also leaves the VPN host alone.
  lemma SpreadMatches(w: World, s: Section, e: Exclusion, p: Packet)
    requires VpnExclusion(e)
    ensures Matches(w, SpreadSection(s, e), p) <==>
            && Matches(w, s, p)
            && p.address !in w.addresses(ValueOf(e.byAddress))
            && (HostnameAware(s) ==>
                  && (p.host.Some? ==> p.host.value !in w.hosts(ValueOf(e.byHost)))
                  && (p.host.None? ==> AutoHostlist(s) || w.hosts(ValueOf(e.byHost)) == iset{}))
  {
    if HostnameAware(s) {
      HostExclusion(w, s, e.byHost, p);
      AddressExclusion(w, s + [e.byHost], e.byAddress, p);
    } else {
      AddressExclusion(w, s, e.byAddress, p);
      assert s + [] == s;
    }
  }

  // The whole command line: after the spread, section by section and in the same order, no
  // section matches a packet whose address is in the active-VPN list, and a section without a
  // hostlist matches exactly the other packets it matched before.
  lemma SpreadProtectsTheEndpoint(w: World, args: seq<string>, lists: string, i: nat, p: Packet)
    requires i < |Sections(args)|
    ensures var e := ActiveVpnExclusion(lists);
            var after := Sections(Rewrite(s => SpreadSection(s, e), args));
            var vpn := w.addresses(ListPath(lists, "active-vpn-ip.txt"));
            && |after| == |Sections(args)|
            && (p.address in vpn ==> !Matches(w, after[i], p))
            && (!HostnameAware(Sections(args)[i]) && p.address !in vpn ==>
                  (Matches(w, after[i], p) <==> Matches(w, Sections(args)[i], p)))
  {
    var e := ActiveVpnExclusion(lists);
    SpreadIsPlain(e);
    RewriteActsPerSection(s => SpreadSection(s, e), args);
    SpreadMatches(w, Sections(args)[i], e, p);
  }

  // Why the host exclusion must not go everywhere: given to a section without hostlists, it
  // stops the host-less packets the section is for, as soon as the endpoint is a domain.
  lemma HostExclusionEverywhereWouldMuteVoice(w: World, s: Section, e: Exclusion, p: Packet)
    requires VpnExclusion(e) && !HostnameAware(s) && p.host.None? && w.hosts(ValueOf(e.byHost)) != iset{}
    ensures !Matches(w, s + [e.byHost] + [e.byAddress], p)
  {
    assert forall a :: KeyOf(a) == "--hostlist-auto" ==> IsHostlistArg(a);
    HostExclusion(w, s, e.byHost, p);
    AddressExclusion(w, s + [e.byHost], e.byAddress, p);
  }

  // --- the game filter --------------------------------------------------------------------------

  // Two worlds that differ at most in what the shared ipset holds, with an empty game ipset.
  ghost predicate DifferInIpsetMode(v: World, w: World, lists: string) {
    && v.hosts == w.hosts && v.other == w.other
    && (forall f :: f != ListPath(lists, "ipset-all.txt") ==> v.addresses(f) == w.addresses(f))
    && v.addresses(ListPath(lists, "ipset-game.txt")) == iset{}
  }

  // The shared ipset is used as the gate and nowhere else.
  ghost predicate OnlyAsGate(s: Section, lists: string) {
    forall a :: a in s && IsIpsetArg(a) && ValueOf(a) == ListPath(lists, "ipset-all.txt") ==> a == Gated(lists)
  }

  lemma UngatedAvoidsTheSharedIpset(s: Section, lists: string, tcp: string, udp: string, a: string)
    requires IsGame(s, tcp, udp) && OnlyAsGate(s, lists)
    requires a in UngateSection(s, lists, tcp, udp) && IsIpsetArg(a)
    ensures ValueOf(a) != ListPath(lists, "ipset-all.txt")
  {
    ReplaceContains(s, Gated(lists), [Ungated(lists)], a);
    UngatedNamesTheGameIpset(lists);
    IpsetPathsDiffer(lists);
  }

  lemma UngatedNamesTheGameIpset(lists: string)
    ensures ValueOf(Ungated(lists)) == ListPath(lists, "ipset-game.txt")
  {
    KeyAndValue("--ipset", ListPath(lists, "ipset-game.txt"));
    assert Ungated(lists) == "--ipset" + "=" + ListPath(lists, "ipset-game.txt");
  }

  lemma IpsetPathsDiffer(lists: string)
    ensures ListPath(lists, "ipset-all.txt") != ListPath(lists, "ipset-game.txt")
  {
    ListPathEndsWithTheFile(lists, "ipset-all.txt");
    ListPathEndsWithTheFile(lists, "ipset-game.txt");
    assert |ListPath(lists, "ipset-all.txt")| != |ListPath(lists, "ipset-game.txt")|;
  }

  // The game filter does not depend on the IPset switch: whatever the shared ipset is filled
  // with, an ungated game section matches the same packets.
  lemma GameFilterIgnoresIpsetMode(v: World, w: World, s: Section, lists: string, tcp: string, udp: string, p: Packet)
    requires DifferInIpsetMode(v, w, lists) && IsGame(s, tcp, udp) && OnlyAsGate(s, lists)
    ensures Matches(v, UngateSection(s, lists, tcp, udp), p) <==> Matches(w, UngateSection(s, lists, tcp, udp), p)
  {
    var u := UngateSection(s, lists, tcp, udp);
    forall a | a in u && IsIpsetArg(a)
      ensures v.addresses(ValueOf(a)) == w.addresses(ValueOf(a))
    {
      UngatedAvoidsTheSharedIpset(s, lists, tcp, udp, a);
    }
  }

  // --- the command line of dpi_start --------------------------------------------------------

  // Nothing a section of `args` selects goes to an address of the active-VPN list.
  ghost predicate Protected(args: seq<string>, lists: string) {
    forall w: World, i, p: Packet :: 0 <= i < |Sections(args)| && p.address in w.addresses(ListPath(lists, "active-vpn-ip.txt")) ==>
                                !Matches(w, Sections(args)[i], p)
  }

  // What becomes of a section before the exclusions: a game section, if the game filter is on, has
  // the gate of the games, and keeps it even if it is also one for the autohostlist; another one
  // with hosts, in the mode for blocked sites, has the autohostlist; the rest stays as it is.
  function Core(s: Section, lists: string, gameFilter: bool, tcp: string, udp: string, auto: bool): Section {
    if gameFilter && IsGame(s, tcp, udp) then Replace(s, Gated(lists), [Ungated(lists)])
    else if auto && ANY_PROTOCOL !in s then Replace(s, Gated(lists), AutoGate(lists))
    else s
  }

  // The same in terms of the arguments that are there.
  lemma CoreMeans(s: Section, lists: string, gameFilter: bool, tcp: string, udp: string, auto: bool)
    ensures var core := Core(s, lists, gameFilter, tcp, udp, auto);
            var toGame := gameFilter && IsGame(s, tcp, udp);
            var toAuto := auto && ANY_PROTOCOL !in s && !toGame;
            && (Gated(lists) in core <==> Gated(lists) in s && !toGame && !toAuto)
            && (toGame && Gated(lists) in s ==> Ungated(lists) in core)
            && (toAuto && Gated(lists) in s ==> AutoList(lists) in core && FAIL_THRESHOLD in core && RETRANS_THRESHOLD in core)
            && (forall a :: a in s && a != Gated(lists) ==> a in core)
            && (forall a :: a in core && a !in s ==>
                  Gated(lists) in s && (if toGame then a == Ungated(lists) else toAuto && a in [AutoList(lists), FAIL_THRESHOLD, RETRANS_THRESHOLD]))
            && (!gameFilter && !auto ==> core == s)
  {
    GateDisappears(s, lists);
    forall a
      ensures a in Replace(s, Gated(lists), [Ungated(lists)]) <==> (a in s && a != Gated(lists)) || (Gated(lists) in s && a in [Ungated(lists)])
      ensures a in Replace(s, Gated(lists), AutoGate(lists)) <==> (a in s && a != Gated(lists)) || (Gated(lists) in s && a in AutoGate(lists))
    {
      ReplaceContains(s, Gated(lists), [Ungated(lists)], a);
      ReplaceContains(s, Gated(lists), AutoGate(lists), a);
    }
    assert AutoList(lists) in AutoGate(lists) && FAIL_THRESHOLD in AutoGate(lists) && RETRANS_THRESHOLD in AutoGate(lists);
    assert Ungated(lists) in [Ungated(lists)];
  }

  lemma CoreInTwoSteps(s: Section, lists: string, gameFilter: bool, tcp: string, udp: string, auto: bool)
    ensures var u := if gameFilter then UngateSection(s, lists, tcp, udp) else s;
            Core(s, lists, gameFilter, tcp, udp, auto) == if auto then GateSection(u, lists) else u
  {
    if gameFilter && IsGame(s, tcp, udp) {
      GateDisappears(s, lists);
      ReplaceNothing(Replace(s, Gated(lists), [Ungated(lists)]), Gated(lists), AutoGate(lists));
    }
  }

  // The argument that asks for a log of the autohostlist stands at the very front.
  function Opening(i: nat, auto: bool, debugLog: Option<string>): Section {
    if i == 0 && auto && debugLog.Some? then ["--hostlist-auto-debug" + "=" + debugLog.value] else []
  }

  // The rewriting steps of dpi_start in their order.  Section by section the result is the old
  // one with its gate chosen, and the exclusions of the endpoint behind; so whichever steps are
  // switched on, the strategy keeps its sections and the endpoint is protected in each of them.
  method StartArgs(args: seq<string>, lists: string, gameFilter: bool, tcp: string, udp: string,
                   auto: bool, debugLog: Option<string>) returns (out: seq<string>)
    ensures |Sections(out)| == |Sections(args)|
    ensures forall i :: 0 <= i < |Sections(args)| ==>
              Sections(out)[i] == Opening(i, auto, debugLog)
                                  + SpreadSection(Core(Sections(args)[i], lists, gameFilter, tcp, udp, auto), ActiveVpnExclusion(lists))
    ensures Protected(out, lists)
  {
    var e := ActiveVpnExclusion(lists);
    out := ChooseGates(args, lists, gameFilter, tcp, udp, auto);
    ghost var chosen := Sections(out);
    if auto && debugLog.Some? {
      DebugArgumentIsInert(out, debugLog.value);
      out := ["--hostlist-auto-debug" + "=" + debugLog.value] + out;
    }
    ghost var before := out;
    assert forall i :: 0 <= i < |chosen| ==> Widened(chosen[i], Sections(before)[i], Opening(i, auto, debugLog)) by {
      WidenedSections(chosen, Sections(before), auto, debugLog);
    }
    SpreadIsPlain(e);
    RewriteActsPerSection(s => SpreadSection(s, e), out);
    out := SpreadExclusionAcrossSections(out, e);
    forall i | 0 <= i < |chosen|
      ensures Sections(out)[i] == Opening(i, auto, debugLog) + SpreadSection(chosen[i], e)
    {
      WidenedSpread(chosen[i], Sections(before)[i], Opening(i, auto, debugLog), e);
    }
    SpreadProtects(before, lists);
  }

  lemma SpreadProtects(args: seq<string>, lists: string)
    ensures Protected(Rewrite(s => SpreadSection(s, ActiveVpnExclusion(lists)), args), lists)
  {
    var out := Rewrite(s => SpreadSection(s, ActiveVpnExclusion(lists)), args);
    SpreadIsPlain(ActiveVpnExclusion(lists));
    RewriteActsPerSection(s => SpreadSection(s, ActiveVpnExclusion(lists)), args);
    forall w: World, i, p: Packet | 0 <= i < |Sections(out)| && p.address in w.addresses(ListPath(lists, "active-vpn-ip.txt"))
      ensures !Matches(w, Sections(out)[i], p)
    {
      SpreadProtectsTheEndpoint(w, args, lists, i, p);
    }
  }

  // A section with something in front that does not make it hostname-aware.
  ghost predicate Widened(s: Section, widened: Section, front: Section) {
    widened == front + s && (HostnameAware(widened) <==> HostnameAware(s))
  }

  lemma WidenedSections(chosen: seq<Section>, widened: seq<Section>, auto: bool, debugLog: Option<string>)
    requires |widened| == |chosen| > 0
    requires if auto && debugLog.Some? then
               widened[0] == Opening(0, auto, debugLog) + chosen[0] && widened[1..] == chosen[1..]
               && forall i :: 0 <= i < |chosen| ==> (HostnameAware(widened[i]) <==> HostnameAware(chosen[i]))
             else widened == chosen
    ensures forall i :: 0 <= i < |chosen| ==> Widened(chosen[i], widened[i], Opening(i, auto, debugLog))
  {
    forall i | 0 <= i < |chosen|
      ensures Widened(chosen[i], widened[i], Opening(i, auto, debugLog))
    {
      assert [] + chosen[i] == chosen[i];
      assert i > 0 ==> widened[i] == widened[1..][i - 1] && chosen[i] == chosen[1..][i - 1];
    }
  }

  lemma WidenedSpread(s: Section, widened: Section, front: Section, e: Exclusion)
    requires Widened(s, widened, front)
    ensures SpreadSection(widened, e) == front + SpreadSection(s, e)
  {
    var byHost := if HostnameAware(s) then [e.byHost] else [];
    assert front + s + byHost + [e.byAddress] == front + (s + byHost + [e.byAddress]);
  }

  // The game filter first, then the autohostlist.
  method ChooseGates(args: seq<string>, lists: string, gameFilter: bool, tcp: string, udp: string, auto: bool) returns (out: seq<string>)
    ensures |Sections(out)| == |Sections(args)|
    ensures forall i :: 0 <= i < |Sections(args)| ==> Sections(out)[i] == Core(Sections(args)[i], lists, gameFilter, tcp, udp, auto)
  {
    out := args;
    if gameFilter {
      UngateIsPlain(lists, tcp, udp);
      RewriteActsPerSection(s => UngateSection(s, lists, tcp, udp), out);
      out := UngateGameIpset(out, lists, tcp, udp);
    }
    if auto {
      GateIsPlain(lists);
      RewriteActsPerSection(s => GateSection(s, lists), out);
      out := GateByAutohostlist(out, lists);
    }
    forall i | 0 <= i < |Sections(args)|
      ensures Sections(out)[i] == Core(Sections(args)[i], lists, gameFilter, tcp, udp, auto)
    {
      CoreInTwoSteps(Sections(args)[i], lists, gameFilter, tcp, udp, auto);
    }
  }
}
