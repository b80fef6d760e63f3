/** From configuration cells to an nft script: live or cached targets, access control, GeoIP and SNAT. */
module Compiler {
  import opened Wrappers
  import opened Net
  import opened Cells
  import opened RuleKeys
  import opened Resolver
  import opened LastGood
  import opened Nft
  import opened ElementBatches

  /** Everything besides the cells that shapes a script. cn4File: the prefixes the CN file yields, empty
      when it is missing, unreadable, rejected or has none. */
  datatype Settings = Settings(
    globalEnabled: bool, dns: DnsConfig, access: AccessConfig, geo: GeoIpConfig, cn4File: seq<Entry>,
    egress: EgressConfig, snat: SnatConfig, mss: MssConfig, lastGood: LastGoodConfig)

  datatype BuildError = TargetNotIpv4 | TargetNotIpv6 | BadFilterAddress

  /** What the system resolver answers when the cell at a position is built. */
  type Answers = nat -> Answer

  function NatTable(f: Family): TableKey { TableKey(f, SelfNat) }
  function FilterTable(f: Family): TableKey { TableKey(f, SelfFilter) }

  // ---------------------------------------------------------------- ports

  function ListenLo(cell: NftCell): Port {
    match cell case Single(_, s, _, _, _, _, _, _) => s case Range(_, a, _, _, _, _, _, _) => a
    case Redirect(_, s, _, _, _, _, _) => s case _ => 0
  }

  function ListenHi(cell: NftCell): Port {
    match cell case Single(_, s, _, _, _, _, _, _) => s case Range(_, _, b, _, _, _, _, _) => b
    case Redirect(_, s, e, _, _, _, _) => (if e.Some? then e.value else s) case _ => 0
  }

  function TargetLo(cell: NftCell): Port {
    match cell case Single(_, _, d, _, _, _, _, _) => d case Range(_, a, _, _, _, _, _, _) => a
    case Redirect(_, _, _, d, _, _, _) => d case _ => 0
  }

  function TargetHi(cell: NftCell): Port {
    match cell case Single(_, _, d, _, _, _, _, _) => d case Range(_, _, b, _, _, _, _, _) => b
    case Redirect(_, _, _, d, _, _, _) => d case _ => 0
  }

  // ---------------------------------------------------------------- one cell

  function AccessCondition(f: Family, access: AccessConfig): Option<seq<Match>> {
    if access.mode != Whitelist then Some([])
    else
      var entries := OfFamily(access.entries, f);
      if entries == [] then None else Some([SaddrIn(entries)])
  }

  function AccessDrops(f: Family, access: AccessConfig, protocol: Protocol, lo: Port, hi: Port, id: nat): Script {
    var entries := OfFamily(access.entries, f);
    if access.mode != Blacklist || entries == [] then []
    else [AddRule(NatTable(f), Prerouting,
                  NftRule([SaddrIn(entries), L4(protocol), DportIn(lo, hi)], DropPacket, Some(id)))]
  }

  function SnatAction(snat: SnatConfig, f: Family, ruleSnat: Option<IpText>): Option<Action> {
    if f.Inet4? && ruleSnat.Some? then Some(SnatTo(ruleSnat.value))
    else
      match snat.mode
      case SnatOff => None
      case SnatFixed =>
        if f.Inet4? && snat.fixedSource.text != "" then Some(SnatTo(snat.fixedSource)) else Some(MasqueradeSource)
      case SnatMasquerade =>
        var legacy := if f.Inet4? then snat.legacyVar4 else snat.legacyVar6;
        if legacy.Some? then Some(SnatTo(legacy.value)) else Some(MasqueradeSource)
  }

  /** A single-port rule that points at this machine is a redirect. */
  predicate PointsHere(cell: NftCell, f: Family) {
    cell.Single? && (cell.domain.text == "localhost" || cell.domain.text == if f.Inet4? then "127.0.0.1" else "::1")
  }

  function TrafficCounters(f: Family, ip: Ip, protocol: Protocol, lo: Port, hi: Port, id: nat): Script {
    [AddRule(FilterTable(f), ForwardHook,
             NftRule([DaddrIn([Host(ip)]), L4(protocol), DportIn(lo, hi)], CountOnly, Some(id))),
     AddRule(FilterTable(f), ForwardHook,
             NftRule([SaddrIn([Host(ip)]), L4(protocol), SportIn(lo, hi)], CountOnly, Some(id)))]
  }

  function SourceNat(cell: NftCell, ip: Ip, f: Family, id: nat, snat: SnatConfig): Script
    requires cell.Single? || cell.Range?
  {
    var action := SnatAction(snat, f, cell.SnatOverride());
    if action.None? then []
    else [AddRule(NatTable(f), Postrouting,
                  NftRule([CtNew, DaddrIn([Host(ip)]), L4(cell.protocol), DportIn(TargetLo(cell), TargetHi(cell))],
                          action.value, Some(id)))]
  }

  /** The rules of a forwarding cell whose target resolved to ip. */
  function NatRules(cell: NftCell, ip: Ip, f: Family, id: nat, st: Settings): Script
    requires cell.Single? || cell.Range?
  {
    var condition := AccessCondition(f, st.access);
    if condition.None? then []
    else
      var lo, hi, p := ListenLo(cell), ListenHi(cell), cell.protocol;
      var action := if PointsHere(cell, f) then RedirectTo(cell.dport) else Dnat(ip, TargetLo(cell), TargetHi(cell));
      AccessDrops(f, st.access, p, lo, hi, id)
      + [AddRule(NatTable(f), Prerouting,
                 NftRule([CtNew] + condition.value + [L4(p), DportIn(lo, hi)], action, Some(id)))]
      + if PointsHere(cell, f) then []
        else SourceNat(cell, ip, f, id, st.snat) + TrafficCounters(f, ip, p, TargetLo(cell), TargetHi(cell), id)
  }

  function RedirectRule(cell: NftCell, f: Family, id: nat, access: AccessConfig): Script
    requires cell.Redirect?
  {
    var condition := AccessCondition(f, access);
    if condition.None? then []
    else
      var lo, hi, p := ListenLo(cell), ListenHi(cell), cell.protocol;
      AccessDrops(f, access, p, lo, hi, id)
      + [AddRule(NatTable(f), Prerouting,
                 NftRule([CtNew] + condition.value + [L4(p), DportIn(lo, hi)], RedirectTo(cell.dstPort), Some(id)))]
  }

  function RedirectRules(cell: NftCell, id: nat, access: AccessConfig): Script
    requires cell.Redirect?
  {
    match cell.ipVersion
    case V4 => RedirectRule(cell, Inet4, id, access)
    case V6 => RedirectRule(cell, Inet6, id, access)
    case Both => RedirectRule(cell, Inet4, id, access) + RedirectRule(cell, Inet6, id, access)
  }

  function FilterEntries(a: FilterAddress): seq<Entry> {
    if a.Parsed? then [a.entry] else []
  }

  function PortMatch(lo: Option<Port>, hi: Option<Port>, source: bool): seq<Match> {
    if lo.None? then []
    else
      var end := if hi.Some? then hi.value else lo.value;
      [if source then SportIn(lo.value, end) else DportIn(lo.value, end)]
  }

  function DropMatches(cell: NftCell): seq<Match>
    requires cell.Drop?
  {
    (if cell.srcIp.Some? then [SaddrIn(FilterEntries(cell.srcIp.value))] else [])
    + (if cell.dstIp.Some? then [DaddrIn(FilterEntries(cell.dstIp.value))] else [])
    + (if cell.protocol != AnyProtocol || cell.fromPort.Some? || cell.toPort.Some? then [L4(cell.protocol)] else [])
    + PortMatch(cell.fromPort, cell.fromPortEnd, true)
    + PortMatch(cell.toPort, cell.toPortEnd, false)
  }

  function DropChain(chain: FilterChain): ChainName {
    if chain.InputFilter? then InputHook else ForwardHook
  }

  function DropRule(cell: NftCell, f: Family): Script
    requires cell.Drop?
  {
    [AddRule(FilterTable(f), DropChain(cell.chain), NftRule(DropMatches(cell), DropPacket, None))]
  }

  /** The families a filter cell is written to: that of its first address, or both without an address. */
  function DropFamilies(cell: NftCell): Result<seq<Family>, BuildError>
    requires cell.Drop?
  {
    var first := if cell.srcIp.Some? then cell.srcIp else cell.dstIp;
    match first
    case None => Success([Inet4, Inet6])
    case Some(Parsed(e)) => Success([EntryFamily(e)])
    case Some(Unparsed) => Failure(BadFilterAddress)
  }

  function DropRulesFor(cell: NftCell, families: seq<Family>): Script
    requires cell.Drop?
  {
    if families == [] then []
    else DropRulesFor(cell, families[..|families| - 1]) + DropRule(cell, families[|families| - 1])
  }

  /** The live address, or the cached one that fits the rule's IP version. */
  function ChooseTarget(cell: NftCell, st: Settings, cache: seq<LastGoodRule>,
                        answer: Answer): Option<(Ip, ResolveSource)>
    requires cell.Single? || cell.Range?
  {
    var live := RemoteIp(cell.domain, cell.ipVersion, st.dns, answer);
    if live.Success? then Some((live.value, FromDns))
    else
      var key := RuleKey(cell);
      var cached := if key.Some? then FallbackForRule(st.lastGood, cache, key.value) else None;
      if cached.Some? && cached.value.ip.Address? && Fits(cached.value.ip.ip, cell.ipVersion)
      then Some((cached.value.ip.ip, FromCache)) else None
  }

  predicate EgressAllows(egress: EgressConfig, ip: Ip) {
    !egress.enabled || CoversAny(egress.allowed, ip)
  }

  /** The address a forwarding cell is built for in this round, if any. */
  function CellTarget(cell: NftCell, st: Settings, cache: seq<LastGoodRule>, answer: Answer): Option<Ip>
    requires cell.Single? || cell.Range?
  {
    var t := ChooseTarget(cell, st, cache, answer);
    if t.Some? && EgressAllows(st.egress, t.value.0) then Some(t.value.0) else None
  }

  /** Whatever the cache holds, the target of a cell fits the cell's IP version. */
  lemma TargetFits(cell: NftCell, st: Settings, cache: seq<LastGoodRule>, answer: Answer)
    requires (cell.Single? || cell.Range?) && CellTarget(cell, st, cache, answer).Some?
    ensures Fits(CellTarget(cell, st, cache, answer).value, cell.ipVersion)
  {
    if RemoteIp(cell.domain, cell.ipVersion, st.dns, answer).Success? {
      ResolvedAddressIsSound(cell.domain, cell.ipVersion, st.dns, answer);
    }
  }

  /** The event that says how the target was found, if it was; a literal address found live leaves none. */
  function TargetEvents(cell: NftCell, id: nat, target: Option<(Ip, ResolveSource)>): seq<ResolutionEvent>
    requires cell.Single? || cell.Range?
  {
    var rid, key := RuleId(id), RuleKey(cell);
    match target
    case None => [ResolveFailedNoCache(rid, key, cell.comment, cell.domain.text)]
    case Some((ip, source)) =>
      if source.FromCache? then [LastGoodUsed(rid, key, cell.comment, cell.domain.text, ip)]
      else if key.Some? then [LiveResolved(rid, key, cell.comment, cell.domain.text, ip)] else []
  }

  function EgressEvents(cell: NftCell, id: nat, egress: EgressConfig,
                        target: Option<(Ip, ResolveSource)>): seq<ResolutionEvent>
    requires cell.Single? || cell.Range?
  {
    if target.None? || EgressAllows(egress, target.value.0) then []
    else [EgressSkipped(RuleId(id), RuleKey(cell), cell.comment, target.value.0, target.value.1)]
  }

  function CellEvents(cell: NftCell, id: nat, st: Settings, cache: seq<LastGoodRule>,
                      answer: Answer): seq<ResolutionEvent> {
    if !(cell.Single? || cell.Range?) then []
    else
      var target := ChooseTarget(cell, st, cache, answer);
      TargetEvents(cell, id, target) + EgressEvents(cell, id, st.egress, target)
  }

  function CellScript(cell: NftCell, id: nat, st: Settings, cache: seq<LastGoodRule>, answer: Answer)
    : Result<Script, BuildError>
  {
    match cell
    case Drop(_, _, _, _, _, _, _, _, _) =>
      var families := DropFamilies(cell);
      if families.Failure? then Failure(families.error) else Success(DropRulesFor(cell, families.value))
    case Redirect(_, _, _, _, _, _, _) => Success(RedirectRules(cell, id, st.access))
    case _ =>
      var target := CellTarget(cell, st, cache, answer);
      if target.None? then Success([])
      else if cell.ipVersion.V4? && target.value.Ip6? then Failure(TargetNotIpv4)
      else if cell.ipVersion.V6? && target.value.Ip4? then Failure(TargetNotIpv6)
      else Success(NatRules(cell, target.value, FamilyOf(target.value), id, st))
  }

  method BuildDropRule(cell: NftCell) returns (r: Result<Script, BuildError>)
    requires cell.Drop?
    ensures r == (var fs := DropFamilies(cell);
                  if fs.Failure? then Failure(fs.error) else Success(DropRulesFor(cell, fs.value)))
  {
    var families: seq<Family> := [];
    var first := if cell.srcIp.Some? then cell.srcIp else cell.dstIp;
    match first {
      case Some(Parsed(e)) => families := families + [EntryFamily(e)];
      case Some(Unparsed) => return Failure(BadFilterAddress);
      case None =>
        families := families + [Inet4];
        families := families + [Inet6];
    }
    var result := [];
    for i := 0 to |families|
      invariant result == DropRulesFor(cell, families[..i])
    {
      assert families[..i + 1][..i] == families[..i];
      result := result + DropRule(cell, families[i]);
    }
    assert families[..|families|] == families;
    return Success(result);
  }

  /** Resolves the target, live or from the cache, and records how. */
  method ResolveTarget(cell: NftCell, id: nat, st: Settings, cache: seq<LastGoodRule>, answer: Answer,
                       log: ResolutionLog)
    returns (target: Option<(Ip, ResolveSource)>)
    requires cell.Single? || cell.Range?
    modifies log
    ensures target == ChooseTarget(cell, st, cache, answer)
    ensures log.events == old(log.events) + TargetEvents(cell, id, target)
  {
    var rid, key := RuleId(id), RuleKey(cell);
    var live := RemoteIpWithResolver(cell.domain, cell.ipVersion, st.dns, answer);
    match live {
      case Success(liveIp) =>
        if key.Some? {
          log.Record(LiveResolved(rid, key, cell.comment, cell.domain.text, liveIp));
        }
        return Some((liveIp, FromDns));
      case Failure(_) =>
        var cached := if key.Some? then FallbackForRule(st.lastGood, cache, key.value) else None;
        if cached.Some? && cached.value.ip.Address? && Fits(cached.value.ip.ip, cell.ipVersion) {
          log.Record(LastGoodUsed(rid, key, cell.comment, cell.domain.text, cached.value.ip.ip));
          return Some((cached.value.ip.ip, FromCache));
        }
        log.Record(ResolveFailedNoCache(rid, key, cell.comment, cell.domain.text));
        return None;
    }
  }

  method BuildForwardingCell(cell: NftCell, id: nat, st: Settings, cache: seq<LastGoodRule>, answer: Answer,
                             log: ResolutionLog)
    returns (r: Result<Script, BuildError>)
    requires cell.Single? || cell.Range?
    modifies log
    ensures r == CellScript(cell, id, st, cache, answer)
    ensures log.events == old(log.events) + CellEvents(cell, id, st, cache, answer)
  {
    var target := ResolveTarget(cell, id, st, cache, answer, log);
    if target.None? {
      return Success([]);
    }
    var (ip, source) := target.value;
    if st.egress.enabled && !CoversAny(st.egress.allowed, ip) {
      log.Record(EgressSkipped(RuleId(id), RuleKey(cell), cell.comment, ip, source));
      return Success([]);
    }
    match cell.ipVersion {
      case V4 =>
        if ip.Ip6? {
          return Failure(TargetNotIpv4);
        }
        r := Success(NatRules(cell, ip, Inet4, id, st));
      case V6 =>
        if ip.Ip4? {
          return Failure(TargetNotIpv6);
        }
        r := Success(NatRules(cell, ip, Inet6, id, st));
      case Both =>
        if ip.Ip6? {
          r := Success(NatRules(cell, ip, Inet6, id, st));
        } else {
          r := Success(NatRules(cell, ip, Inet4, id, st));
        }
    }
  }

  method BuildWithRuleIndex(cell: NftCell, id: nat, st: Settings, cache: seq<LastGoodRule>, answer: Answer,
                            log: ResolutionLog)
    returns (r: Result<Script, BuildError>)
    modifies log
    ensures r == CellScript(cell, id, st, cache, answer)
    ensures log.events == old(log.events) + CellEvents(cell, id, st, cache, answer)
  {
    match cell {
      case Drop(_, _, _, _, _, _, _, _, _) => r := BuildDropRule(cell);
      case Redirect(_, _, _, _, _, _, _) => r := Success(RedirectRules(cell, id, st.access));
      case _ => r := BuildForwardingCell(cell, id, st, cache, answer, log);
    }
  }

  // ---------------------------------------------------------------- the parts around the cells

  const FILTER_BEFORE := FILTER_PRIORITY - 1

  function RebuildTable(key: TableKey, c1: ChainName, s1: ChainSpec, c2: ChainName, s2: ChainSpec): Script {
    [AddTable(key), DeleteTable(key), AddTable(key), AddChain(key, c1, s1), AddChain(key, c2, s2)]
  }

  function NatSkeleton(f: Family): Script {
    RebuildTable(NatTable(f), Prerouting, ChainSpec(NatKind, HookPrerouting, -110),
                 Postrouting, ChainSpec(NatKind, HookPostrouting, 110))
  }

  function FilterSkeleton(f: Family): Script {
    RebuildTable(FilterTable(f), InputHook, ChainSpec(FilterKind, HookInput, FILTER_BEFORE),
                 ForwardHook, ChainSpec(FilterKind, HookForward, FILTER_BEFORE))
  }

  /** The fixed opening of every script: the four managed tables, emptied and rebuilt. */
  function Prologue(): Script {
    NatSkeleton(Inet4) + NatSkeleton(Inet6) + FilterSkeleton(Inet4) + FilterSkeleton(Inet6)
  }

  predicate GeoForwardActive(st: Settings) {
    st.globalEnabled && st.geo.forwardEnabled
  }

  /** The CN set of this script, if GeoIP is active and the file has one. */
  function CnSet(st: Settings): Option<seq<Entry>> {
    if st.geo.enabled && (GeoForwardActive(st) || st.geo.sshEnabled) && st.cn4File != [] then Some(st.cn4File) else None
  }

  function ElementCommands(batches: seq<seq<Entry>>): Script {
    if batches == [] then []
    else [AddElements(FilterTable(Inet4), Cn4, batches[0])] + ElementCommands(batches[1..])
  }

  function CnSetDefinition(entries: seq<Entry>): Script {
    [AddSet(FilterTable(Inet4), Cn4)] + ElementCommands(Batches(entries))
  }

  const GEOIP_CHAIN := ChainSpec(FilterKind, HookPrerouting, -200)

  function GeoRule(chain: ChainName, ms: seq<Match>, action: Action, owner: Option<nat>): Command {
    AddRule(FilterTable(Inet4), chain, NftRule(ms, action, owner))
  }

  function GeoIpChainRules(): Script {
    [GeoRule(GeoIpPrerouting, [CtReply], Accept, None)]
  }

  function SshRules(geo: GeoIpConfig): Script {
    var port := [L4(Tcp), DportIn(geo.sshPort, geo.sshPort)];
    [GeoRule(InputHook, [CtReply], Accept, None), GeoRule(InputHook, [SaddrInSet(Cn4)] + port, Accept, None)]
    + (if geo.sshAllowsLan && geo.allowLan && geo.LanIpv4() != []
       then [GeoRule(InputHook, [SaddrIn(geo.LanIpv4())] + port, Accept, None)] else [])
    + [GeoRule(InputHook, port, DropPacket, None)]
  }

  /** What a rule contributes to the GeoIP and MSS parts; only rules that may serve IPv4 have one. */
  datatype Summary = Summary(id: nat, lo: Port, hi: Port, forwarded: Option<(Port, Port)>, protocol: Protocol)

  function ForwardSummary(cell: NftCell, id: nat): Option<Summary> {
    if cell.Drop? || cell.ipVersion.V6? then None
    else
      var passesOn := cell.Range?
                      || (cell.Single? && cell.domain.text != "localhost" && cell.domain.text != "127.0.0.1");
      Some(Summary(id, ListenLo(cell), ListenHi(cell),
                   if passesOn then Some((TargetLo(cell), TargetHi(cell))) else None, cell.protocol))
  }

  function GeoForwardRule(geo: GeoIpConfig, s: Summary): Script {
    var port := [L4(s.protocol), DportIn(s.lo, s.hi)];
    [GeoRule(GeoIpPrerouting, [SaddrInSet(Cn4)] + port, Accept, Some(s.id))]
    + (if geo.allowLan && geo.LanIpv4() != []
       then [GeoRule(GeoIpPrerouting, [SaddrIn(geo.LanIpv4())] + port, Accept, Some(s.id))] else [])
    + [GeoRule(GeoIpPrerouting, port, DropPacket, Some(s.id))]
  }

  function GeoForwardRules(geo: GeoIpConfig, summaries: seq<Summary>): Script {
    if summaries == [] then []
    else GeoForwardRules(geo, summaries[..|summaries| - 1]) + GeoForwardRule(geo, summaries[|summaries| - 1])
  }

  function MssRule(mss: MssConfig, s: Summary): Script {
    if s.protocol.Udp? || s.forwarded.None? then []
    else
      var (lo, hi) := s.forwarded.value;
      [GeoRule(ForwardHook, [L4(Tcp), DportIn(lo, hi), TcpSyn], ClampMss(mss.size), Some(s.id)),
       GeoRule(ForwardHook, [L4(Tcp), SportIn(lo, hi), TcpSyn], ClampMss(mss.size), Some(s.id))]
  }

  function MssRules(mss: MssConfig, summaries: seq<Summary>): Script {
    if summaries == [] then []
    else MssRules(mss, summaries[..|summaries| - 1]) + MssRule(mss, summaries[|summaries| - 1])
  }

  method BuildGeoForwardRules(geo: GeoIpConfig, summaries: seq<Summary>) returns (out: Script)
    ensures out == GeoForwardRules(geo, summaries)
  {
    out := [];
    var lan := geo.LanIpv4();
    for i := 0 to |summaries|
      invariant out == GeoForwardRules(geo, summaries[..i])
    {
      assert summaries[..i + 1][..i] == summaries[..i];
      ghost var before := out;
      var s := summaries[i];
      var port := [L4(s.protocol), DportIn(s.lo, s.hi)];
      var mine := [GeoRule(GeoIpPrerouting, [SaddrInSet(Cn4)] + port, Accept, Some(s.id))];
      if geo.allowLan && lan != [] {
        mine := mine + [GeoRule(GeoIpPrerouting, [SaddrIn(lan)] + port, Accept, Some(s.id))];
      }
      mine := mine + [GeoRule(GeoIpPrerouting, port, DropPacket, Some(s.id))];
      assert mine == GeoForwardRule(geo, s);
      out := out + mine;
    }
    assert summaries[..|summaries|] == summaries;
  }

  method BuildMssClampRules(mss: MssConfig, summaries: seq<Summary>) returns (out: Script)
    ensures out == MssRules(mss, summaries)
  {
    out := [];
    for i := 0 to |summaries|
      invariant out == MssRules(mss, summaries[..i])
    {
      assert summaries[..i + 1][..i] == summaries[..i];
      var s := summaries[i];
      if s.protocol.Udp? {
        continue;
      }
      if s.forwarded.None? {
        continue;
      }
      out := out + MssRule(mss, s);
    }
    assert summaries[..|summaries|] == summaries;
  }

  // ---------------------------------------------------------------- the whole script

  /** What one position of the cell list contributes. */
  datatype CellOut = CellOut(script: Result<Script, BuildError>, summary: seq<Summary>, events: seq<ResolutionEvent>)

  /** Comments contribute nothing; a rule has a summary only if it emitted something. */
  function OutAt(cells: seq<RuntimeCell>, answers: Answers, st: Settings, cache: seq<LastGoodRule>, i: nat): CellOut
    requires i < |cells|
  {
    match cells[i]
    case Comment(_) => CellOut(Success([]), [], [])
    case Rule(cell) =>
      var id := RuleIndex(cells, i);
      var script := CellScript(cell, id, st, cache, answers(i));
      var summary := ForwardSummary(cell, id);
      CellOut(script, if script.Success? && script.value != [] && summary.Some? then [summary.value] else [],
              CellEvents(cell, id, st, cache, answers(i)))
  }

  function Outs(cells: seq<RuntimeCell>, answers: Answers, st: Settings, cache: seq<LastGoodRule>,
                n: nat): (r: seq<CellOut>)
    requires n <= |cells|
    ensures |r| == n
  {
    if n == 0 then [] else Outs(cells, answers, st, cache, n - 1) + [OutAt(cells, answers, st, cache, n - 1)]
  }

  lemma {:induction false} OutsAt(cells: seq<RuntimeCell>, answers: Answers, st: Settings, cache: seq<LastGoodRule>,
                                  n: nat, i: nat)
    requires i < n <= |cells|
    ensures Outs(cells, answers, st, cache, n)[i] == OutAt(cells, answers, st, cache, i)
    ensures Outs(cells, answers, st, cache, n)[..i] == Outs(cells, answers, st, cache, i)
  {
    if i < n - 1 {
      OutsAt(cells, answers, st, cache, n - 1, i);
    }
  }

  predicate AllBuild(outs: seq<CellOut>) {
    forall i :: 0 <= i < |outs| ==> outs[i].script.Success?
  }

  function Body(outs: seq<CellOut>): Script {
    if outs == [] then []
    else
      var last := outs[|outs| - 1];
      Body(outs[..|outs| - 1]) + if last.script.Success? then last.script.value else []
  }

  function Summaries(outs: seq<CellOut>): seq<Summary> {
    if outs == [] then [] else Summaries(outs[..|outs| - 1]) + outs[|outs| - 1].summary
  }

  function Events(outs: seq<CellOut>): seq<ResolutionEvent> {
    if outs == [] then [] else Events(outs[..|outs| - 1]) + outs[|outs| - 1].events
  }

  /** The part of a script that declares tables, chains and the CN set. */
  function Setup(st: Settings): Script {
    Prologue()
    + match CnSet(st)
      case None => []
      case Some(entries) =>
        CnSetDefinition(entries)
        + if GeoForwardActive(st) then [AddChain(FilterTable(Inet4), GeoIpPrerouting, GEOIP_CHAIN)] else []
  }

  /** The GeoIP rules that come before those of the cells. */
  function GeoHead(st: Settings): Script {
    if CnSet(st).None? then []
    else (if GeoForwardActive(st) then GeoIpChainRules() else [])
         + (if st.geo.sshEnabled then SshRules(st.geo) else [])
  }

  function Tail(st: Settings, summaries: seq<Summary>): Script {
    (if CnSet(st).Some? && st.geo.forwardEnabled && summaries != [] then GeoForwardRules(st.geo, summaries) else [])
    + (if st.mss.enabled && summaries != [] then MssRules(st.mss, summaries) else [])
  }

  /** The rules of a script, after its declarations. */
  function RulesPart(st: Settings, outs: seq<CellOut>): Script {
    GeoHead(st) + if st.globalEnabled then Body(outs) + Tail(st, Summaries(outs)) else []
  }

  function Assemble(st: Settings, outs: seq<CellOut>): Script {
    Setup(st) + RulesPart(st, outs)
  }

  lemma ConcatAssociative<T>(a: seq<T>, b: seq<T>, c: seq<T>)
    ensures (a + b) + c == a + (b + c)
  {
  }

  lemma AssembleParts(st: Settings, outs: seq<CellOut>, script: Script)
    requires script == Setup(st) + GeoHead(st)
    ensures Assemble(st, outs) == script + if st.globalEnabled then Body(outs) + Tail(st, Summaries(outs)) else []
  {
    var rest := if st.globalEnabled then Body(outs) + Tail(st, Summaries(outs)) else [];
    ConcatAssociative(Setup(st), GeoHead(st), rest);
  }

  function AllOuts(cells: seq<RuntimeCell>, answers: Answers, st: Settings, cache: seq<LastGoodRule>): seq<CellOut> {
    Outs(cells, answers, st, cache, |cells|)
  }

  predicate Builds(cells: seq<RuntimeCell>, answers: Answers, st: Settings, cache: seq<LastGoodRule>) {
    st.globalEnabled ==> AllBuild(AllOuts(cells, answers, st, cache))
  }

  function ScriptOf(cells: seq<RuntimeCell>, answers: Answers, st: Settings, cache: seq<LastGoodRule>): Script {
    Assemble(st, AllOuts(cells, answers, st, cache))
  }

  function EventsOf(cells: seq<RuntimeCell>, answers: Answers, st: Settings,
                    cache: seq<LastGoodRule>): seq<ResolutionEvent> {
    if st.globalEnabled then Events(AllOuts(cells, answers, st, cache)) else []
  }

  /** The head of a script up to the first cell. */
  method BuildHead(st: Settings) returns (script: Script)
    ensures script == Setup(st) + GeoHead(st)
  {
    script := Prologue();
    var cn4 := CnSet(st);
    if cn4.Some? {
      script := script + CnSetDefinition(cn4.value);
      if GeoForwardActive(st) {
        script := script + [AddChain(FilterTable(Inet4), GeoIpPrerouting, GEOIP_CHAIN)];
        assert script == Setup(st);
        script := script + GeoIpChainRules();
      }
      if st.geo.sshEnabled {
        script := script + SshRules(st.geo);
      }
    }
  }

  /** One pass of the loop over the cells. */
  method BuildAt(cells: seq<RuntimeCell>, i: nat, ruleIndex: nat, answers: Answers, st: Settings,
                 cache: seq<LastGoodRule>, log: ResolutionLog, ghost outs: seq<CellOut>)
    returns (built: Result<Script, BuildError>, nextIndex: nat, summary: seq<Summary>)
    requires i < |cells| && ruleIndex == RuleIndex(cells, i) && outs == AllOuts(cells, answers, st, cache)
    modifies log
    ensures built == outs[i].script
    ensures nextIndex == RuleIndex(cells, i + 1)
    ensures summary == outs[i].summary
    ensures log.events == old(log.events) + outs[i].events
  {
    OutsAt(cells, answers, st, cache, |cells|, i);
    built, nextIndex, summary := Success([]), ruleIndex, [];
    match cells[i] {
      case Comment(_) =>
      case Rule(cell) =>
        nextIndex := nextIndex + 1;
        built := BuildWithRuleIndex(cell, ruleIndex, st, cache, answers(i), log);
        if built.Success? && built.value != [] && ForwardSummary(cell, ruleIndex).Some? {
          summary := [ForwardSummary(cell, ruleIndex).value];
        }
    }
  }

  method BuildBody(cells: seq<RuntimeCell>, answers: Answers, st: Settings, cache: seq<LastGoodRule>,
                   log: ResolutionLog,
                   ghost outs: seq<CellOut>)
    returns (r: Result<Script, BuildError>, summaries: seq<Summary>)
    requires outs == AllOuts(cells, answers, st, cache)
    modifies log
    ensures r.Success? <==> AllBuild(outs)
    ensures r.Success? ==> r.value == Body(outs) && summaries == Summaries(outs)
    ensures r.Success? ==> log.events == old(log.events) + Events(outs)
    ensures r.Failure? ==> exists i :: 0 <= i < |outs| && AllBuild(outs[..i]) && outs[i].script == r
  {
    var script: Script := [];
    var ruleIndex := 0;
    summaries := [];
    for i := 0 to |cells|
      invariant ruleIndex == RuleIndex(cells, i)
      invariant AllBuild(outs[..i])
      invariant script == Body(outs[..i]) && summaries == Summaries(outs[..i])
      invariant log.events == old(log.events) + Events(outs[..i])
    {
      assert outs[..i + 1][..i] == outs[..i];
      var built, nextIndex, summary := BuildAt(cells, i, ruleIndex, answers, st, cache, log, outs);
      if built.Failure? {
        return built, [];
      }
      ruleIndex := nextIndex;
      summaries := summaries + summary;
      script := script + built.value;
    }
    assert outs[..|outs|] == outs;
    return Success(script), summaries;
  }

  method BuildNewScriptWithGlobal(cells: seq<RuntimeCell>, answers: Answers, st: Settings, cache: seq<LastGoodRule>,
                                  log: ResolutionLog)
    returns (r: Result<Script, BuildError>)
    modifies log
    ensures r.Success? <==> Builds(cells, answers, st, cache)
    ensures r.Success? ==> r.value == ScriptOf(cells, answers, st, cache)
    ensures r.Success? ==> log.events == old(log.events) + EventsOf(cells, answers, st, cache)
    ensures r.Failure? ==> exists i :: 0 <= i < |cells| && AllBuild(Outs(cells, answers, st, cache, i))
                                       && OutAt(cells, answers, st, cache, i).script == r
  {
    ghost var outs := AllOuts(cells, answers, st, cache);
    var script := BuildHead(st);
    AssembleParts(st, outs, script);
    if !st.globalEnabled {
      return Success(script);
    }
    var body, summaries := BuildBody(cells, answers, st, cache, log, outs);
    if body.Failure? {
      ghost var i :| 0 <= i < |outs| && AllBuild(outs[..i]) && outs[i].script == body;
      OutsAt(cells, answers, st, cache, |cells|, i);
      return body;
    }
    var tail := BuildTail(st, summaries);
    return Success(script + (body.value + tail));
  }

  method BuildTail(st: Settings, summaries: seq<Summary>) returns (tail: Script)
    ensures tail == Tail(st, summaries)
  {
    tail := [];
    if CnSet(st).Some? && st.geo.forwardEnabled && summaries != [] {
      tail := BuildGeoForwardRules(st.geo, summaries);
    }
    if st.mss.enabled && summaries != [] {
      var mss := BuildMssClampRules(st.mss, summaries);
      tail := tail + mss;
    }
  }
}
