/** Which generated scripts nft refuses: those with a rule it cannot read or that does not belong into its table. */
module Refusal {
  import opened Wrappers
  import opened Net
  import opened Cells
  import opened Resolver
  import opened LastGood
  import opened Nft
  import opened Compiler

  // ---------------------------------------------------------------- refused cells

  /** A filter cell that names a source and a destination of different families. It is written to the table of the
      source, where nft refuses the destination. */
  predicate MixedFilter(cell: NftCell) {
    cell.Drop? && cell.srcIp.Some? && cell.dstIp.Some? && cell.srcIp.value.Parsed?
    && !(cell.dstIp.value.Parsed? && EntryFamily(cell.dstIp.value.entry) == EntryFamily(cell.srcIp.value.entry))
  }

  predicate Backwards(lo: Option<Port>, hi: Option<Port>) {
    lo.Some? && hi.Some? && hi.value < lo.value
  }

  predicate InvertedFilter(cell: NftCell) {
    cell.Drop? && (Backwards(cell.fromPort, cell.fromPortEnd) || Backwards(cell.toPort, cell.toPortEnd))
  }

  /** A filter cell whose protocol is written once but not for exactly one port match: tcp or udp without a port, or a
      source port and a destination port together. */
  predicate UnreadablePorts(cell: NftCell) {
    cell.Drop? && if cell.fromPort.Some? then cell.toPort.Some? else cell.toPort.None? && cell.protocol != AnyProtocol
  }

  predicate RefusedFilter(cell: NftCell) {
    MixedFilter(cell) || InvertedFilter(cell) || UnreadablePorts(cell)
  }

  /** A whitelist without entries of a family closes that family. */
  predicate Open(access: AccessConfig, f: Family) {
    access.mode.Whitelist? ==> OfFamily(access.entries, f) != []
  }

  /** A forwarding or redirecting cell is written in some family. */
  predicate Written(cell: NftCell, st: Settings, cache: seq<LastGoodRule>, answer: Answer) {
    match cell
    case Drop(_, _, _, _, _, _, _, _, _) => false
    case Redirect(_, _, _, _, _, version, _) =>
      (!version.V6? && Open(st.access, Inet4)) || (!version.V4? && Open(st.access, Inet6))
    case _ =>
      var target := CellTarget(cell, st, cache, answer);
      target.Some? && Open(st.access, FamilyOf(target.value))
  }

  /** The cell is written with a rule nft refuses. */
  predicate Refused(cell: NftCell, st: Settings, cache: seq<LastGoodRule>, answer: Answer) {
    if cell.Drop? then DropFamilies(cell).Success? && RefusedFilter(cell)
    else ListenHi(cell) < ListenLo(cell) && Written(cell, st, cache, answer)
  }

  /** No cell that is written is refused. */
  predicate Loads(cells: seq<RuntimeCell>, answers: Answers, st: Settings, cache: seq<LastGoodRule>) {
    st.globalEnabled ==>
      forall i :: 0 <= i < |cells| && cells[i].Rule? ==> !Refused(cells[i].cell, st, cache, answers(i))
  }

  predicate NoMisfit(s: Script) {
    forall c :: c in s ==> !Misfit(c)
  }

  lemma NoMisfitConcat(a: Script, b: Script)
    ensures NoMisfit(a + b) <==> NoMisfit(a) && NoMisfit(b)
  {
    if NoMisfit(a + b) {
      forall c | c in a || c in b ensures !Misfit(c) {
        assert c in a + b;
      }
    }
  }

  lemma NoMisfitOne(c: Command)
    ensures NoMisfit([c]) <==> !Misfit(c)
  {
    assert c in [c];
  }

  // ---------------------------------------------------------------- matches

  lemma {:induction false} PortsReadConcat(a: seq<Match>, b: seq<Match>)
    requires PortsRead(a)
    ensures PortsRead(a + b) <==> PortsRead(b)
  {
    if a == [] {
      assert a + b == b;
    } else if a[0].L4? {
      assert (a + b)[2..] == a[2..] + b;
      PortsReadConcat(a[2..], b);
    } else {
      assert (a + b)[1..] == a[1..] + b;
      PortsReadConcat(a[1..], b);
    }
  }

  lemma RangesRunConcat(a: seq<Match>, b: seq<Match>)
    ensures RangesRun(a + b) <==> RangesRun(a) && RangesRun(b)
  {
  }

  lemma AddressesFitConcat(a: seq<Match>, b: seq<Match>, f: Family)
    ensures AddressesFit(a + b, f) <==> AddressesFit(a, f) && AddressesFit(b, f)
  {
  }

  /** The matches hold addresses and states only, so they read in front of anything. */
  predicate Portless(ms: seq<Match>) {
    forall m :: m in ms ==> !m.L4? && !IsPortMatch(m)
  }

  lemma {:induction false} PortlessReads(ms: seq<Match>)
    requires Portless(ms)
    ensures PortsRead(ms) && RangesRun(ms)
  {
    if ms != [] {
      assert ms[0] in ms;
      PortlessReads(ms[1..]);
    }
  }

  lemma PortPairReads(p: Protocol, m: Match)
    requires IsPortMatch(m)
    ensures PortsRead([L4(p), m]) && (RangesRun([L4(p), m]) <==> m.lo <= m.hi)
  {
    assert [L4(p), m][2..] == [];
    assert m in [L4(p), m];
  }

  /** Addresses and states, then one port match behind its protocol: accepted exactly if the addresses fit and the
      range runs forwards. */
  lemma PortRuleAccepted(front: seq<Match>, p: Protocol, m: Match, action: Action, owner: Option<nat>, f: Family)
    requires Portless(front) && IsPortMatch(m)
    ensures Accepted(NftRule(front + [L4(p), m], action, owner), f)
            <==> AddressesFit(front, f) && m.lo <= m.hi && ActionRuns(action)
  {
    PortlessReads(front);
    PortPairReads(p, m);
    PortsReadConcat(front, [L4(p), m]);
    RangesRunConcat(front, [L4(p), m]);
    AddressesFitConcat(front, [L4(p), m], f);
  }

  // ---------------------------------------------------------------- cells

  lemma AccessEntriesFit(f: Family, access: AccessConfig)
    ensures AccessCondition(f, access).Some? ==>
              AddressesFit(AccessCondition(f, access).value, f) && Portless(AccessCondition(f, access).value)
    ensures AccessCondition(f, access).Some? <==> Open(access, f)
  {
  }

  lemma ListenRuleAccepted(f: Family, access: AccessConfig, p: Protocol, lo: Port, hi: Port, action: Action, id: nat)
    requires AccessCondition(f, access).Some?
    ensures var ms := [CtNew] + AccessCondition(f, access).value + [L4(p), DportIn(lo, hi)];
            Accepted(NftRule(ms, action, Some(id)), f)
            <==> lo <= hi && ActionRuns(action)
  {
    AccessEntriesFit(f, access);
    PortRuleAccepted([CtNew] + AccessCondition(f, access).value, p, DportIn(lo, hi), action, Some(id), f);
  }

  lemma AccessDropsFit(f: Family, access: AccessConfig, p: Protocol, lo: Port, hi: Port, id: nat)
    requires lo <= hi
    ensures NoMisfit(AccessDrops(f, access, p, lo, hi, id))
  {
    var front := [SaddrIn(OfFamily(access.entries, f))];
    PortRuleAccepted(front, p, DportIn(lo, hi), DropPacket, Some(id), f);
    assert front + [L4(p), DportIn(lo, hi)] == [SaddrIn(OfFamily(access.entries, f)), L4(p), DportIn(lo, hi)];
  }

  lemma SourceNatFits(cell: NftCell, ip: Ip, id: nat, snat: SnatConfig)
    requires (cell.Single? || cell.Range?) && TargetLo(cell) <= TargetHi(cell)
    ensures NoMisfit(SourceNat(cell, ip, FamilyOf(ip), id, snat))
  {
    var f, port := FamilyOf(ip), [L4(cell.protocol), DportIn(TargetLo(cell), TargetHi(cell))];
    var action := SnatAction(snat, f, cell.SnatOverride());
    if action.Some? {
      PortRuleAccepted([CtNew, DaddrIn([Host(ip)])], cell.protocol, port[1], action.value, Some(id), f);
      assert [CtNew, DaddrIn([Host(ip)])] + port == [CtNew, DaddrIn([Host(ip)])] + [port[0], port[1]]
             == [CtNew, DaddrIn([Host(ip)]), port[0], port[1]];
    }
  }

  lemma CountersFit(ip: Ip, p: Protocol, lo: Port, hi: Port, id: nat)
    requires lo <= hi
    ensures NoMisfit(TrafficCounters(FamilyOf(ip), ip, p, lo, hi, id))
  {
    var f := FamilyOf(ip);
    PortRuleAccepted([DaddrIn([Host(ip)])], p, DportIn(lo, hi), CountOnly, Some(id), f);
    PortRuleAccepted([SaddrIn([Host(ip)])], p, SportIn(lo, hi), CountOnly, Some(id), f);
    assert [DaddrIn([Host(ip)])] + [L4(p), DportIn(lo, hi)] == [DaddrIn([Host(ip)]), L4(p), DportIn(lo, hi)];
    assert [SaddrIn([Host(ip)])] + [L4(p), SportIn(lo, hi)] == [SaddrIn([Host(ip)]), L4(p), SportIn(lo, hi)];
  }

  /** A forwarding cell and its target ports run backwards together. */
  lemma NatRulesFitIff(cell: NftCell, ip: Ip, id: nat, st: Settings)
    requires cell.Single? || cell.Range?
    ensures NoMisfit(NatRules(cell, ip, FamilyOf(ip), id, st))
            <==> !(Open(st.access, FamilyOf(ip)) && ListenHi(cell) < ListenLo(cell))
  {
    var f, lo, hi, p := FamilyOf(ip), ListenLo(cell), ListenHi(cell), cell.protocol;
    AccessEntriesFit(f, st.access);
    if Open(st.access, f) {
      var action := if PointsHere(cell, f) then RedirectTo(cell.dport) else Dnat(ip, TargetLo(cell), TargetHi(cell));
      var condition := AccessCondition(f, st.access).value;
      var drops := AccessDrops(f, st.access, p, lo, hi, id);
      var listen := AddRule(NatTable(f), Prerouting,
                            NftRule([CtNew] + condition + [L4(p), DportIn(lo, hi)], action, Some(id)));
      var out := if PointsHere(cell, f) then []
                 else SourceNat(cell, ip, f, id, st.snat)
                      + TrafficCounters(f, ip, p, TargetLo(cell), TargetHi(cell), id);
      ListenRuleAccepted(f, st.access, p, lo, hi, action, id);
      ListenPartsFit(drops, listen, out);
      if lo <= hi {
        AccessDropsFit(f, st.access, p, lo, hi, id);
        SourceNatFits(cell, ip, id, st.snat);
        CountersFit(ip, p, TargetLo(cell), TargetHi(cell), id);
        NoMisfitConcat(SourceNat(cell, ip, f, id, st.snat),
                       TrafficCounters(f, ip, p, TargetLo(cell), TargetHi(cell), id));
      }
    }
  }

  lemma ListenPartsFit(drops: Script, listen: Command, out: Script)
    ensures NoMisfit(drops + [listen] + out) <==> NoMisfit(drops) && !Misfit(listen) && NoMisfit(out)
  {
    NoMisfitConcat(drops + [listen], out);
    NoMisfitConcat(drops, [listen]);
    NoMisfitOne(listen);
  }

  lemma RedirectRuleFitsIff(cell: NftCell, f: Family, id: nat, access: AccessConfig)
    requires cell.Redirect?
    ensures NoMisfit(RedirectRule(cell, f, id, access)) <==> !(Open(access, f) && ListenHi(cell) < ListenLo(cell))
  {
    var lo, hi, p := ListenLo(cell), ListenHi(cell), cell.protocol;
    AccessEntriesFit(f, access);
    if Open(access, f) {
      var drops := AccessDrops(f, access, p, lo, hi, id);
      var listen := AddRule(NatTable(f), Prerouting,
                            NftRule([CtNew] + AccessCondition(f, access).value + [L4(p), DportIn(lo, hi)],
                                    RedirectTo(cell.dstPort), Some(id)));
      ListenRuleAccepted(f, access, p, lo, hi, RedirectTo(cell.dstPort), id);
      NoMisfitConcat(drops, [listen]);
      NoMisfitOne(listen);
      if lo <= hi {
        AccessDropsFit(f, access, p, lo, hi, id);
      }
    }
  }

  /** The protocol and port part of a filter rule. */
  function FilterPorts(cell: NftCell): seq<Match>
    requires cell.Drop?
  {
    (if cell.protocol != AnyProtocol || cell.fromPort.Some? || cell.toPort.Some? then [L4(cell.protocol)] else [])
    + PortMatch(cell.fromPort, cell.fromPortEnd, true)
    + PortMatch(cell.toPort, cell.toPortEnd, false)
  }

  lemma FilterPortsReadIff(cell: NftCell)
    requires cell.Drop?
    ensures PortsRead(FilterPorts(cell)) <==> !UnreadablePorts(cell)
  {
    var from, to := PortMatch(cell.fromPort, cell.fromPortEnd, true), PortMatch(cell.toPort, cell.toPortEnd, false);
    if from == [] && to == [] {
      if cell.protocol != AnyProtocol {
        assert FilterPorts(cell) == [L4(cell.protocol)];
      } else {
        assert FilterPorts(cell) == [];
      }
    } else if from == [] || to == [] {
      var m := if from == [] then to[0] else from[0];
      assert FilterPorts(cell) == [L4(cell.protocol), m];
      PortPairReads(cell.protocol, m);
    } else {
      PortPairReads(cell.protocol, from[0]);
      assert FilterPorts(cell) == [L4(cell.protocol), from[0]] + [to[0]];
      PortsReadConcat([L4(cell.protocol), from[0]], [to[0]]);
    }
  }

  lemma PortMatchRunsIff(lo: Option<Port>, hi: Option<Port>, source: bool)
    ensures RangesRun(PortMatch(lo, hi, source)) <==> !Backwards(lo, hi)
  {
    if lo.Some? {
      assert PortMatch(lo, hi, source)[0] in PortMatch(lo, hi, source);
    }
  }

  lemma FilterPortsRunIff(cell: NftCell)
    requires cell.Drop?
    ensures RangesRun(FilterPorts(cell)) <==> !InvertedFilter(cell)
  {
    var proto := if cell.protocol != AnyProtocol || cell.fromPort.Some? || cell.toPort.Some?
                 then [L4(cell.protocol)] else [];
    var from, to := PortMatch(cell.fromPort, cell.fromPortEnd, true), PortMatch(cell.toPort, cell.toPortEnd, false);
    PortMatchRunsIff(cell.fromPort, cell.fromPortEnd, true);
    PortMatchRunsIff(cell.toPort, cell.toPortEnd, false);
    RangesRunConcat(proto, from);
    RangesRunConcat(proto + from, to);
  }

  function FilterAddresses(cell: NftCell): seq<Match>
    requires cell.Drop?
  {
    (if cell.srcIp.Some? then [SaddrIn(FilterEntries(cell.srcIp.value))] else [])
    + (if cell.dstIp.Some? then [DaddrIn(FilterEntries(cell.dstIp.value))] else [])
  }

  lemma FilterAddressesFitIff(cell: NftCell, f: Family)
    requires cell.Drop? && DropFamilies(cell).Success? && f in DropFamilies(cell).value
    ensures AddressesFit(FilterAddresses(cell), f) <==> !MixedFilter(cell)
  {
    if cell.dstIp.Some? {
      assert DaddrIn(FilterEntries(cell.dstIp.value)) in FilterAddresses(cell);
    }
  }

  lemma PortsFitAnywhere(cell: NftCell, f: Family)
    requires cell.Drop?
    ensures AddressesFit(FilterPorts(cell), f)
  {
  }

  /** A filter rule is accepted exactly if its cell is not refused. */
  lemma FilterRuleAcceptedIff(cell: NftCell, f: Family)
    requires cell.Drop? && DropFamilies(cell).Success? && f in DropFamilies(cell).value
    ensures Accepted(NftRule(DropMatches(cell), DropPacket, None), f) <==> !RefusedFilter(cell)
  {
    var front, ports := FilterAddresses(cell), FilterPorts(cell);
    assert DropMatches(cell) == front + ports;
    PortlessReads(front);
    PortsReadConcat(front, ports);
    RangesRunConcat(front, ports);
    AddressesFitConcat(front, ports, f);
    FilterPortsReadIff(cell);
    FilterPortsRunIff(cell);
    FilterAddressesFitIff(cell, f);
    PortsFitAnywhere(cell, f);
  }

  lemma {:induction false} DropRulesFitIff(cell: NftCell, fs: seq<Family>)
    requires cell.Drop? && DropFamilies(cell).Success? && forall f :: f in fs ==> f in DropFamilies(cell).value
    ensures NoMisfit(DropRulesFor(cell, fs)) <==> (fs == [] || !RefusedFilter(cell))
  {
    if fs != [] {
      var rest, f := fs[..|fs| - 1], fs[|fs| - 1];
      assert f in fs;
      DropRulesFitIff(cell, rest);
      FilterRuleAcceptedIff(cell, f);
      NoMisfitConcat(DropRulesFor(cell, rest), DropRule(cell, f));
      NoMisfitOne(DropRule(cell, f)[0]);
    }
  }

  lemma RedirectRulesFitIff(cell: NftCell, id: nat, st: Settings, cache: seq<LastGoodRule>, answer: Answer)
    requires cell.Redirect?
    ensures NoMisfit(RedirectRules(cell, id, st.access)) <==> !Refused(cell, st, cache, answer)
  {
    var four, six := RedirectRule(cell, Inet4, id, st.access), RedirectRule(cell, Inet6, id, st.access);
    RedirectRuleFitsIff(cell, Inet4, id, st.access);
    RedirectRuleFitsIff(cell, Inet6, id, st.access);
    NoMisfitConcat(four, six);
  }

  /** What one position adds to the body of a script. */
  function Part(out: CellOut): Script {
    if out.script.Success? then out.script.value else []
  }

  lemma CellFitsIff(cell: NftCell, id: nat, st: Settings, cache: seq<LastGoodRule>, answer: Answer)
    ensures var script := CellScript(cell, id, st, cache, answer);
            (script.Success? ==> NoMisfit(script.value)) <==> !Refused(cell, st, cache, answer)
  {
    if cell.Drop? {
      if DropFamilies(cell).Success? {
        DropRulesFitIff(cell, DropFamilies(cell).value);
      }
    } else if cell.Redirect? {
      RedirectRulesFitIff(cell, id, st, cache, answer);
    } else {
      var t := CellTarget(cell, st, cache, answer);
      if t.Some? {
        TargetFits(cell, st, cache, answer);
        NatRulesFitIff(cell, t.value, id, st);
      }
    }
  }

  /** No summary of a rule that was written runs backwards. */
  predicate SummariesRun(ss: seq<Summary>) {
    forall s :: s in ss ==> s.lo <= s.hi && (s.forwarded.Some? ==> s.forwarded.value.0 <= s.forwarded.value.1)
  }

  lemma EmptyUnlessWritten(cell: NftCell, id: nat, st: Settings, cache: seq<LastGoodRule>, answer: Answer)
    requires !cell.Drop?
    ensures var script := CellScript(cell, id, st, cache, answer);
            script.Success? && (script.value != [] <==> Written(cell, st, cache, answer))
  {
    AccessEntriesFit(Inet4, st.access);
    AccessEntriesFit(Inet6, st.access);
    if cell.Single? || cell.Range? {
      if CellTarget(cell, st, cache, answer).Some? {
        TargetFits(cell, st, cache, answer);
      }
    }
  }

  lemma OutFitsIff(cells: seq<RuntimeCell>, answers: Answers, st: Settings, cache: seq<LastGoodRule>, i: nat,
                   out: CellOut)
    requires i < |cells| && out == OutAt(cells, answers, st, cache, i)
    ensures NoMisfit(Part(out)) <==> (cells[i].Rule? ==> !Refused(cells[i].cell, st, cache, answers(i)))
    ensures NoMisfit(Part(out)) ==> SummariesRun(out.summary)
  {
    if cells[i].Rule? {
      var cell, id := cells[i].cell, RuleIndex(cells, i);
      CellFitsIff(cell, id, st, cache, answers(i));
      if !cell.Drop? {
        EmptyUnlessWritten(cell, id, st, cache, answers(i));
      }
    }
  }

  // ---------------------------------------------------------------- whole scripts

  lemma {:induction false} BodyFitsIff(outs: seq<CellOut>)
    ensures NoMisfit(Body(outs)) <==> forall i :: 0 <= i < |outs| ==> NoMisfit(Part(outs[i]))
  {
    if outs != [] {
      var n := |outs| - 1;
      BodyFitsIff(outs[..n]);
      NoMisfitConcat(Body(outs[..n]), Part(outs[n]));
      assert forall i :: 0 <= i < n ==> outs[..n][i] == outs[i];
    }
  }

  lemma {:induction false} SummariesOfRunning(outs: seq<CellOut>)
    requires forall i :: 0 <= i < |outs| ==> SummariesRun(outs[i].summary)
    ensures SummariesRun(Summaries(outs))
  {
    if outs != [] {
      SummariesOfRunning(outs[..|outs| - 1]);
    }
  }

  lemma GeoRuleAccepted(front: seq<Match>, p: Protocol, lo: Port, hi: Port, action: Action, owner: Option<nat>)
    requires Portless(front) && AddressesFit(front, Inet4) && lo <= hi && !action.Dnat?
    ensures Accepted(NftRule(front + [L4(p), DportIn(lo, hi)], action, owner), Inet4)
  {
    PortRuleAccepted(front, p, DportIn(lo, hi), action, owner, Inet4);
  }

  /** Allowing the CN set and the LAN to reach a port, and dropping the rest. */
  lemma GuardFits(geo: GeoIpConfig, chain: ChainName, p: Protocol, lo: Port, hi: Port, owner: Option<nat>)
    requires lo <= hi
    ensures var port := [L4(p), DportIn(lo, hi)];
            && !Misfit(GeoRule(chain, [SaddrInSet(Cn4)] + port, Accept, owner))
            && (geo.LanIpv4() != [] ==> !Misfit(GeoRule(chain, [SaddrIn(geo.LanIpv4())] + port, Accept, owner)))
            && !Misfit(GeoRule(chain, port, DropPacket, owner))
  {
    GeoRuleAccepted([SaddrInSet(Cn4)], p, lo, hi, Accept, owner);
    if geo.LanIpv4() != [] {
      GeoRuleAccepted([SaddrIn(geo.LanIpv4())], p, lo, hi, Accept, owner);
    }
    GeoRuleAccepted([], p, lo, hi, DropPacket, owner);
    assert [] + [L4(p), DportIn(lo, hi)] == [L4(p), DportIn(lo, hi)];
  }

  lemma ReplyRuleFits(chain: ChainName)
    ensures !Misfit(GeoRule(chain, [CtReply], Accept, None))
  {
    PortlessReads([CtReply]);
  }

  lemma GeoHeadFits(st: Settings)
    ensures NoMisfit(GeoHead(st))
  {
    ReplyRuleFits(GeoIpPrerouting);
    ReplyRuleFits(InputHook);
    GuardFits(st.geo, InputHook, Tcp, st.geo.sshPort, st.geo.sshPort, None);
    assert NoMisfit(SshRules(st.geo));
    assert NoMisfit(GeoIpChainRules());
  }

  lemma {:induction false} GeoForwardFits(geo: GeoIpConfig, ss: seq<Summary>)
    requires SummariesRun(ss)
    ensures NoMisfit(GeoForwardRules(geo, ss))
  {
    if ss != [] {
      var s := ss[|ss| - 1];
      assert s in ss;
      GeoForwardFits(geo, ss[..|ss| - 1]);
      GuardFits(geo, GeoIpPrerouting, s.protocol, s.lo, s.hi, Some(s.id));
      assert NoMisfit(GeoForwardRule(geo, s));
      NoMisfitConcat(GeoForwardRules(geo, ss[..|ss| - 1]), GeoForwardRule(geo, s));
    }
  }

  lemma ClampRead(m: Match)
    requires IsPortMatch(m) && m.lo <= m.hi
    ensures PortsRead([L4(Tcp), m, TcpSyn]) && RangesRun([L4(Tcp), m, TcpSyn])
  {
    PortPairReads(Tcp, m);
    PortsReadConcat([L4(Tcp), m], [TcpSyn]);
    PortlessReads([TcpSyn]);
    RangesRunConcat([L4(Tcp), m], [TcpSyn]);
    assert [L4(Tcp), m] + [TcpSyn] == [L4(Tcp), m, TcpSyn];
  }

  lemma {:induction false} MssFits(mss: MssConfig, ss: seq<Summary>)
    requires SummariesRun(ss)
    ensures NoMisfit(MssRules(mss, ss))
  {
    if ss != [] {
      var s := ss[|ss| - 1];
      assert s in ss;
      MssFits(mss, ss[..|ss| - 1]);
      if s.forwarded.Some? {
        ClampRead(DportIn(s.forwarded.value.0, s.forwarded.value.1));
        ClampRead(SportIn(s.forwarded.value.0, s.forwarded.value.1));
      }
      assert NoMisfit(MssRule(mss, s));
      NoMisfitConcat(MssRules(mss, ss[..|ss| - 1]), MssRule(mss, s));
    }
  }

  lemma TailFits(st: Settings, ss: seq<Summary>)
    requires SummariesRun(ss)
    ensures NoMisfit(Tail(st, ss))
  {
    GeoForwardFits(st.geo, ss);
    MssFits(st.mss, ss);
  }

  lemma BodyAndTailFitIff(st: Settings, outs: seq<CellOut>)
    requires forall i :: 0 <= i < |outs| ==> NoMisfit(Part(outs[i])) ==> SummariesRun(outs[i].summary)
    ensures NoMisfit(Body(outs) + Tail(st, Summaries(outs)))
            <==> forall i :: 0 <= i < |outs| ==> NoMisfit(Part(outs[i]))
  {
    BodyFitsIff(outs);
    NoMisfitConcat(Body(outs), Tail(st, Summaries(outs)));
    if forall i :: 0 <= i < |outs| ==> NoMisfit(Part(outs[i])) {
      SummariesOfRunning(outs);
      TailFits(st, Summaries(outs));
    }
  }

  /** All rules of a script are accepted exactly if no cell that is written is refused. */
  lemma RulesFitIff(cells: seq<RuntimeCell>, answers: Answers, st: Settings, cache: seq<LastGoodRule>)
    ensures NoMisfit(RulesPart(st, AllOuts(cells, answers, st, cache))) <==> Loads(cells, answers, st, cache)
  {
    var outs := AllOuts(cells, answers, st, cache);
    GeoHeadFits(st);
    if st.globalEnabled {
      forall i | 0 <= i < |cells|
        ensures NoMisfit(Part(outs[i])) <==> (cells[i].Rule? ==> !Refused(cells[i].cell, st, cache, answers(i)))
        ensures NoMisfit(Part(outs[i])) ==> SummariesRun(outs[i].summary)
      {
        OutsAt(cells, answers, st, cache, |cells|, i);
        OutFitsIff(cells, answers, st, cache, i, outs[i]);
      }
      BodyAndTailFitIff(st, outs);
      NoMisfitConcat(GeoHead(st), Body(outs) + Tail(st, Summaries(outs)));
    } else {
      assert GeoHead(st) + [] == GeoHead(st);
    }
  }
}
