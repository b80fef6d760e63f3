/** Source NAT: which action a translated connection gets, and when a rule's own setting is honoured. */
module SourceNatMeaning {
  import opened Wrappers
  import opened Net
  import opened Cells
  import opened LastGood
  import opened Nft
  import opened Compiler
  import opened Transaction
  import opened Policy
  import opened PreroutingMeaning
  import opened FilterMeaning

  /** The source NAT action of the rule at position i in family f, when it forwards and was written at all. */
  function SourceAction(r: Round, i: nat, f: Family): Option<Action>
    requires i < |r.cells|
  {
    if r.Emitted(i, f) && r.Service(i, f).value.Dnat? then SnatAction(r.st.snat, f, r.cells[i].cell.SnatOverride())
    else None
  }

  /** The packet, already translated, is on its way to the target of the rule at position i. */
  predicate BoundFor(r: Round, i: nat, p: Packet)
    requires i < |r.cells|
  {
    var s := r.Service(i, FamilyOf(p.src));
    && s.Some? && s.value.Dnat? && s.value.ip == p.dst && s.value.lo <= p.dport <= s.value.hi
    && TransportMatches(r.cells[i].cell.protocol, p.transport)
  }

  /** The source NAT action position i applies to the packet, if any. */
  function Rewrites(r: Round, i: nat, p: Packet): Option<Action>
    requires i < |r.cells|
  {
    if BoundFor(r, i, p) then SourceAction(r, i, FamilyOf(p.src)) else None
  }

  /** Whether position i rewrites the packet, kept apart from how. */
  predicate DoesRewrite(r: Round, i: nat, p: Packet)
    requires i < |r.cells|
  {
    Rewrites(r, i, p).Some?
  }

  lemma SourceNatHolds(ip: Ip, protocol: Protocol, lo: Port, hi: Port, p: Packet, sets: map<SetName, seq<Entry>>)
    requires p.ct == NewConnection
    ensures AllHold([CtNew, DaddrIn([Host(ip)]), L4(protocol), DportIn(lo, hi)], p, sets)
            <==> p.dst == ip && TransportMatches(protocol, p.transport) && lo <= p.dport <= hi
  {
    var ms := [CtNew, DaddrIn([Host(ip)])];
    assert ms + [L4(protocol), DportIn(lo, hi)] == [CtNew, DaddrIn([Host(ip)]), L4(protocol), DportIn(lo, hi)];
    AllHoldConcat(ms, [L4(protocol), DportIn(lo, hi)], p, sets);
    assert ms == [CtNew] + [DaddrIn([Host(ip)])];
    AllHoldConcat([CtNew], [DaddrIn([Host(ip)])], p, sets);
    AllHoldOne(CtNew, p, sets);
    AllHoldOne(DaddrIn([Host(ip)]), p, sets);
    PortMatchHolds(protocol, lo, hi, p, sets);
    assert Host(ip) in [Host(ip)];
  }

  lemma NatRulesPostrouting(cell: NftCell, ip: Ip, f: Family, id: nat, st: Settings, key: TableKey)
    requires cell.Single? || cell.Range?
    ensures Added(NatRules(cell, ip, f, id, st), key, Postrouting)
            == if key != NatTable(f) || PointsHere(cell, f) || AccessCondition(f, st.access).None?
                  || SnatAction(st.snat, f, cell.SnatOverride()).None? then []
               else [NftRule([CtNew, DaddrIn([Host(ip)]), L4(cell.protocol), DportIn(TargetLo(cell), TargetHi(cell))],
                             SnatAction(st.snat, f, cell.SnatOverride()).value, Some(id))]
  {
    var s := NatRules(cell, ip, f, id, st);
    if AccessCondition(f, st.access).None? {
      assert s == [];
    } else {
      var lo, hi, proto := ListenLo(cell), ListenHi(cell), cell.protocol;
      var here: Script := if PointsHere(cell, f) then [] else SourceNat(cell, ip, f, id, st.snat);
      var counters: Script := if PointsHere(cell, f) then []
                              else TrafficCounters(f, ip, proto, TargetLo(cell), TargetHi(cell), id);
      var front := s[..|s| - |here + counters|];
      assert s == front + (here + counters);
      AddedElsewhere(front, key, Postrouting);
      AddedElsewhere(counters, key, Postrouting);
      AddedConcat(front, here + counters, key, Postrouting);
      AddedConcat(here, counters, key, Postrouting);
      if here != [] {
        AddedOne(here[0], key, Postrouting);
      }
    }
  }

  function ActionOf(d: Option<NftRule>): Option<Action> {
    if d.Some? then Some(d.value.action) else None
  }

  lemma NatRulesSourceDecision(cell: NftCell, ip: Ip, f: Family, id: nat, st: Settings, p: Packet,
                               sets: map<SetName, seq<Entry>>)
    requires (cell.Single? || cell.Range?) && p.ct == NewConnection
    ensures ActionOf(Decide(Added(NatRules(cell, ip, f, id, st), NatTable(FamilyOf(p.src)), Postrouting), p, sets))
            == if FamilyOf(p.src) == f && !PointsHere(cell, f) && AccessCondition(f, st.access).Some? && p.dst == ip
                  && TransportMatches(cell.protocol, p.transport) && TargetLo(cell) <= p.dport <= TargetHi(cell)
               then SnatAction(st.snat, f, cell.SnatOverride()) else None
  {
    var action := SnatAction(st.snat, f, cell.SnatOverride());
    NatRulesPostrouting(cell, ip, f, id, st, NatTable(FamilyOf(p.src)));
    SnatTerminal(st.snat, f, cell.SnatOverride());
    if action.Some? {
      SourceNatHolds(ip, cell.protocol, TargetLo(cell), TargetHi(cell), p, sets);
      DecideOne(NftRule([CtNew, DaddrIn([Host(ip)]), L4(cell.protocol), DportIn(TargetLo(cell), TargetHi(cell))],
                        action.value, Some(id)), p, sets);
    }
  }

  lemma ForwardingRewrites(r: Round, i: nat, p: Packet, ip: Ip)
    requires i < |r.cells| && r.cells[i].Rule? && (r.cells[i].cell.Single? || r.cells[i].cell.Range?)
    requires CellTarget(r.cells[i].cell, r.st, r.cache, r.answers(i)) == Some(ip)
    ensures var cell, f := r.cells[i].cell, FamilyOf(ip);
            Rewrites(r, i, p)
            == if FamilyOf(p.src) == f && !PointsHere(cell, f) && AccessCondition(f, r.st.access).Some? && p.dst == ip
                  && TransportMatches(cell.protocol, p.transport) && TargetLo(cell) <= p.dport <= TargetHi(cell)
               then SnatAction(r.st.snat, f, cell.SnatOverride()) else None
  {
  }

  lemma ForwardingSourceDecision(r: Round, i: nat, p: Packet, sets: map<SetName, seq<Entry>>, out: CellOut)
    requires i < |r.cells| && out == OutAt(r.cells, r.answers, r.st, r.cache, i) && out.script.Success?
    requires p.ct == NewConnection && r.cells[i].Rule? && (r.cells[i].cell.Single? || r.cells[i].cell.Range?)
    ensures ActionOf(PositionDecision(out, NatTable(FamilyOf(p.src)), Postrouting, p, sets)) == Rewrites(r, i, p)
  {
    var cell := r.cells[i].cell;
    var t := CellTarget(cell, r.st, r.cache, r.answers(i));
    if t.Some? {
      NatRulesSourceDecision(cell, t.value, FamilyOf(t.value), RuleIndex(r.cells, i), r.st, p, sets);
      ForwardingRewrites(r, i, p, t.value);
    }
  }

  lemma OtherSourceDecision(r: Round, i: nat, p: Packet, sets: map<SetName, seq<Entry>>, out: CellOut)
    requires i < |r.cells| && out == OutAt(r.cells, r.answers, r.st, r.cache, i) && out.script.Success?
    requires r.cells[i].Rule? && (r.cells[i].cell.Drop? || r.cells[i].cell.Redirect?)
    ensures PositionDecision(out, NatTable(FamilyOf(p.src)), Postrouting, p, sets).None? && Rewrites(r, i, p).None?
  {
    if r.cells[i].cell.Drop? {
      DropRulesInFilter(r.cells[i].cell, DropFamilies(r.cells[i].cell).value);
    }
    AddedElsewhere(out.script.value, NatTable(FamilyOf(p.src)), Postrouting);
  }

  lemma CellSourceDecision(r: Round, i: nat, p: Packet, sets: map<SetName, seq<Entry>>, out: CellOut)
    requires i < |r.cells| && out == OutAt(r.cells, r.answers, r.st, r.cache, i) && out.script.Success?
    requires p.ct == NewConnection
    ensures ActionOf(PositionDecision(out, NatTable(FamilyOf(p.src)), Postrouting, p, sets)) == Rewrites(r, i, p)
  {
    if r.cells[i].Rule? {
      if r.cells[i].cell.Drop? || r.cells[i].cell.Redirect? {
        OtherSourceDecision(r, i, p, sets, out);
      } else {
        ForwardingSourceDecision(r, i, p, sets, out);
      }
    }
  }

  lemma SnatTerminal(snat: SnatConfig, f: Family, own: Option<IpText>)
    ensures var a := SnatAction(snat, f, own);
            a.Some? ==> (a.value.SnatTo? || a.value.MasqueradeSource?) && Terminal(a.value)
  {
  }

  /** The source NAT action a new connection gets on its way out. */
  function KernelSourceNat(r: Round, rs: Ruleset, p: Packet): Option<Action> {
    ActionOf(HookDecision(r, rs, Postrouting, p))
  }

  /** i is the first rule that rewrites the packet. */
  predicate FirstRewriting(r: Round, p: Packet, i: nat) {
    i < |r.cells| && DoesRewrite(r, i, p) && forall j :: 0 <= j < i ==> !DoesRewrite(r, j, p)
  }

  lemma PostroutingParts(r: Round, p: Packet)
    requires r.st.globalEnabled
    ensures var outs := AllOuts(r.cells, r.answers, r.st, r.cache);
            Added(RulesPart(r.st, outs), NatTable(FamilyOf(p.src)), Postrouting)
            == Added(Body(outs), NatTable(FamilyOf(p.src)), Postrouting)
  {
    var key := NatTable(FamilyOf(p.src));
    var outs := AllOuts(r.cells, r.answers, r.st, r.cache);
    PartsAdded(r.st, outs, key, Postrouting);
    GeoHeadPlaced(r.st);
    TailPlaced(r.st, Summaries(outs));
    AddedElsewhere(GeoHead(r.st), key, Postrouting);
    AddedElsewhere(Tail(r.st, Summaries(outs)), key, Postrouting);
  }

  lemma BodySourceDecision(r: Round, p: Packet, outs: seq<CellOut>, i: nat, sets: map<SetName, seq<Entry>>)
    requires outs == AllOuts(r.cells, r.answers, r.st, r.cache) && AllBuild(outs) && p.ct == NewConnection && i < |outs|
    ensures ActionOf(PositionDecision(outs[i], NatTable(FamilyOf(p.src)), Postrouting, p, sets)) == Rewrites(r, i, p)
  {
    OutsAt(r.cells, r.answers, r.st, r.cache, |r.cells|, i);
    CellSourceDecision(r, i, p, sets, outs[i]);
  }

  lemma NoRewriteNoDecision(r: Round, p: Packet, outs: seq<CellOut>, i: nat, sets: map<SetName, seq<Entry>>)
    requires outs == AllOuts(r.cells, r.answers, r.st, r.cache) && AllBuild(outs) && p.ct == NewConnection && i < |outs|
    requires !DoesRewrite(r, i, p)
    ensures PositionDecision(outs[i], NatTable(FamilyOf(p.src)), Postrouting, p, sets).None?
  {
    BodySourceDecision(r, p, outs, i, sets);
  }

  lemma FirstAction(outs: seq<CellOut>, i: nat, a: Option<Action>, key: TableKey, c: ChainName, p: Packet,
                    sets: map<SetName, seq<Entry>>)
    requires i < |outs| && ActionOf(PositionDecision(outs[i], key, c, p, sets)) == a && a.Some?
    requires forall j :: 0 <= j < i ==> PositionDecision(outs[j], key, c, p, sets).None?
    ensures ActionOf(FirstDecision(outs, key, c, p, sets)) == a
  {
    FirstDecisionIs(outs, key, c, p, sets);
  }

  lemma KernelSourceNatIs(r: Round, rs: Ruleset, p: Packet, outs: seq<CellOut>)
    requires r.st.globalEnabled && outs == AllOuts(r.cells, r.answers, r.st, r.cache)
    ensures KernelSourceNat(r, rs, p)
            == ActionOf(FirstDecision(outs, NatTable(FamilyOf(p.src)), Postrouting, p,
                                      Declarations(r.st)[NatTable(FamilyOf(p.src))].sets))
  {
    var key := NatTable(FamilyOf(p.src));
    InstalledRules(r.st, outs, key, Postrouting);
    PostroutingParts(r, p);
    BodyFirstDecision(outs, key, Postrouting, p, Declarations(r.st)[key].sets);
  }

  /** The postrouting chain applies the action of the first rule forwarding to the same address, port and
      protocol: it looks at where the connection goes, not at the rule that sent it there. */
  lemma PostroutingMeaning(r: Round, rs: Ruleset, p: Packet, i: nat)
    requires r.st.globalEnabled && Builds(r.cells, r.answers, r.st, r.cache) && p.ct == NewConnection
    requires FirstRewriting(r, p, i)
    ensures KernelSourceNat(r, rs, p) == Rewrites(r, i, p)
  {
    var outs := AllOuts(r.cells, r.answers, r.st, r.cache);
    var key := NatTable(FamilyOf(p.src));
    var sets := Declarations(r.st)[key].sets;
    KernelSourceNatIs(r, rs, p, outs);
    forall j | 0 <= j < i ensures PositionDecision(outs[j], key, Postrouting, p, sets).None? {
      NoRewriteNoDecision(r, p, outs, j, sets);
    }
    BodySourceDecision(r, p, outs, i, sets);
    FirstAction(outs, i, Rewrites(r, i, p), key, Postrouting, p, sets);
  }

  lemma PostroutingIdle(r: Round, rs: Ruleset, p: Packet)
    requires r.st.globalEnabled && Builds(r.cells, r.answers, r.st, r.cache) && p.ct == NewConnection
    requires forall j :: 0 <= j < |r.cells| ==> !DoesRewrite(r, j, p)
    ensures KernelSourceNat(r, rs, p) == None
  {
    var outs := AllOuts(r.cells, r.answers, r.st, r.cache);
    var key := NatTable(FamilyOf(p.src));
    var sets := Declarations(r.st)[key].sets;
    KernelSourceNatIs(r, rs, p, outs);
    FirstDecisionIs(outs, key, Postrouting, p, sets);
    forall j | 0 <= j < |outs| ensures PositionDecision(outs[j], key, Postrouting, p, sets).None? {
      NoRewriteNoDecision(r, p, outs, j, sets);
    }
  }

  /** No rule rewrites the packet. */
  predicate NoneRewrites(r: Round, p: Packet) {
    forall m :: 0 <= m < |r.cells| ==> !DoesRewrite(r, m, p)
  }

  /** A rule's own source NAT setting, including the setting to have none, is what its connections get exactly when
      the first rule that rewrites connections to the same address, port and protocol asks for the same, or no
      rule rewrites them and it asks for nothing. */
  lemma OwnSettingHonouredIff(r: Round, rs: Ruleset, p: Packet, i: nat)
    requires r.st.globalEnabled && Builds(r.cells, r.answers, r.st, r.cache) && p.ct == NewConnection
    requires i < |r.cells| && BoundFor(r, i, p)
    ensures KernelSourceNat(r, rs, p) == Rewrites(r, i, p) <==>
            (exists m :: FirstRewriting(r, p, m) && Rewrites(r, m, p) == Rewrites(r, i, p))
            || (NoneRewrites(r, p) && Rewrites(r, i, p).None?)
  {
    if k: nat :| k < |r.cells| && DoesRewrite(r, k, p) {
      var m := FirstRewritingExists(r, p, k);
      PostroutingMeaning(r, rs, p, m);
      assert forall n: nat :: FirstRewriting(r, p, n) ==> n == m;
    } else {
      PostroutingIdle(r, rs, p);
    }
  }

  lemma {:induction false} FirstRewritingExists(r: Round, p: Packet, i: nat) returns (m: nat)
    requires i < |r.cells| && Rewrites(r, i, p).Some?
    ensures m <= i && FirstRewriting(r, p, m)
  {
    if k :| 0 <= k < i && DoesRewrite(r, k, p) {
      m := FirstRewritingExists(r, p, k);
    } else {
      m := i;
    }
  }

  // ---------------------------------------------------------------- settings that are not honoured

  const TARGET := Ip4(0xc0000201)

  const OVERRIDE := IpText("203.0.113.9", Some(Ip4(0xcb007109)))

  function ForwardTo(sport: Port, snat: Option<IpText>): NftCell {
    Single(true, sport, 80, IpText("192.0.2.1", Some(TARGET)), Tcp, V4, snat, None)
  }

  /** Two rules that forward ports 1000 and 2000 to the same target. */
  function TwoRules(mode: SnatMode, first: Option<IpText>, second: Option<IpText>): Round {
    var st := Settings(true, DnsConfig([], true), AccessConfig(Off, []),
                       GeoIpConfig(false, false, [], false, false, 22, false), [], EgressConfig(false, []),
                       SnatConfig(mode, IpText("", None), None, None), MssConfig(false, 1452),
                       LastGoodConfig(true, true));
    Round([Rule(ForwardTo(1000, first)), Rule(ForwardTo(2000, second))], _ => None, st, [])
  }

  lemma TwoRulesBuild(mode: SnatMode, first: Option<IpText>, second: Option<IpText>)
    ensures var r := TwoRules(mode, first, second);
            && Builds(r.cells, r.answers, r.st, r.cache)
            && forall i :: 0 <= i < 2 ==> CellTarget(r.cells[i].cell, r.st, r.cache, r.answers(i)) == Some(TARGET)
  {
    var r := TwoRules(mode, first, second);
    assert !CoversAny([], TARGET);
    forall i: nat | i < 2
      ensures CellTarget(r.cells[i].cell, r.st, r.cache, r.answers(i)) == Some(TARGET)
      ensures AllOuts(r.cells, r.answers, r.st, r.cache)[i].script.Success?
    {
      OutsAt(r.cells, r.answers, r.st, r.cache, 2, i);
    }
  }

  lemma TwoRulesServe(mode: SnatMode, first: Option<IpText>, second: Option<IpText>)
    ensures var r := TwoRules(mode, first, second);
            forall i :: 0 <= i < 2 ==> r.Service(i, Inet4) == Some(Dnat(TARGET, 80, 80))
  {
    TwoRulesBuild(mode, first, second);
    assert "192.0.2.1"[0] == '1' && "localhost"[0] == 'l';
    assert "192.0.2.1"[1] == '9' && "127.0.0.1"[1] == '2';
  }

  /** The first packet of a connection to the second rule, and the same packet on its way to the target. */
  function Sent(src: Ip, port: Port): Packet {
    Packet(src, Ip4(0), TcpTransport, port, 2000, NewConnection, true)
  }

  function OnItsWay(src: Ip, port: Port): Packet {
    Sent(src, port).(dst := TARGET, dport := 80)
  }

  lemma SecondRuleTranslates(mode: SnatMode, first: Option<IpText>, second: Option<IpText>, rs: Ruleset,
                             src: Ip, port: Port)
    requires src.Ip4?
    ensures KernelPrerouting(After(TwoRules(mode, first, second), rs), Sent(src, port))
            == Translated(1, Dnat(TARGET, 80, 80))
  {
    var r, sent := TwoRules(mode, first, second), Sent(src, port);
    TwoRulesBuild(mode, first, second);
    TwoRulesServe(mode, first, second);
    assert r.Serves(1, sent) && !r.Serves(0, sent);
    assert FirstServing(r, sent, 1);
    assert RuleIndex(r.cells, 0) == 0 && RuleIndex(r.cells, 1) == 1;
    TranslatedByRuleIff(r, rs, sent, 1);
  }

  lemma FirstRuleRewrites(mode: SnatMode, first: Option<IpText>, second: Option<IpText>, rs: Ruleset,
                             src: Ip, port: Port)
    requires src.Ip4?
    requires SnatAction(TwoRules(mode, first, second).st.snat, Inet4, ForwardTo(1000, first).SnatOverride()).Some?
    ensures KernelSourceNat(TwoRules(mode, first, second), rs, OnItsWay(src, port))
            == SnatAction(TwoRules(mode, first, second).st.snat, Inet4, ForwardTo(1000, first).SnatOverride())
  {
    var r, p := TwoRules(mode, first, second), OnItsWay(src, port);
    TwoRulesBuild(mode, first, second);
    TwoRulesServe(mode, first, second);
    assert DoesRewrite(r, 0, p);
    assert FirstRewriting(r, p, 0);
    PostroutingMeaning(r, rs, p, 0);
  }

  lemma SettingsOfTwoRules()
    ensures ForwardTo(2000, Some(OVERRIDE)).SnatOverride() == Some(OVERRIDE)
    ensures SnatAction(TwoRules(SnatMasquerade, None, Some(OVERRIDE)).st.snat, Inet4,
                       ForwardTo(1000, None).SnatOverride())
            == Some(MasqueradeSource)
  {
  }

  /** The per-rule source address is not always used: with two rules to one target, connections of the
      second leave under the setting of the first. */
  lemma OverrideCanBeShadowed(rs: Ruleset, src: Ip, port: Port)
    requires src.Ip4?
    ensures var r := TwoRules(SnatMasquerade, None, Some(OVERRIDE));
            && Builds(r.cells, r.answers, r.st, r.cache)
            && KernelPrerouting(After(r, rs), Sent(src, port)) == Translated(1, Dnat(TARGET, 80, 80))
            && r.cells[1].cell.SnatOverride() == Some(OVERRIDE)
            && KernelSourceNat(r, rs, OnItsWay(src, port)) == Some(MasqueradeSource)
  {
    TwoRulesBuild(SnatMasquerade, None, Some(OVERRIDE));
    SettingsOfTwoRules();
    SecondRuleTranslates(SnatMasquerade, None, Some(OVERRIDE), rs, src, port);
    FirstRuleRewrites(SnatMasquerade, None, Some(OVERRIDE), rs, src, port);
  }

  /** Nor is having none: with source NAT off, connections of a rule without an override leave under the
      override of another rule with the same target. */
  lemma OverrideCanSpill(rs: Ruleset, src: Ip, port: Port)
    requires src.Ip4?
    ensures var r := TwoRules(SnatOff, Some(OVERRIDE), None);
            && Builds(r.cells, r.answers, r.st, r.cache)
            && KernelPrerouting(After(r, rs), Sent(src, port)) == Translated(1, Dnat(TARGET, 80, 80))
            && Rewrites(r, 1, OnItsWay(src, port)) == None
            && KernelSourceNat(r, rs, OnItsWay(src, port)) == Some(SnatTo(OVERRIDE))
  {
    TwoRulesBuild(SnatOff, Some(OVERRIDE), None);
    SecondRuleTranslates(SnatOff, Some(OVERRIDE), None, rs, src, port);
    FirstRuleRewrites(SnatOff, Some(OVERRIDE), None, rs, src, port);
  }
}
