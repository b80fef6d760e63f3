/** What a configuration means for a packet, and the proof that the installed chains decide just that. */
module Policy {
  import opened Wrappers
  import opened Net
  import opened Cells
  import opened LastGood
  import opened Nft
  import opened Compiler
  import opened Transaction

  // ---------------------------------------------------------------- the policy

  /** One round's configuration together with what was resolved for it. */
  datatype Round = Round(cells: seq<RuntimeCell>, answers: Answers, st: Settings, cache: seq<LastGoodRule>)
  {
    /** What the rule at position i does with IPv4 or IPv6 connections, if it serves that family at all. */
    function Service(i: nat, f: Family): Option<Action>
      requires i < |cells|
    {
      match cells[i]
      case Comment(_) => None
      case Rule(cell) =>
        match cell
        case Drop(_, _, _, _, _, _, _, _, _) => None
        case Redirect(_, _, _, dport, _, version, _) =>
          if version.Both? || (version.V4? && f.Inet4?) || (version.V6? && f.Inet6?)
          then Some(RedirectTo(dport)) else None
        case _ =>
          var target := CellTarget(cell, st, cache, answers(i));
          if target.None? || FamilyOf(target.value) != f then None
          else if PointsHere(cell, f) then Some(RedirectTo(cell.dport))
          else Some(Dnat(target.value, TargetLo(cell), TargetHi(cell)))
    }

    predicate Listens(i: nat, p: Packet)
      requires i < |cells|
    {
      cells[i].Rule? && TransportMatches(cells[i].cell.protocol, p.transport)
      && ListenLo(cells[i].cell) <= p.dport <= ListenHi(cells[i].cell)
    }

    predicate Serves(i: nat, p: Packet)
      requires i < |cells|
    {
      Listens(i, p) && Service(i, FamilyOf(p.src)).Some?
    }

    /** A whitelist without entries of a family closes that family altogether. */
    predicate Emitted(i: nat, f: Family)
      requires i < |cells|
    {
      Service(i, f).Some? && (st.access.mode.Whitelist? ==> OfFamily(st.access.entries, f) != [])
    }

    /** Rules the GeoIP chain guards: those that may serve IPv4 and were written in some family. */
    predicate Guarded(i: nat)
      requires i < |cells|
    {
      cells[i].Rule? && !cells[i].cell.Drop? && !cells[i].cell.ipVersion.V6? && (Emitted(i, Inet4) || Emitted(i, Inet6))
    }

    predicate FromCnOrLan(src: Ip) {
      CoversAny(st.cn4File, src) || (st.geo.allowLan && CoversAny(st.geo.LanIpv4(), src))
    }

    predicate GeoIpInForce() {
      CnSet(st).Some? && GeoForwardActive(st)
    }

    predicate GeoIpDrops(p: Packet) {
      p.src.Ip4? && GeoIpInForce() && !FromCnOrLan(p.src) && exists i :: 0 <= i < |cells| && Guarded(i) && Listens(i, p)
    }
  }

  /** What happens to a packet of a new connection before routing. */
  datatype Verdict = Untouched | Dropped | Translated(owner: nat, action: Action)

  /** Access control, once a serving rule is found. */
  function AccessVerdict(access: AccessConfig, src: Ip, owner: nat, action: Action): Verdict {
    match access.mode
    case Off => Translated(owner, action)
    case Whitelist => if CoversAny(access.entries, src) then Translated(owner, action) else Untouched
    case Blacklist => if CoversAny(access.entries, src) then Dropped else Translated(owner, action)
  }

  /** What a position offers a packet: its rule number and what it would do. */
  function Offer(r: Round, p: Packet, i: nat): Option<(nat, Action)>
    requires i < |r.cells|
  {
    if r.Serves(i, p) then Some((RuleIndex(r.cells, i), r.Service(i, FamilyOf(p.src)).value)) else None
  }

  function Offers(r: Round, p: Packet, n: nat): (o: seq<Option<(nat, Action)>>)
    requires n <= |r.cells|
    ensures |o| == n
  {
    if n == 0 then [] else Offers(r, p, n - 1) + [Offer(r, p, n - 1)]
  }

  function OfferVerdict(access: AccessConfig, src: Ip, offer: Option<(nat, Action)>): Verdict {
    if offer.None? then Untouched else AccessVerdict(access, src, offer.value.0, offer.value.1)
  }

  /** Offers are taken up in configuration order; the first one that leads to a verdict counts. */
  function FirstVerdict(access: AccessConfig, src: Ip, offers: seq<Option<(nat, Action)>>): Verdict {
    if offers == [] then Untouched
    else
      var v := FirstVerdict(access, src, offers[..|offers| - 1]);
      if v != Untouched then v else OfferVerdict(access, src, offers[|offers| - 1])
  }

  function PreroutingPolicy(r: Round, p: Packet): Verdict {
    if !r.st.globalEnabled then Untouched
    else if r.GeoIpDrops(p) then Dropped
    else FirstVerdict(r.st.access, p.src, Offers(r, p, |r.cells|))
  }

  // ---------------------------------------------------------------- what the kernel does

  function Conclude(rule: Option<NftRule>): Verdict {
    match rule
    case None => Untouched
    case Some(r) =>
      if r.action.DropPacket? then Dropped
      else if (r.action.Dnat? || r.action.RedirectTo?) && r.owner.Some? then Translated(r.owner.value, r.action)
      else Untouched
  }

  /** The deciding rule of one chain; a missing chain decides nothing. */
  function ChainDecision(rs: Ruleset, key: TableKey, c: ChainName, p: Packet): Option<NftRule> {
    if key in rs && c in rs[key].chains then Decide(rs[key].chains[c].rules, p, rs[key].sets) else None
  }

  /** The prerouting hook for the first packet of a connection: the filter chain, then the nat chain. Accepting
      in the filter chain only ends that chain. */
  function KernelPrerouting(rs: Ruleset, p: Packet): Verdict {
    var f := FamilyOf(p.src);
    if Conclude(ChainDecision(rs, FilterTable(f), GeoIpPrerouting, p)) == Dropped then Dropped
    else Conclude(ChainDecision(rs, NatTable(f), Prerouting, p))
  }

  /** The deciding rule in a hook's chain of the packet's family. */
  function KernelHook(rs: Ruleset, c: ChainName, p: Packet): Option<NftRule> {
    ChainDecision(rs, TableKey(FamilyOf(p.src), if c == Postrouting then SelfNat else SelfFilter), c, p)
  }

  function SpecIn(t: Ruleset, key: TableKey, c: ChainName): Option<ChainSpec> {
    if key in t && c in t[key].chains then Some(t[key].chains[c].spec) else None
  }

  lemma AppendingKeepsSpecs(t: Ruleset, s: Script, key: TableKey, c: ChainName)
    ensures SpecIn(Appended(t, s), key, c) == SpecIn(t, key, c)
  {
  }

  lemma DeclaredOnPrerouting(st: Settings, key: TableKey, c: ChainName)
    ensures var spec := SpecIn(Declarations(st), key, c);
            spec.Some? && spec.value.hook == HookPrerouting
            <==> (key.table == SelfNat && c == Prerouting)
                 || (key == FilterTable(Inet4) && c == GeoIpPrerouting && CnSet(st).Some? && GeoForwardActive(st))
  {
    if Managed(key) {
      assert key.family == Inet4 || key.family == Inet6;
      assert key == NatTable(key.family) || key == FilterTable(key.family);
    }
  }

  /** A script installs at most two chains of a family on the prerouting hook, in the order in which the kernel visits
      them: the GeoIP filter chain, exactly if GeoIP is in force and for IPv4, then the nat chain. */
  lemma GeoIpRunsFirst(r: Round, outs: seq<CellOut>, key: TableKey, c: ChainName)
    requires outs == AllOuts(r.cells, r.answers, r.st, r.cache)
    ensures var spec := SpecIn(Installed(r.st, outs), key, c);
            spec.Some? && spec.value.hook == HookPrerouting
            <==> (key.table == SelfNat && c == Prerouting)
                 || (key == FilterTable(Inet4) && c == GeoIpPrerouting && r.GeoIpInForce())
    ensures var geo := SpecIn(Installed(r.st, outs), FilterTable(Inet4), GeoIpPrerouting);
            var nat4 := SpecIn(Installed(r.st, outs), NatTable(Inet4), Prerouting);
            r.GeoIpInForce() ==> geo.Some? && nat4.Some? && geo.value.priority < nat4.value.priority
  {
    AppendingKeepsSpecs(Declarations(r.st), RulesPart(r.st, outs), key, c);
    AppendingKeepsSpecs(Declarations(r.st), RulesPart(r.st, outs), FilterTable(Inet4), GeoIpPrerouting);
    AppendingKeepsSpecs(Declarations(r.st), RulesPart(r.st, outs), NatTable(Inet4), Prerouting);
    DeclaredOnPrerouting(r.st, key, c);
  }

  // ---------------------------------------------------------------- one cell in the nat chain

  lemma ConditionHolds(f: Family, st: Settings, p: Packet, sets: map<SetName, seq<Entry>>)
    requires f == FamilyOf(p.src)
    ensures var c := AccessCondition(f, st.access);
            (c.Some? && AllHold(c.value, p, sets))
            <==> (st.access.mode.Whitelist? ==> CoversAny(st.access.entries, p.src))
  {
    var entries := OfFamily(st.access.entries, f);
    OfFamilyKeepsMatches(st.access.entries, p.src);
    AllHoldOne(SaddrIn(entries), p, sets);
  }

  lemma ListenMatchHolds(condition: seq<Match>, protocol: Protocol, lo: Port, hi: Port, p: Packet,
                         sets: map<SetName, seq<Entry>>)
    requires p.ct == NewConnection
    ensures AllHold([CtNew] + condition + [L4(protocol), DportIn(lo, hi)], p, sets)
            <==> AllHold(condition, p, sets) && TransportMatches(protocol, p.transport) && lo <= p.dport <= hi
  {
    AllHoldConcat([CtNew] + condition, [L4(protocol), DportIn(lo, hi)], p, sets);
    AllHoldConcat([CtNew], condition, p, sets);
    AllHoldOne(CtNew, p, sets);
    PortMatchHolds(protocol, lo, hi, p, sets);
  }

  lemma PortMatchHolds(protocol: Protocol, lo: Port, hi: Port, p: Packet, sets: map<SetName, seq<Entry>>)
    ensures AllHold([L4(protocol), DportIn(lo, hi)], p, sets)
            <==> TransportMatches(protocol, p.transport) && lo <= p.dport <= hi
  {
    AllHoldConcat([L4(protocol)], [DportIn(lo, hi)], p, sets);
    AllHoldOne(L4(protocol), p, sets);
    AllHoldOne(DportIn(lo, hi), p, sets);
    assert [L4(protocol)] + [DportIn(lo, hi)] == [L4(protocol), DportIn(lo, hi)];
  }

  lemma DropMatchHolds(entries: seq<Entry>, protocol: Protocol, lo: Port, hi: Port, p: Packet,
                       sets: map<SetName, seq<Entry>>)
    ensures AllHold([SaddrIn(entries), L4(protocol), DportIn(lo, hi)], p, sets)
            <==> CoversAny(entries, p.src) && TransportMatches(protocol, p.transport) && lo <= p.dport <= hi
  {
    AllHoldConcat([SaddrIn(entries)], [L4(protocol), DportIn(lo, hi)], p, sets);
    AllHoldOne(SaddrIn(entries), p, sets);
    PortMatchHolds(protocol, lo, hi, p, sets);
    assert [SaddrIn(entries)] + [L4(protocol), DportIn(lo, hi)] == [SaddrIn(entries), L4(protocol), DportIn(lo, hi)];
  }

  /** The prerouting rules a serving cell is compiled to: a blacklist drop if there is one, then the
      translation, which a closed whitelist omits. */
  function ServiceRules(f: Family, access: AccessConfig, protocol: Protocol, lo: Port, hi: Port, id: nat,
                        action: Action)
    : seq<NftRule>
  {
    var condition := AccessCondition(f, access);
    var entries := OfFamily(access.entries, f);
    if condition.None? then []
    else (if access.mode.Blacklist? && entries != []
          then [NftRule([SaddrIn(entries), L4(protocol), DportIn(lo, hi)], DropPacket, Some(id))] else [])
         + [NftRule([CtNew] + condition.value + [L4(protocol), DportIn(lo, hi)], action, Some(id))]
  }

  lemma ServiceRulesDecide(f: Family, st: Settings, protocol: Protocol, lo: Port, hi: Port, id: nat, action: Action,
                           p: Packet, sets: map<SetName, seq<Entry>>)
    requires f == FamilyOf(p.src) && p.ct == NewConnection && (action.Dnat? || action.RedirectTo?)
    ensures var d := Decide(ServiceRules(f, st.access, protocol, lo, hi, id, action), p, sets);
            && Conclude(d) == (if TransportMatches(protocol, p.transport) && lo <= p.dport <= hi
                               then AccessVerdict(st.access, p.src, id, action) else Untouched)
            && (d.None? <==> Conclude(d) == Untouched)
  {
    var condition := AccessCondition(f, st.access);
    var entries := OfFamily(st.access.entries, f);
    ConditionHolds(f, st, p, sets);
    OfFamilyKeepsMatches(st.access.entries, p.src);
    if condition.Some? {
      ListenMatchHolds(condition.value, protocol, lo, hi, p, sets);
      DropMatchHolds(entries, protocol, lo, hi, p, sets);
      var drop := NftRule([SaddrIn(entries), L4(protocol), DportIn(lo, hi)], DropPacket, Some(id));
      var rule := NftRule([CtNew] + condition.value + [L4(protocol), DportIn(lo, hi)], action, Some(id));
      assert Decide([rule], p, sets) == if AllHold(rule.matches, p, sets) then Some(rule) else None;
      DecideConcat([drop], [rule], p, sets);
      assert Decide([drop], p, sets) == if AllHold(drop.matches, p, sets) then Some(drop) else None;
    }
  }

  lemma AddedOne(c: Command, key: TableKey, chain: ChainName)
    requires c.AddRule?
    ensures Added([c], key, chain) == if c.key == key && c.chain == chain then [c.rule] else []
  {
    assert [c][1..] == [];
  }

  lemma AccessDropsAdded(f: Family, access: AccessConfig, protocol: Protocol, lo: Port, hi: Port, id: nat,
                         key: TableKey)
    ensures var entries := OfFamily(access.entries, f);
            Added(AccessDrops(f, access, protocol, lo, hi, id), key, Prerouting)
            == if key == NatTable(f) && access.mode.Blacklist? && entries != []
               then [NftRule([SaddrIn(entries), L4(protocol), DportIn(lo, hi)], DropPacket, Some(id))] else []
  {
    var s := AccessDrops(f, access, protocol, lo, hi, id);
    if s != [] {
      AddedOne(s[0], key, Prerouting);
    }
  }

  lemma {:induction false} AddedElsewhere(s: Script, key: TableKey, chain: ChainName)
    requires forall c :: c in s ==> c.AddRule? && !(c.key == key && c.chain == chain)
    ensures Added(s, key, chain) == []
  {
    if s != [] {
      AddedElsewhere(s[1..], key, chain);
    }
  }

  lemma OutboundElsewhere(cell: NftCell, ip: Ip, f: Family, id: nat, snat: SnatConfig, key: TableKey)
    requires cell.Single? || cell.Range?
    ensures Added(SourceNat(cell, ip, f, id, snat)
                  + TrafficCounters(f, ip, cell.protocol, TargetLo(cell), TargetHi(cell), id),
                  key, Prerouting) == []
  {
    AddedElsewhere(SourceNat(cell, ip, f, id, snat)
                   + TrafficCounters(f, ip, cell.protocol, TargetLo(cell), TargetHi(cell), id),
                   key, Prerouting);
  }

  lemma ThreePartsAdded(a: Script, b: Command, c: Script, key: TableKey, chain: ChainName)
    requires b.AddRule? && Added(c, key, chain) == []
    ensures Added(a + [b] + c, key, chain)
            == Added(a, key, chain) + if b.key == key && b.chain == chain then [b.rule] else []
  {
    AddedConcat(a + [b], c, key, chain);
    AddedConcat(a, [b], key, chain);
    AddedOne(b, key, chain);
  }

  function TranslationOf(cell: NftCell, ip: Ip, f: Family): Action
    requires cell.Single? || cell.Range?
  {
    if PointsHere(cell, f) then RedirectTo(cell.dport) else Dnat(ip, TargetLo(cell), TargetHi(cell))
  }

  lemma NatRulesPrerouting(cell: NftCell, ip: Ip, f: Family, id: nat, st: Settings, g: Family)
    requires cell.Single? || cell.Range?
    ensures Added(NatRules(cell, ip, f, id, st), NatTable(g), Prerouting)
            == if g == f
               then ServiceRules(f, st.access, cell.protocol, ListenLo(cell), ListenHi(cell), id,
                                 TranslationOf(cell, ip, f))
               else []
  {
    var key := NatTable(g);
    var condition := AccessCondition(f, st.access);
    if condition.Some? {
      var lo, hi, proto := ListenLo(cell), ListenHi(cell), cell.protocol;
      var a := AccessDrops(f, st.access, proto, lo, hi, id);
      var b := AddRule(NatTable(f), Prerouting,
                       NftRule([CtNew] + condition.value + [L4(proto), DportIn(lo, hi)], TranslationOf(cell, ip, f),
                       Some(id)));
      var c: Script := if PointsHere(cell, f) then []
                       else SourceNat(cell, ip, f, id, st.snat)
                            + TrafficCounters(f, ip, proto, TargetLo(cell), TargetHi(cell), id);
      assert NatRules(cell, ip, f, id, st) == a + [b] + c;
      OutboundElsewhere(cell, ip, f, id, st.snat, key);
      ThreePartsAdded(a, b, c, key, Prerouting);
      AccessDropsAdded(f, st.access, proto, lo, hi, id, key);
    }
  }

  lemma RedirectRulePrerouting(cell: NftCell, f: Family, id: nat, access: AccessConfig, g: Family)
    requires cell.Redirect?
    ensures Added(RedirectRule(cell, f, id, access), NatTable(g), Prerouting)
            == if g == f
               then ServiceRules(f, access, cell.protocol, ListenLo(cell), ListenHi(cell), id, RedirectTo(cell.dstPort))
               else []
  {
    var key := NatTable(g);
    var condition := AccessCondition(f, access);
    if condition.Some? {
      var lo, hi, proto := ListenLo(cell), ListenHi(cell), cell.protocol;
      var a := AccessDrops(f, access, proto, lo, hi, id);
      var b := [AddRule(NatTable(f), Prerouting,
                        NftRule([CtNew] + condition.value + [L4(proto), DportIn(lo, hi)], RedirectTo(cell.dstPort),
                        Some(id)))];
      AddedConcat(a, b, key, Prerouting);
      AccessDropsAdded(f, access, proto, lo, hi, id, key);
      AddedOne(b[0], key, Prerouting);
    }
  }

  lemma RedirectsPrerouting(cell: NftCell, id: nat, access: AccessConfig, f: Family)
    requires cell.Redirect?
    ensures Added(RedirectRules(cell, id, access), NatTable(f), Prerouting)
            == if cell.ipVersion.Both? || (cell.ipVersion.V4? && f.Inet4?) || (cell.ipVersion.V6? && f.Inet6?)
               then ServiceRules(f, access, cell.protocol, ListenLo(cell), ListenHi(cell), id, RedirectTo(cell.dstPort))
               else []
  {
    var four, six := RedirectRule(cell, Inet4, id, access), RedirectRule(cell, Inet6, id, access);
    RedirectRulePrerouting(cell, Inet4, id, access, f);
    RedirectRulePrerouting(cell, Inet6, id, access, f);
    AddedConcat(four, six, NatTable(f), Prerouting);
  }

  lemma DropsPrerouting(cell: NftCell, fs: seq<Family>, f: Family)
    requires cell.Drop?
    ensures Added(DropRulesFor(cell, fs), NatTable(f), Prerouting) == []
  {
    DropRulesInFilter(cell, fs);
    AddedElsewhere(DropRulesFor(cell, fs), NatTable(f), Prerouting);
  }

  /** The rules position i contributes to the nat chain of a family. */
  lemma CellPrerouting(r: Round, i: nat, f: Family, script: Script)
    requires i < |r.cells| && OutAt(r.cells, r.answers, r.st, r.cache, i).script == Success(script)
    ensures var service := r.Service(i, f);
            Added(script, NatTable(f), Prerouting)
            == if service.None? then []
               else ServiceRules(f, r.st.access, r.cells[i].cell.protocol, ListenLo(r.cells[i].cell),
                                 ListenHi(r.cells[i].cell),
                                 RuleIndex(r.cells, i), service.value)
  {
    match r.cells[i]
    case Comment(_) =>
    case Rule(cell) =>
      var id := RuleIndex(r.cells, i);
      if cell.Drop? {
        DropsPrerouting(cell, DropFamilies(cell).value, f);
      } else if cell.Redirect? {
        RedirectsPrerouting(cell, id, r.st.access, f);
      } else {
        var t := CellTarget(cell, r.st, r.cache, r.answers(i));
        if t.Some? {
          NatRulesPrerouting(cell, t.value, FamilyOf(t.value), id, r.st, f);
        }
      }
  }

  lemma {:induction false} DropRulesInFilter(cell: NftCell, fs: seq<Family>)
    requires cell.Drop?
    ensures forall c :: c in DropRulesFor(cell, fs) ==> c.AddRule? && c.key.table == SelfFilter
  {
    if fs != [] {
      DropRulesInFilter(cell, fs[..|fs| - 1]);
    }
  }

  // ---------------------------------------------------------------- the nat chain

  lemma OfferedService(r: Round, p: Packet, i: nat)
    requires i < |r.cells|
    ensures var service := r.Service(i, FamilyOf(p.src));
            Offer(r, p, i)
            == if service.Some? && r.Listens(i, p) then Some((RuleIndex(r.cells, i), service.value)) else None
    ensures var service := r.Service(i, FamilyOf(p.src));
            service.Some? ==> r.cells[i].Rule? && (service.value.Dnat? || service.value.RedirectTo?)
  {
  }

  lemma CellDecides(r: Round, p: Packet, i: nat, sets: map<SetName, seq<Entry>>, script: Script)
    requires i < |r.cells| && p.ct == NewConnection
             && OutAt(r.cells, r.answers, r.st, r.cache, i).script == Success(script)
    ensures var d := Decide(Added(script, NatTable(FamilyOf(p.src)), Prerouting), p, sets);
            && Conclude(d) == OfferVerdict(r.st.access, p.src, Offer(r, p, i))
            && (d.None? <==> Conclude(d) == Untouched)
  {
    var f := FamilyOf(p.src);
    CellPrerouting(r, i, f, script);
    OfferedService(r, p, i);
    var service := r.Service(i, f);
    if service.Some? {
      var cell := r.cells[i].cell;
      ServiceRulesDecide(f, r.st, cell.protocol, ListenLo(cell), ListenHi(cell), RuleIndex(r.cells, i),
                         service.value, p, sets);
    }
  }

  /** First match over the rules of the first n positions is the policy over their offers. */
  lemma {:induction false} BodyDecides(r: Round, p: Packet, n: nat, sets: map<SetName, seq<Entry>>)
    requires n <= |r.cells| && AllBuild(Outs(r.cells, r.answers, r.st, r.cache, n)) && p.ct == NewConnection
    ensures var key := NatTable(FamilyOf(p.src));
            var d := Decide(Added(Body(Outs(r.cells, r.answers, r.st, r.cache, n)), key, Prerouting), p, sets);
            && Conclude(d) == FirstVerdict(r.st.access, p.src, Offers(r, p, n))
            && (d.None? <==> Conclude(d) == Untouched)
  {
    if n > 0 {
      var outs := Outs(r.cells, r.answers, r.st, r.cache, n);
      var before := Outs(r.cells, r.answers, r.st, r.cache, n - 1);
      assert outs[..n - 1] == before && outs[n - 1] == OutAt(r.cells, r.answers, r.st, r.cache, n - 1);
      assert AllBuild(before) by {
        forall i | 0 <= i < n - 1 ensures before[i].script.Success? { assert before[i] == outs[i]; }
      }
      BodyDecides(r, p, n - 1, sets);
      CellDecides(r, p, n - 1, sets, outs[n - 1].script.value);
      FirstMatchStep(Body(before), outs[n - 1].script.value, NatTable(FamilyOf(p.src)), Prerouting, p, sets);
      var offers := Offers(r, p, n);
      assert offers[..n - 1] == Offers(r, p, n - 1);
    }
  }

  lemma FirstMatchStep(a: Script, b: Script, key: TableKey, chain: ChainName, p: Packet, sets: map<SetName, seq<Entry>>)
    ensures Decide(Added(a + b, key, chain), p, sets)
            == var d := Decide(Added(a, key, chain), p, sets);
               if d.Some? then d else Decide(Added(b, key, chain), p, sets)
  {
    AddedConcat(a, b, key, chain);
    DecideConcat(Added(a, key, chain), Added(b, key, chain), p, sets);
  }

  /** The verdict in terms of the first offer: access control is the same for every rule, so when it turns
      the first serving rule down, no later rule takes the packet either. */
  lemma {:induction false} FirstOfferCounts(access: AccessConfig, src: Ip, offers: seq<Option<(nat, Action)>>)
    ensures (forall j :: 0 <= j < |offers| ==> offers[j].None?) ==> FirstVerdict(access, src, offers) == Untouched
    ensures forall i :: 0 <= i < |offers| && offers[i].Some? && (forall j :: 0 <= j < i ==> offers[j].None?) ==>
              FirstVerdict(access, src, offers) == AccessVerdict(access, src, offers[i].value.0, offers[i].value.1)
  {
    if offers != [] {
      var n := |offers| - 1;
      FirstOfferCounts(access, src, offers[..n]);
      forall i | 0 <= i < |offers| && offers[i].Some? && (forall j :: 0 <= j < i ==> offers[j].None?)
        ensures FirstVerdict(access, src, offers) == AccessVerdict(access, src, offers[i].value.0, offers[i].value.1)
      {
        if i < n {
          assert offers[..n][i] == offers[i];
        }
      }
    }
  }
}
