/** The installed prerouting chains decide every new packet exactly as the policy says. */
module PreroutingMeaning {
  import opened Wrappers
  import opened Net
  import opened Cells
  import opened LastGood
  import opened Nft
  import opened Compiler
  import opened Refusal
  import opened Transaction
  import opened Policy

  // ---------------------------------------------------------------- which rules the GeoIP chain guards

  lemma EmitsIff(r: Round, i: nat)
    requires i < |r.cells| && r.cells[i].Rule? && !r.cells[i].cell.Drop?
    requires OutAt(r.cells, r.answers, r.st, r.cache, i).script.Success?
    ensures OutAt(r.cells, r.answers, r.st, r.cache, i).script.value != []
            <==> r.Emitted(i, Inet4) || r.Emitted(i, Inet6)
  {
    var cell := r.cells[i].cell;
    var id := RuleIndex(r.cells, i);
    if cell.Redirect? {
      RedirectEmitsIff(cell, Inet4, id, r.st.access);
      RedirectEmitsIff(cell, Inet6, id, r.st.access);
    } else {
      var t := CellTarget(cell, r.st, r.cache, r.answers(i));
      if t.Some? {
        NatRulesEmitIff(cell, t.value, FamilyOf(t.value), id, r.st);
      }
    }
  }

  /** A cell is written exactly if the policy has it emitted in some family. */
  lemma WrittenIffEmitted(r: Round, i: nat)
    requires i < |r.cells| && r.cells[i].Rule?
    ensures Written(r.cells[i].cell, r.st, r.cache, r.answers(i)) <==> r.Emitted(i, Inet4) || r.Emitted(i, Inet6)
  {
    var cell := r.cells[i].cell;
    if cell.Single? || cell.Range? {
      var t := CellTarget(cell, r.st, r.cache, r.answers(i));
      assert forall f :: r.Service(i, f).Some? <==> t.Some? && FamilyOf(t.value) == f;
    }
  }

  lemma RedirectEmitsIff(cell: NftCell, f: Family, id: nat, access: AccessConfig)
    requires cell.Redirect?
    ensures RedirectRule(cell, f, id, access) != [] <==> (access.mode.Whitelist? ==> OfFamily(access.entries, f) != [])
  {
  }

  lemma NatRulesEmitIff(cell: NftCell, ip: Ip, f: Family, id: nat, st: Settings)
    requires cell.Single? || cell.Range?
    ensures NatRules(cell, ip, f, id, st) != []
            <==> (st.access.mode.Whitelist? ==> OfFamily(st.access.entries, f) != [])
  {
  }

  predicate SummaryListens(s: Summary, p: Packet) {
    TransportMatches(s.protocol, p.transport) && s.lo <= p.dport <= s.hi
  }

  predicate ListensAny(ss: seq<Summary>, p: Packet) {
    exists s :: s in ss && SummaryListens(s, p)
  }

  lemma SummaryIff(r: Round, i: nat, p: Packet)
    requires i < |r.cells| && OutAt(r.cells, r.answers, r.st, r.cache, i).script.Success?
    ensures ListensAny(OutAt(r.cells, r.answers, r.st, r.cache, i).summary, p)
            <==> r.Guarded(i) && r.Listens(i, p)
  {
    var summary := OutAt(r.cells, r.answers, r.st, r.cache, i).summary;
    if r.cells[i].Rule? && !r.cells[i].cell.Drop? {
      EmitsIff(r, i);
      if summary != [] {
        assert summary[0] in summary;
      }
    }
  }

  lemma SummariesStep(before: seq<CellOut>, last: CellOut, p: Packet)
    ensures ListensAny(Summaries(before + [last]), p)
            <==> ListensAny(Summaries(before), p) || ListensAny(last.summary, p)
  {
    assert (before + [last])[..|before|] == before;
    ListensAnyConcat(Summaries(before), last.summary, p);
  }

  predicate GuardedListener(r: Round, n: nat, p: Packet)
    requires n <= |r.cells|
  {
    exists i :: 0 <= i < n && r.Guarded(i) && r.Listens(i, p)
  }

  lemma GuardedListenerStep(r: Round, n: nat, p: Packet)
    requires n < |r.cells|
    ensures GuardedListener(r, n + 1, p) <==> GuardedListener(r, n, p) || (r.Guarded(n) && r.Listens(n, p))
  {
  }

  lemma {:induction false} SummariesIff(r: Round, n: nat, p: Packet, outs: seq<CellOut>)
    requires n <= |r.cells| && outs == Outs(r.cells, r.answers, r.st, r.cache, n) && AllBuild(outs)
    ensures ListensAny(Summaries(outs), p) <==> GuardedListener(r, n, p)
  {
    if n > 0 {
      var before, last := outs[..n - 1], outs[n - 1];
      assert outs == before + [last];
      AllBuildPrefix(outs, before);
      SummariesIff(r, n - 1, p, before);
      SummaryIff(r, n - 1, p);
      SummariesStep(before, last, p);
      GuardedListenerStep(r, n - 1, p);
    }
  }

  lemma AllBuildPrefix(outs: seq<CellOut>, before: seq<CellOut>)
    requires AllBuild(outs) && |outs| > 0 && outs[..|outs| - 1] == before
    ensures AllBuild(before) && outs[|outs| - 1].script.Success?
  {
    forall i | 0 <= i < |before| ensures before[i].script.Success? {
      assert before[i] == outs[i];
    }
  }

  lemma ListensAnyConcat(a: seq<Summary>, b: seq<Summary>, p: Packet)
    ensures ListensAny(a + b, p) <==> ListensAny(a, p) || ListensAny(b, p)
  {
    if ListensAny(a, p) {
      var s :| s in a && SummaryListens(s, p);
      assert s in a + b;
    }
    if ListensAny(b, p) {
      var s :| s in b && SummaryListens(s, p);
      assert s in a + b;
    }
  }

  // ---------------------------------------------------------------- the GeoIP chain

  predicate CnOrLan(geo: GeoIpConfig, cn4: seq<Entry>, src: Ip) {
    CoversAny(cn4, src) || (geo.allowLan && CoversAny(geo.LanIpv4(), src))
  }

  lemma GuardMatchHolds(m: Match, protocol: Protocol, lo: Port, hi: Port, p: Packet, sets: map<SetName, seq<Entry>>)
    ensures AllHold([m] + [L4(protocol), DportIn(lo, hi)], p, sets)
            <==> Holds(m, p, sets) && TransportMatches(protocol, p.transport) && lo <= p.dport <= hi
  {
    AllHoldConcat([m], [L4(protocol), DportIn(lo, hi)], p, sets);
    AllHoldOne(m, p, sets);
    PortMatchHolds(protocol, lo, hi, p, sets);
  }

  lemma DecideOne(rule: NftRule, p: Packet, sets: map<SetName, seq<Entry>>)
    ensures Decide([rule], p, sets)
            == if Terminal(rule.action) && AllHold(rule.matches, p, sets) then Some(rule) else None
  {
    assert [rule][1..] == [];
  }

  /** Accept the CN set, accept the LAN if allowed, drop the rest: on one port specification. */
  function Guard(geo: GeoIpConfig, protocol: Protocol, lo: Port, hi: Port, lan: bool,
                 owner: Option<nat>): seq<NftRule> {
    var port := [L4(protocol), DportIn(lo, hi)];
    [NftRule([SaddrInSet(Cn4)] + port, Accept, owner)]
    + (if lan then [NftRule([SaddrIn(geo.LanIpv4())] + port, Accept, owner)] else [])
    + [NftRule(port, DropPacket, owner)]
  }

  /** A decision that exists exactly for the packets listened to, and drops those not admitted. */
  predicate GuardOutcome(d: Option<NftRule>, listens: bool, admitted: bool) {
    && (d.Some? <==> listens)
    && (d.Some? ==>
          (d.value.action == DropPacket || d.value.action == Accept) && (d.value.action.DropPacket? <==> !admitted))
  }

  /** A guard decides exactly the packets to its ports, and drops those from neither the CN set nor the LAN. */
  lemma GuardDecides(geo: GeoIpConfig, protocol: Protocol, lo: Port, hi: Port, lan: bool, owner: Option<nat>,
                     p: Packet, sets: map<SetName, seq<Entry>>)
    requires Cn4 in sets
    ensures GuardOutcome(Decide(Guard(geo, protocol, lo, hi, lan, owner), p, sets),
                         TransportMatches(protocol, p.transport) && lo <= p.dport <= hi,
                         CoversAny(sets[Cn4], p.src) || (lan && CoversAny(geo.LanIpv4(), p.src)))
  {
    var port := [L4(protocol), DportIn(lo, hi)];
    var a := NftRule([SaddrInSet(Cn4)] + port, Accept, owner);
    var b := NftRule([SaddrIn(geo.LanIpv4())] + port, Accept, owner);
    var c := NftRule(port, DropPacket, owner);
    GuardMatchHolds(SaddrInSet(Cn4), protocol, lo, hi, p, sets);
    GuardMatchHolds(SaddrIn(geo.LanIpv4()), protocol, lo, hi, p, sets);
    PortMatchHolds(protocol, lo, hi, p, sets);
    DecideOne(a, p, sets);
    DecideOne(b, p, sets);
    DecideOne(c, p, sets);
    var middle := if lan then [b] else [];
    DecideConcat([a] + middle, [c], p, sets);
    DecideConcat([a], middle, p, sets);
  }

  predicate LanOpen(geo: GeoIpConfig) {
    geo.allowLan && geo.LanIpv4() != []
  }

  lemma GuardAdded(chain: ChainName, protocol: Protocol, lo: Port, hi: Port, geo: GeoIpConfig, lan: bool,
                   owner: Option<nat>)
    ensures var port := [L4(protocol), DportIn(lo, hi)];
            Added([GeoRule(chain, [SaddrInSet(Cn4)] + port, Accept, owner)]
                  + (if lan then [GeoRule(chain, [SaddrIn(geo.LanIpv4())] + port, Accept, owner)] else [])
                  + [GeoRule(chain, port, DropPacket, owner)], FilterTable(Inet4), chain)
            == Guard(geo, protocol, lo, hi, lan, owner)
  {
    var key := FilterTable(Inet4);
    var port := [L4(protocol), DportIn(lo, hi)];
    var a := GeoRule(chain, [SaddrInSet(Cn4)] + port, Accept, owner);
    var b := GeoRule(chain, [SaddrIn(geo.LanIpv4())] + port, Accept, owner);
    var c := GeoRule(chain, port, DropPacket, owner);
    var middle := if lan then [b] else [];
    AddedOne(a, key, chain);
    AddedOne(b, key, chain);
    AddedOne(c, key, chain);
    AddedConcat([a] + middle, [c], key, chain);
    AddedConcat([a], middle, key, chain);
  }

  lemma GeoForwardRuleDecides(geo: GeoIpConfig, s: Summary, p: Packet, sets: map<SetName, seq<Entry>>)
    requires Cn4 in sets
    ensures GuardOutcome(Decide(Added(GeoForwardRule(geo, s), FilterTable(Inet4), GeoIpPrerouting), p, sets),
                         SummaryListens(s, p), CnOrLan(geo, sets[Cn4], p.src))
  {
    GuardAdded(GeoIpPrerouting, s.protocol, s.lo, s.hi, geo, LanOpen(geo), Some(s.id));
    GuardDecides(geo, s.protocol, s.lo, s.hi, LanOpen(geo), Some(s.id), p, sets);
    assert geo.LanIpv4() == [] ==> !CoversAny(geo.LanIpv4(), p.src);
  }

  lemma {:induction false} GeoForwardDecides(geo: GeoIpConfig, ss: seq<Summary>, p: Packet,
                                             sets: map<SetName, seq<Entry>>,
                                             admitted: bool)
    requires Cn4 in sets && admitted == CnOrLan(geo, sets[Cn4], p.src)
    ensures GuardOutcome(Decide(Added(GeoForwardRules(geo, ss), FilterTable(Inet4), GeoIpPrerouting), p, sets),
                         ListensAny(ss, p), admitted)
  {
    if ss != [] {
      var n := |ss| - 1;
      GeoForwardDecides(geo, ss[..n], p, sets, admitted);
      GeoForwardRuleDecides(geo, ss[n], p, sets);
      FirstMatchStep(GeoForwardRules(geo, ss[..n]), GeoForwardRule(geo, ss[n]), FilterTable(Inet4), GeoIpPrerouting,
                     p, sets);
      ListensAnyConcat(ss[..n], [ss[n]], p);
      assert ss == ss[..n] + [ss[n]];
      ListensOne(ss[n], p);
    }
  }

  lemma ListensOne(s: Summary, p: Packet)
    ensures ListensAny([s], p) <==> SummaryListens(s, p)
  {
    assert s in [s];
  }

  lemma {:induction false} MssRulesInForward(mss: MssConfig, ss: seq<Summary>)
    ensures forall c :: c in MssRules(mss, ss) ==> c.AddRule? && c.key == FilterTable(Inet4) && c.chain == ForwardHook
  {
    if ss != [] {
      MssRulesInForward(mss, ss[..|ss| - 1]);
    }
  }

  lemma {:induction false} GeoForwardInChain(geo: GeoIpConfig, ss: seq<Summary>)
    ensures forall c :: c in GeoForwardRules(geo, ss) ==>
              c.AddRule? && c.key == FilterTable(Inet4) && c.chain == GeoIpPrerouting
  {
    if ss != [] {
      GeoForwardInChain(geo, ss[..|ss| - 1]);
    }
  }

  /** What a script adds to one chain, part by part. */
  lemma PartsAdded(st: Settings, outs: seq<CellOut>, key: TableKey, chain: ChainName)
    ensures st.globalEnabled ==>
              Added(RulesPart(st, outs), key, chain)
              == Added(GeoHead(st), key, chain)
                 + (Added(Body(outs), key, chain) + Added(Tail(st, Summaries(outs)), key, chain))
    ensures !st.globalEnabled ==> Added(RulesPart(st, outs), key, chain) == Added(GeoHead(st), key, chain)
  {
    if st.globalEnabled {
      AddedConcat(GeoHead(st), Body(outs) + Tail(st, Summaries(outs)), key, chain);
      AddedConcat(Body(outs), Tail(st, Summaries(outs)), key, chain);
    } else {
      assert GeoHead(st) + [] == GeoHead(st);
    }
  }

  lemma GeoTailAdded(st: Settings, ss: seq<Summary>)
    requires CnSet(st).Some? && st.geo.forwardEnabled
    ensures Added(Tail(st, ss), FilterTable(Inet4), GeoIpPrerouting)
            == Added(GeoForwardRules(st.geo, ss), FilterTable(Inet4), GeoIpPrerouting)
  {
    var key := FilterTable(Inet4);
    var geo: Script := if ss != [] then GeoForwardRules(st.geo, ss) else [];
    var mss: Script := if st.mss.enabled && ss != [] then MssRules(st.mss, ss) else [];
    MssRulesInForward(st.mss, ss);
    AddedElsewhere(mss, key, GeoIpPrerouting);
    AddedConcat(geo, mss, key, GeoIpPrerouting);
    assert Tail(st, ss) == geo + mss;
    assert Added(geo, key, GeoIpPrerouting) + [] == Added(geo, key, GeoIpPrerouting);
  }

  lemma SshRulesInInput(geo: GeoIpConfig)
    ensures forall c :: c in SshRules(geo) ==> c.AddRule? && c.key == FilterTable(Inet4) && c.chain == InputHook
  {
  }

  lemma GeoHeadAdded(st: Settings)
    requires CnSet(st).Some? && GeoForwardActive(st)
    ensures Added(GeoHead(st), FilterTable(Inet4), GeoIpPrerouting) == [NftRule([CtReply], Accept, None)]
  {
    var key := FilterTable(Inet4);
    var ssh: Script := if st.geo.sshEnabled then SshRules(st.geo) else [];
    SshRulesInInput(st.geo);
    AddedElsewhere(ssh, key, GeoIpPrerouting);
    AddedConcat(GeoIpChainRules(), ssh, key, GeoIpPrerouting);
    AddedOne(GeoIpChainRules()[0], key, GeoIpPrerouting);
  }

  lemma InstalledRules(st: Settings, outs: seq<CellOut>, key: TableKey, c: ChainName)
    requires Managed(key) && key in Declarations(st) && c in Declarations(st)[key].chains
    ensures key in Installed(st, outs) && c in Installed(st, outs)[key].chains
    ensures Installed(st, outs)[key].chains[c].rules == Added(RulesPart(st, outs), key, c)
    ensures Installed(st, outs)[key].sets == Declarations(st)[key].sets
  {
    assert Declarations(st)[key].chains[c].rules == [];
    assert [] + Added(RulesPart(st, outs), key, c) == Added(RulesPart(st, outs), key, c);
  }

  lemma InstalledChains(st: Settings, outs: seq<CellOut>, key: TableKey, c: ChainName)
    requires Managed(key) && key in Declarations(st) && c !in Declarations(st)[key].chains
    ensures key in Installed(st, outs) && c !in Installed(st, outs)[key].chains
  {
  }

  /** The tables a round's script leaves behind, whatever was there before, if it loads. */
  function After(r: Round, rs: Ruleset): Ruleset {
    rs + Installed(r.st, AllOuts(r.cells, r.answers, r.st, r.cache))
  }

  lemma AfterRun(r: Round, rs: Ruleset)
    ensures Run(ScriptOf(r.cells, r.answers, r.st, r.cache), rs)
            == if Loads(r.cells, r.answers, r.st, r.cache) then Some(After(r, rs)) else None
  {
    ScriptEffect(r.cells, r.answers, r.st, r.cache, rs);
  }

  lemma AddedByPart(st: Settings, outs: seq<CellOut>, key: TableKey, chain: ChainName,
                    head: seq<NftRule>, body: seq<NftRule>, tail: seq<NftRule>)
    requires st.globalEnabled
    requires Added(GeoHead(st), key, chain) == head && Added(Body(outs), key, chain) == body
    requires Added(Tail(st, Summaries(outs)), key, chain) == tail
    ensures Added(RulesPart(st, outs), key, chain) == head + (body + tail)
  {
    PartsAdded(st, outs, key, chain);
  }

  lemma BodyHasNoGeoIpRules(r: Round)
    ensures Added(Body(AllOuts(r.cells, r.answers, r.st, r.cache)), FilterTable(Inet4), GeoIpPrerouting) == []
  {
    BodyInBase(r.cells, r.answers, r.st, r.cache, |r.cells|);
    AddedElsewhere(Body(AllOuts(r.cells, r.answers, r.st, r.cache)), FilterTable(Inet4), GeoIpPrerouting);
  }

  lemma GeoIpChainRulesAre(r: Round, outs: seq<CellOut>)
    requires r.GeoIpInForce() && outs == AllOuts(r.cells, r.answers, r.st, r.cache)
    ensures Added(RulesPart(r.st, outs), FilterTable(Inet4), GeoIpPrerouting)
            == [NftRule([CtReply], Accept, None)]
               + Added(GeoForwardRules(r.st.geo, Summaries(outs)), FilterTable(Inet4), GeoIpPrerouting)
  {
    var tail := Added(GeoForwardRules(r.st.geo, Summaries(outs)), FilterTable(Inet4), GeoIpPrerouting);
    GeoHeadAdded(r.st);
    BodyHasNoGeoIpRules(r);
    GeoTailAdded(r.st, Summaries(outs));
    AddedByPart(r.st, outs, FilterTable(Inet4), GeoIpPrerouting, [NftRule([CtReply], Accept, None)], [], tail);
    assert [] + tail == tail;
  }

  lemma ReplyRuleSkipsNew(rest: seq<NftRule>, p: Packet, sets: map<SetName, seq<Entry>>)
    requires p.ct == NewConnection
    ensures Decide([NftRule([CtReply], Accept, None)] + rest, p, sets) == Decide(rest, p, sets)
  {
    var reply := NftRule([CtReply], Accept, None);
    DecideOne(reply, p, sets);
    AllHoldOne(CtReply, p, sets);
    DecideConcat([reply], rest, p, sets);
  }

  /** The GeoIP chain drops exactly what the policy says it drops. */
  lemma GeoIpChainMeaning(r: Round, rs: Ruleset, p: Packet)
    requires Builds(r.cells, r.answers, r.st, r.cache) && p.ct == NewConnection
    ensures Conclude(ChainDecision(After(r, rs), FilterTable(FamilyOf(p.src)), GeoIpPrerouting, p)) == Dropped
            <==> r.GeoIpDrops(p)
  {
    var outs := AllOuts(r.cells, r.answers, r.st, r.cache);
    var key := FilterTable(FamilyOf(p.src));
    if p.src.Ip4? && r.GeoIpInForce() {
      var sets := Declarations(r.st)[key].sets;
      InstalledRules(r.st, outs, key, GeoIpPrerouting);
      GeoIpChainRulesAre(r, outs);
      ReplyRuleSkipsNew(Added(GeoForwardRules(r.st.geo, Summaries(outs)), key, GeoIpPrerouting), p, sets);
      GeoForwardDecides(r.st.geo, Summaries(outs), p, sets, r.FromCnOrLan(p.src));
      SummariesIff(r, |r.cells|, p, outs);
    } else {
      InstalledChains(r.st, outs, key, GeoIpPrerouting);
    }
  }

  lemma NatChainParts(r: Round, f: Family)
    ensures var outs := AllOuts(r.cells, r.answers, r.st, r.cache);
            Added(RulesPart(r.st, outs), NatTable(f), Prerouting)
            == if r.st.globalEnabled then Added(Body(outs), NatTable(f), Prerouting) else []
  {
    var st, key := r.st, NatTable(f);
    var outs := AllOuts(r.cells, r.answers, st, r.cache);
    PartsAdded(st, outs, key, Prerouting);
    GeoHeadPlaced(st);
    AddedElsewhere(GeoHead(st), key, Prerouting);
    if st.globalEnabled {
      TailPlaced(st, Summaries(outs));
      AddedElsewhere(Tail(st, Summaries(outs)), key, Prerouting);
    }
  }

  /** The nat chain translates exactly as the policy says. */
  lemma NatChainMeaning(r: Round, rs: Ruleset, p: Packet)
    requires Builds(r.cells, r.answers, r.st, r.cache) && p.ct == NewConnection
    ensures Conclude(ChainDecision(After(r, rs), NatTable(FamilyOf(p.src)), Prerouting, p))
            == if r.st.globalEnabled then FirstVerdict(r.st.access, p.src, Offers(r, p, |r.cells|)) else Untouched
  {
    var key := NatTable(FamilyOf(p.src));
    var outs := AllOuts(r.cells, r.answers, r.st, r.cache);
    InstalledRules(r.st, outs, key, Prerouting);
    NatChainParts(r, FamilyOf(p.src));
    if r.st.globalEnabled {
      BodyDecides(r, p, |r.cells|, Declarations(r.st)[key].sets);
    }
  }

  /** Compilation preserves meaning: for every configuration, every resolution outcome and every ruleset it is
      applied to, a script that loads makes the kernel treat each new packet as the policy says. */
  lemma CompilationPreservesMeaning(r: Round, rs: Ruleset, p: Packet)
    requires Builds(r.cells, r.answers, r.st, r.cache) && p.ct == NewConnection
    ensures Run(ScriptOf(r.cells, r.answers, r.st, r.cache), rs)
            == if Loads(r.cells, r.answers, r.st, r.cache) then Some(After(r, rs)) else None
    ensures KernelPrerouting(After(r, rs), p) == PreroutingPolicy(r, p)
  {
    AfterRun(r, rs);
    GeoIpChainMeaning(r, rs, p);
    NatChainMeaning(r, rs, p);
  }

  // ---------------------------------------------------------------- the policy, rule by rule

  /** i is the first rule that serves the packet. */
  predicate FirstServing(r: Round, p: Packet, i: nat) {
    i < |r.cells| && r.Serves(i, p) && forall j :: 0 <= j < i ==> !r.Serves(j, p)
  }

  lemma {:induction false} OffersAt(r: Round, p: Packet, n: nat, i: nat)
    requires i < n <= |r.cells|
    ensures Offers(r, p, n)[i] == Offer(r, p, i)
  {
    if i < n - 1 {
      OffersAt(r, p, n - 1, i);
    }
  }

  lemma {:induction false} RuleIndexMonotone(cells: seq<RuntimeCell>, i: nat, j: nat)
    requires i < j <= |cells|
    ensures RuleIndex(cells, i) <= RuleIndex(cells, j)
    ensures cells[i].Rule? ==> RuleIndex(cells, i) < RuleIndex(cells, j)
  {
    if i < j - 1 {
      RuleIndexMonotone(cells, i, j - 1);
    }
  }

  lemma PolicyWithoutService(r: Round, p: Packet)
    requires forall j :: 0 <= j < |r.cells| ==> !r.Serves(j, p)
    ensures FirstVerdict(r.st.access, p.src, Offers(r, p, |r.cells|)) == Untouched
  {
    var offers := Offers(r, p, |r.cells|);
    forall j | 0 <= j < |offers| ensures offers[j].None? {
      OffersAt(r, p, |r.cells|, j);
    }
    FirstOfferCounts(r.st.access, p.src, offers);
  }

  lemma PolicyOfFirst(r: Round, p: Packet, i: nat)
    requires FirstServing(r, p, i)
    ensures FirstVerdict(r.st.access, p.src, Offers(r, p, |r.cells|))
            == AccessVerdict(r.st.access, p.src, RuleIndex(r.cells, i), r.Service(i, FamilyOf(p.src)).value)
  {
    var offers := Offers(r, p, |r.cells|);
    forall j | 0 <= j < i ensures offers[j].None? {
      OffersAt(r, p, |r.cells|, j);
    }
    OffersAt(r, p, |r.cells|, i);
    FirstOfferCounts(r.st.access, p.src, offers);
  }

  lemma {:induction false} FirstServingExists(r: Round, p: Packet, j: nat) returns (i: nat)
    requires j < |r.cells| && r.Serves(j, p)
    ensures FirstServing(r, p, i) && i <= j
  {
    if k :| 0 <= k < j && r.Serves(k, p) {
      i := FirstServingExists(r, p, k);
    } else {
      i := j;
    }
  }

  predicate AccessAdmits(access: AccessConfig, src: Ip) {
    match access.mode
    case Off => true
    case Whitelist => CoversAny(access.entries, src)
    case Blacklist => !CoversAny(access.entries, src)
  }

  /** Distinct rules have distinct numbers, so the number names the first serving rule. */
  lemma NumberNamesRule(r: Round, i: nat, m: nat)
    requires i < |r.cells| && m < |r.cells| && r.cells[i].Rule? && r.cells[m].Rule?
    requires RuleIndex(r.cells, i) == RuleIndex(r.cells, m)
    ensures i == m
  {
    if m < i {
      RuleIndexMonotone(r.cells, m, i);
    } else if i < m {
      RuleIndexMonotone(r.cells, i, m);
    }
  }

  lemma AccessTranslatesIff(access: AccessConfig, src: Ip, owner: nat, action: Action)
    ensures AccessVerdict(access, src, owner, action).Translated? <==> AccessAdmits(access, src)
    ensures AccessAdmits(access, src) ==> AccessVerdict(access, src, owner, action) == Translated(owner, action)
  {
  }

  lemma PolicyTranslatesIff(r: Round, p: Packet, i: nat)
    requires r.st.globalEnabled && i < |r.cells| && r.cells[i].Rule?
    ensures var v := PreroutingPolicy(r, p);
            && (v.Translated? && v.owner == RuleIndex(r.cells, i)
                <==> FirstServing(r, p, i) && AccessAdmits(r.st.access, p.src)
                     && (p.src.Ip4? && r.GeoIpInForce() ==> r.FromCnOrLan(p.src)))
            && (v.Translated? && v.owner == RuleIndex(r.cells, i) ==> v.action == r.Service(i, FamilyOf(p.src)).value)
  {
    if k :| 0 <= k < |r.cells| && r.Serves(k, p) {
      var m := FirstServingExists(r, p, k);
      PolicyOfFirst(r, p, m);
      AccessTranslatesIff(r.st.access, p.src, RuleIndex(r.cells, m), r.Service(m, FamilyOf(p.src)).value);
      if RuleIndex(r.cells, m) == RuleIndex(r.cells, i) {
        NumberNamesRule(r, i, m);
      }
      assert FirstServing(r, p, i) ==> i == m;
      ServingIsGuarded(r, p, m);
    } else {
      PolicyWithoutService(r, p);
    }
  }

  /** A new packet is translated by the rule at position i exactly when i is the first rule built for the
      packet's family whose port and protocol match, the source passes access control, and for IPv4 under
      GeoIP the source is in the CN set or the allowed LAN; it is then translated as that rule says. */
  lemma TranslatedByRuleIff(r: Round, rs: Ruleset, p: Packet, i: nat)
    requires r.st.globalEnabled && Builds(r.cells, r.answers, r.st, r.cache) && p.ct == NewConnection
    requires i < |r.cells| && r.cells[i].Rule?
    ensures var v := KernelPrerouting(After(r, rs), p);
            && (v.Translated? && v.owner == RuleIndex(r.cells, i)
                <==> FirstServing(r, p, i) && AccessAdmits(r.st.access, p.src)
                     && (p.src.Ip4? && r.GeoIpInForce() ==> r.FromCnOrLan(p.src)))
            && (v.Translated? && v.owner == RuleIndex(r.cells, i) ==> v.action == r.Service(i, FamilyOf(p.src)).value)
  {
    CompilationPreservesMeaning(r, rs, p);
    PolicyTranslatesIff(r, p, i);
  }

  /** Which rule it is does not matter for whether a packet some rule serves gets translated at all. */
  lemma TranslatedIff(r: Round, rs: Ruleset, p: Packet, k: nat)
    requires r.st.globalEnabled && Builds(r.cells, r.answers, r.st, r.cache) && p.ct == NewConnection
    requires k < |r.cells| && r.Serves(k, p)
    ensures KernelPrerouting(After(r, rs), p).Translated?
            <==> AccessAdmits(r.st.access, p.src) && (p.src.Ip4? && r.GeoIpInForce() ==> r.FromCnOrLan(p.src))
  {
    var m := FirstServingExists(r, p, k);
    CompilationPreservesMeaning(r, rs, p);
    PolicyOfFirst(r, p, m);
    AccessTranslatesIff(r.st.access, p.src, RuleIndex(r.cells, m), r.Service(m, FamilyOf(p.src)).value);
    ServingIsGuarded(r, p, m);
  }

  /** A rule that takes an IPv4 packet is also guarded by the GeoIP chain, unless a whitelist shuts it. */
  lemma ServingIsGuarded(r: Round, p: Packet, i: nat)
    requires i < |r.cells| && r.Serves(i, p)
    ensures p.src.Ip4? && AccessAdmits(r.st.access, p.src) ==> r.Guarded(i) && r.Listens(i, p)
  {
    if p.src.Ip4? && AccessAdmits(r.st.access, p.src) {
      if r.st.access.mode.Whitelist? {
        OfFamilyKeepsMatches(r.st.access.entries, p.src);
      }
      assert r.Emitted(i, Inet4);
      if !r.cells[i].cell.Redirect? {
        TargetFits(r.cells[i].cell, r.st, r.cache, r.answers(i));
      }
    }
  }

  /** A blacklisted source never gets through to a port some rule serves: the packet is dropped. */
  lemma BlacklistedIsDropped(r: Round, rs: Ruleset, p: Packet, i: nat)
    requires r.st.globalEnabled && Builds(r.cells, r.answers, r.st, r.cache) && p.ct == NewConnection
    requires i < |r.cells| && r.Serves(i, p)
    requires r.st.access.mode.Blacklist? && CoversAny(r.st.access.entries, p.src)
    ensures KernelPrerouting(After(r, rs), p) == Dropped
  {
    CompilationPreservesMeaning(r, rs, p);
    var m := FirstServingExists(r, p, i);
    PolicyOfFirst(r, p, m);
  }
}
