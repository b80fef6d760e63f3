/** What the other installed chains do: filter rules of the configuration, the SSH guard, and source NAT. */
module FilterMeaning {
  import opened Wrappers
  import opened Net
  import opened Cells
  import opened LastGood
  import opened Nft
  import opened Compiler
  import opened Transaction
  import opened Policy
  import opened PreroutingMeaning

  // ---------------------------------------------------------------- first decision over the cells

  function PositionDecision(out: CellOut, key: TableKey, c: ChainName, p: Packet,
                            sets: map<SetName, seq<Entry>>): Option<NftRule> {
    if out.script.Success? then Decide(Added(out.script.value, key, c), p, sets) else None
  }

  function FirstDecision(outs: seq<CellOut>, key: TableKey, c: ChainName, p: Packet,
                         sets: map<SetName, seq<Entry>>): Option<NftRule> {
    if outs == [] then None
    else
      var d := FirstDecision(outs[..|outs| - 1], key, c, p, sets);
      if d.Some? then d else PositionDecision(outs[|outs| - 1], key, c, p, sets)
  }

  lemma {:induction false} BodyFirstDecision(outs: seq<CellOut>, key: TableKey, c: ChainName, p: Packet,
                                             sets: map<SetName, seq<Entry>>)
    ensures Decide(Added(Body(outs), key, c), p, sets) == FirstDecision(outs, key, c, p, sets)
  {
    if outs != [] {
      var before, last := outs[..|outs| - 1], outs[|outs| - 1];
      BodyFirstDecision(before, key, c, p, sets);
      FirstMatchStep(Body(before), if last.script.Success? then last.script.value else [], key, c, p, sets);
    }
  }

  lemma {:induction false} FirstDecisionIs(outs: seq<CellOut>, key: TableKey, c: ChainName, p: Packet,
                                           sets: map<SetName, seq<Entry>>)
    ensures FirstDecision(outs, key, c, p, sets).None? <==>
            forall j :: 0 <= j < |outs| ==> PositionDecision(outs[j], key, c, p, sets).None?
    ensures forall i :: 0 <= i < |outs| && PositionDecision(outs[i], key, c, p, sets).Some?
                        && (forall j :: 0 <= j < i ==> PositionDecision(outs[j], key, c, p, sets).None?) ==>
              FirstDecision(outs, key, c, p, sets) == PositionDecision(outs[i], key, c, p, sets)
  {
    if outs != [] {
      var n := |outs| - 1;
      FirstDecisionIs(outs[..n], key, c, p, sets);
      forall j | 0 <= j < n ensures outs[..n][j] == outs[j] {}
    }
  }

  /** The deciding rule in a hook's chain once the round's script is loaded. */
  function HookDecision(r: Round, rs: Ruleset, c: ChainName, p: Packet): Option<NftRule> {
    KernelHook(After(r, rs), c, p)
  }

  // ---------------------------------------------------------------- filter rules of the configuration

  predicate AddressIn(a: Option<FilterAddress>, ip: Ip) {
    a.None? || (a.value.Parsed? && Covers(a.value.entry, ip))
  }

  predicate PortIn(lo: Option<Port>, hi: Option<Port>, port: Port) {
    lo.None? || lo.value <= port <= (if hi.Some? then hi.value else lo.value)
  }

  /** A drop cell applies in the family of its first address, to the packets that meet all its conditions;
      naming a port limits it to TCP and UDP. */
  predicate DropApplies(cell: NftCell, p: Packet)
    requires cell.Drop?
  {
    && DropFamilies(cell).Success? && FamilyOf(p.src) in DropFamilies(cell).value
    && AddressIn(cell.srcIp, p.src) && AddressIn(cell.dstIp, p.dst)
    && (cell.protocol != AnyProtocol || cell.fromPort.Some? || cell.toPort.Some? ==>
          TransportMatches(cell.protocol, p.transport))
    && PortIn(cell.fromPort, cell.fromPortEnd, p.sport)
    && PortIn(cell.toPort, cell.toPortEnd, p.dport)
  }

  lemma AddressHolds(a: FilterAddress, ip: Ip)
    ensures CoversAny(FilterEntries(a), ip) <==> a.Parsed? && Covers(a.entry, ip)
  {
    if a.Parsed? {
      assert a.entry in FilterEntries(a);
    }
  }

  lemma PortHolds(lo: Option<Port>, hi: Option<Port>, source: bool, p: Packet, sets: map<SetName, seq<Entry>>)
    ensures AllHold(PortMatch(lo, hi, source), p, sets) <==> PortIn(lo, hi, if source then p.sport else p.dport)
  {
    if lo.Some? {
      AllHoldOne(PortMatch(lo, hi, source)[0], p, sets);
    }
  }

  lemma DropMatchesHold(cell: NftCell, p: Packet, sets: map<SetName, seq<Entry>>)
    requires cell.Drop? && DropFamilies(cell).Success? && FamilyOf(p.src) in DropFamilies(cell).value
    ensures AllHold(DropMatches(cell), p, sets) <==> DropApplies(cell, p)
  {
    var a := if cell.srcIp.Some? then [SaddrIn(FilterEntries(cell.srcIp.value))] else [];
    var b := if cell.dstIp.Some? then [DaddrIn(FilterEntries(cell.dstIp.value))] else [];
    var c := if cell.protocol != AnyProtocol || cell.fromPort.Some? || cell.toPort.Some?
             then [L4(cell.protocol)] else [];
    var d := PortMatch(cell.fromPort, cell.fromPortEnd, true);
    var e := PortMatch(cell.toPort, cell.toPortEnd, false);
    AllHoldConcat(a + b + c + d, e, p, sets);
    AllHoldConcat(a + b + c, d, p, sets);
    AllHoldConcat(a + b, c, p, sets);
    AllHoldConcat(a, b, p, sets);
    PortHolds(cell.fromPort, cell.fromPortEnd, true, p, sets);
    PortHolds(cell.toPort, cell.toPortEnd, false, p, sets);
    AllHoldOne(L4(cell.protocol), p, sets);
    if cell.srcIp.Some? {
      AddressHolds(cell.srcIp.value, p.src);
      AllHoldOne(a[0], p, sets);
    }
    if cell.dstIp.Some? {
      AddressHolds(cell.dstIp.value, p.dst);
      AllHoldOne(b[0], p, sets);
    }
  }

  lemma DropRuleDecides(cell: NftCell, f: Family, c: ChainName, p: Packet, sets: map<SetName, seq<Entry>>)
    requires cell.Drop?
    ensures Decide(Added(DropRule(cell, f), FilterTable(FamilyOf(p.src)), c), p, sets)
            == if c == DropChain(cell.chain) && FamilyOf(p.src) == f && AllHold(DropMatches(cell), p, sets)
               then Some(NftRule(DropMatches(cell), DropPacket, None)) else None
  {
    AddedOne(DropRule(cell, f)[0], FilterTable(FamilyOf(p.src)), c);
    DecideOne(NftRule(DropMatches(cell), DropPacket, None), p, sets);
  }

  lemma {:induction false} DropRulesDecide(cell: NftCell, fs: seq<Family>, c: ChainName, p: Packet,
                                           sets: map<SetName, seq<Entry>>)
    requires cell.Drop?
    ensures var d := Decide(Added(DropRulesFor(cell, fs), FilterTable(FamilyOf(p.src)), c), p, sets);
            && (d.Some? <==> c == DropChain(cell.chain) && FamilyOf(p.src) in fs && AllHold(DropMatches(cell), p, sets))
            && (d.Some? ==> d.value.action == DropPacket)
  {
    if fs != [] {
      var n := |fs| - 1;
      var key := FilterTable(FamilyOf(p.src));
      DropRulesDecide(cell, fs[..n], c, p, sets);
      FirstMatchStep(DropRulesFor(cell, fs[..n]), DropRule(cell, fs[n]), key, c, p, sets);
      DropRuleDecides(cell, fs[n], c, p, sets);
      assert fs == fs[..n] + [fs[n]];
    }
  }

  predicate DropsAt(r: Round, i: nat, chain: FilterChain, p: Packet)
    requires i < |r.cells|
  {
    r.cells[i].Rule? && r.cells[i].cell.Drop? && r.cells[i].cell.chain == chain && DropApplies(r.cells[i].cell, p)
  }

  /** Counters never decide, so of a forwarding cell's rules none decides in a filter chain. */
  lemma NatRulesSilent(cell: NftCell, ip: Ip, f: Family, id: nat, st: Settings, key: TableKey, c: ChainName,
                       p: Packet, sets: map<SetName, seq<Entry>>)
    requires cell.Single? || cell.Range?
    requires key.table == SelfFilter
    ensures Decide(Added(NatRules(cell, ip, f, id, st), key, c), p, sets).None?
  {
    SilentScript(NatRules(cell, ip, f, id, st), key, c, p, sets);
  }

  lemma {:induction false} SilentScript(s: Script, key: TableKey, c: ChainName, p: Packet,
                                        sets: map<SetName, seq<Entry>>)
    requires forall cmd :: cmd in s ==> cmd.AddRule? && (cmd.key != key || !Terminal(cmd.rule.action))
    ensures Decide(Added(s, key, c), p, sets).None?
  {
    if s != [] {
      SilentScript(s[1..], key, c, p, sets);
      assert s == [s[0]] + s[1..];
      FirstMatchStep([s[0]], s[1..], key, c, p, sets);
      AddedOne(s[0], key, c);
      DecideOne(s[0].rule, p, sets);
    }
  }

  lemma DropFilterDecision(r: Round, i: nat, chain: FilterChain, p: Packet, sets: map<SetName, seq<Entry>>,
                           out: CellOut)
    requires i < |r.cells| && out == OutAt(r.cells, r.answers, r.st, r.cache, i) && out.script.Success?
    requires r.cells[i].Rule? && r.cells[i].cell.Drop?
    ensures var d := PositionDecision(out, FilterTable(FamilyOf(p.src)), DropChain(chain), p, sets);
            && (d.Some? <==> DropsAt(r, i, chain, p))
            && (d.Some? ==> d.value.action == DropPacket)
  {
    var cell := r.cells[i].cell;
    DropRulesDecide(cell, DropFamilies(cell).value, DropChain(chain), p, sets);
    if FamilyOf(p.src) in DropFamilies(cell).value {
      DropMatchesHold(cell, p, sets);
    }
  }

  lemma OtherFilterDecision(r: Round, i: nat, chain: FilterChain, p: Packet, sets: map<SetName, seq<Entry>>,
                            out: CellOut)
    requires i < |r.cells| && out == OutAt(r.cells, r.answers, r.st, r.cache, i) && out.script.Success?
    requires r.cells[i].Rule? && !r.cells[i].cell.Drop?
    ensures PositionDecision(out, FilterTable(FamilyOf(p.src)), DropChain(chain), p, sets).None?
            && !DropsAt(r, i, chain, p)
  {
    var key, c, cell := FilterTable(FamilyOf(p.src)), DropChain(chain), r.cells[i].cell;
    if cell.Redirect? {
      SilentScript(out.script.value, key, c, p, sets);
    } else {
      var t := CellTarget(cell, r.st, r.cache, r.answers(i));
      if t.Some? {
        NatRulesSilent(cell, t.value, FamilyOf(t.value), RuleIndex(r.cells, i), r.st, key, c, p, sets);
      }
    }
  }

  lemma CellFilterDecision(r: Round, i: nat, chain: FilterChain, p: Packet, sets: map<SetName, seq<Entry>>,
                           out: CellOut)
    requires i < |r.cells| && out == OutAt(r.cells, r.answers, r.st, r.cache, i) && out.script.Success?
    ensures var d := PositionDecision(out, FilterTable(FamilyOf(p.src)), DropChain(chain), p, sets);
            && (d.Some? <==> DropsAt(r, i, chain, p))
            && (d.Some? ==> d.value.action == DropPacket)
  {
    if r.cells[i].Rule? {
      if r.cells[i].cell.Drop? {
        DropFilterDecision(r, i, chain, p, sets, out);
      } else {
        OtherFilterDecision(r, i, chain, p, sets, out);
      }
    }
  }

  predicate SomeDrop(r: Round, chain: FilterChain, p: Packet) {
    r.st.globalEnabled && exists i :: 0 <= i < |r.cells| && DropsAt(r, i, chain, p)
  }

  lemma BodyFilterDecision(r: Round, chain: FilterChain, p: Packet, sets: map<SetName, seq<Entry>>, outs: seq<CellOut>)
    requires r.st.globalEnabled && outs == AllOuts(r.cells, r.answers, r.st, r.cache) && AllBuild(outs)
    ensures var d := Decide(Added(Body(outs), FilterTable(FamilyOf(p.src)), DropChain(chain)), p, sets);
            && (d.Some? <==> SomeDrop(r, chain, p))
            && (d.Some? ==> d.value.action == DropPacket)
  {
    var key, c := FilterTable(FamilyOf(p.src)), DropChain(chain);
    BodyFirstDecision(outs, key, c, p, sets);
    FirstDecisionIs(outs, key, c, p, sets);
    forall i | 0 <= i < |outs|
      ensures PositionDecision(outs[i], key, c, p, sets).Some? <==> DropsAt(r, i, chain, p)
      ensures PositionDecision(outs[i], key, c, p, sets).Some?
              ==> PositionDecision(outs[i], key, c, p, sets).value.action == DropPacket
    {
      OutsAt(r.cells, r.answers, r.st, r.cache, |r.cells|, i);
      CellFilterDecision(r, i, chain, p, sets, outs[i]);
    }
    if i :| 0 <= i < |outs| && DropsAt(r, i, chain, p) {
      var m := LeastDecided(outs, key, c, p, sets, i);
    }
  }

  lemma {:induction false} LeastDecided(outs: seq<CellOut>, key: TableKey, c: ChainName, p: Packet,
                                        sets: map<SetName, seq<Entry>>, i: nat)
    returns (m: nat)
    requires i < |outs| && PositionDecision(outs[i], key, c, p, sets).Some?
    ensures m <= i && PositionDecision(outs[m], key, c, p, sets).Some?
    ensures forall j :: 0 <= j < m ==> PositionDecision(outs[j], key, c, p, sets).None?
  {
    if k :| 0 <= k < i && PositionDecision(outs[k], key, c, p, sets).Some? {
      m := LeastDecided(outs, key, c, p, sets, k);
    } else {
      m := i;
    }
  }

  // ---------------------------------------------------------------- the forward chain

  lemma {:induction false} MssSilent(mss: MssConfig, ss: seq<Summary>, key: TableKey, c: ChainName)
    ensures forall cmd :: cmd in MssRules(mss, ss) ==> cmd.AddRule? && !Terminal(cmd.rule.action)
  {
    if ss != [] {
      MssSilent(mss, ss[..|ss| - 1], key, c);
    }
  }

  lemma TailSilentInForward(st: Settings, ss: seq<Summary>, key: TableKey, p: Packet, sets: map<SetName, seq<Entry>>)
    ensures Decide(Added(Tail(st, ss), key, ForwardHook), p, sets).None?
  {
    var geo: Script := if CnSet(st).Some? && st.geo.forwardEnabled && ss != [] then GeoForwardRules(st.geo, ss) else [];
    var mss: Script := if st.mss.enabled && ss != [] then MssRules(st.mss, ss) else [];
    GeoForwardInChain(st.geo, ss);
    AddedElsewhere(geo, key, ForwardHook);
    MssSilent(st.mss, ss, key, ForwardHook);
    SilentScript(mss, key, ForwardHook, p, sets);
    FirstMatchStep(geo, mss, key, ForwardHook, p, sets);
  }

  lemma TailAbsentFromInput(st: Settings, ss: seq<Summary>, key: TableKey)
    ensures Added(Tail(st, ss), key, InputHook) == []
  {
    var geo: Script := if CnSet(st).Some? && st.geo.forwardEnabled && ss != [] then GeoForwardRules(st.geo, ss) else [];
    var mss: Script := if st.mss.enabled && ss != [] then MssRules(st.mss, ss) else [];
    GeoForwardInChain(st.geo, ss);
    MssRulesInForward(st.mss, ss);
    AddedConcat(geo, mss, key, InputHook);
    AddedElsewhere(geo, key, InputHook);
    AddedElsewhere(mss, key, InputHook);
  }

  lemma HeadAbsentFromForward(st: Settings, key: TableKey)
    ensures Added(GeoHead(st), key, ForwardHook) == []
  {
    SshRulesInInput(st.geo);
    AddedElsewhere(GeoHead(st), key, ForwardHook);
  }

  lemma DecideByPart(st: Settings, outs: seq<CellOut>, key: TableKey, c: ChainName, p: Packet,
                     sets: map<SetName, seq<Entry>>)
    ensures Decide(Added(RulesPart(st, outs), key, c), p, sets)
            == var head := Decide(Added(GeoHead(st), key, c), p, sets);
               if head.Some? || !st.globalEnabled then head
               else
                 var body := Decide(Added(Body(outs), key, c), p, sets);
                 if body.Some? then body else Decide(Added(Tail(st, Summaries(outs)), key, c), p, sets)
  {
    PartsAdded(st, outs, key, c);
    if st.globalEnabled {
      var body, tail := Added(Body(outs), key, c), Added(Tail(st, Summaries(outs)), key, c);
      DecideConcat(Added(GeoHead(st), key, c), body + tail, p, sets);
      DecideConcat(body, tail, p, sets);
    }
  }

  /** In the forward chain only the configured drop cells decide: counters and MSS rules let every packet
      through, and the project never accepts on its own. */
  lemma ForwardChainMeaning(r: Round, rs: Ruleset, p: Packet)
    requires Builds(r.cells, r.answers, r.st, r.cache)
    ensures var d := HookDecision(r, rs, ForwardHook, p);
            (d.Some? <==> SomeDrop(r, ForwardFilter, p)) && (d.Some? ==> d.value.action == DropPacket)
  {
    var outs := AllOuts(r.cells, r.answers, r.st, r.cache);
    var key := FilterTable(FamilyOf(p.src));
    var sets := Declarations(r.st)[key].sets;
    InstalledRules(r.st, outs, key, ForwardHook);
    DecideByPart(r.st, outs, key, ForwardHook, p, sets);
    HeadAbsentFromForward(r.st, key);
    if r.st.globalEnabled {
      BodyFilterDecision(r, ForwardFilter, p, sets, outs);
      TailSilentInForward(r.st, Summaries(outs), key, p, sets);
    }
  }

  // ---------------------------------------------------------------- the input chain

  predicate SshGuarded(st: Settings, p: Packet) {
    p.src.Ip4? && CnSet(st).Some? && st.geo.sshEnabled
  }

  predicate SshSourceAllowed(st: Settings, src: Ip) {
    CoversAny(st.cn4File, src) || (st.geo.sshAllowsLan && st.geo.allowLan && CoversAny(st.geo.LanIpv4(), src))
  }

  datatype FilterOutcome = NoDecision | AcceptedHere | DroppedHere

  /** The SSH guard comes before the configured drop cells: what it accepts, they never see. */
  function InputPolicy(r: Round, p: Packet): FilterOutcome {
    if SshGuarded(r.st, p) && (p.ct == Established || p.ct == Related) then AcceptedHere
    else if SshGuarded(r.st, p) && p.transport == TcpTransport && p.dport == r.st.geo.sshPort then
      if SshSourceAllowed(r.st, p.src) then AcceptedHere else DroppedHere
    else if SomeDrop(r, InputFilter, p) then DroppedHere
    else NoDecision
  }

  function FilterResult(d: Option<NftRule>): FilterOutcome {
    if d.None? then NoDecision else if d.value.action == DropPacket then DroppedHere else AcceptedHere
  }

  lemma SshRulesDecide(st: Settings, p: Packet, sets: map<SetName, seq<Entry>>)
    requires Cn4 in sets && sets[Cn4] == st.cn4File
    ensures FilterResult(Decide(Added(SshRules(st.geo), FilterTable(Inet4), InputHook), p, sets))
            == if p.ct == Established || p.ct == Related then AcceptedHere
               else if p.transport == TcpTransport && p.dport == st.geo.sshPort then
                 if SshSourceAllowed(st, p.src) then AcceptedHere else DroppedHere
               else NoDecision
  {
    var geo, key, port := st.geo, FilterTable(Inet4), st.geo.sshPort;
    var lan := geo.sshAllowsLan && geo.allowLan && geo.LanIpv4() != [];
    var reply := GeoRule(InputHook, [CtReply], Accept, None);
    var ms := [L4(Tcp), DportIn(port, port)];
    var guard := [GeoRule(InputHook, [SaddrInSet(Cn4)] + ms, Accept, None)]
                 + (if lan then [GeoRule(InputHook, [SaddrIn(geo.LanIpv4())] + ms, Accept, None)] else [])
                 + [GeoRule(InputHook, ms, DropPacket, None)];
    assert SshRules(geo) == [reply] + guard;
    GuardAdded(InputHook, Tcp, port, port, geo, lan, None);
    GuardDecides(geo, Tcp, port, port, lan, None, p, sets);
    FirstMatchStep([reply], guard, key, InputHook, p, sets);
    AddedOne(reply, key, InputHook);
    DecideOne(reply.rule, p, sets);
    AllHoldOne(CtReply, p, sets);
    assert geo.LanIpv4() == [] ==> !CoversAny(geo.LanIpv4(), p.src);
  }

  lemma InputHeadDecides(st: Settings, p: Packet)
    ensures var key := FilterTable(FamilyOf(p.src));
            FilterResult(Decide(Added(GeoHead(st), key, InputHook), p, Declarations(st)[key].sets))
            == if SshGuarded(st, p) && (p.ct == Established || p.ct == Related) then AcceptedHere
               else if SshGuarded(st, p) && p.transport == TcpTransport && p.dport == st.geo.sshPort then
                 if SshSourceAllowed(st, p.src) then AcceptedHere else DroppedHere
               else NoDecision
  {
    var key := FilterTable(FamilyOf(p.src));
    var sets := Declarations(st)[key].sets;
    if p.src.Ip6? {
      GeoHeadPlaced(st);
      AddedElsewhere(GeoHead(st), key, InputHook);
    } else if CnSet(st).Some? {
      var chain: Script := if GeoForwardActive(st) then GeoIpChainRules() else [];
      var ssh: Script := if st.geo.sshEnabled then SshRules(st.geo) else [];
      AddedElsewhere(chain, key, InputHook);
      FirstMatchStep(chain, ssh, key, InputHook, p, sets);
      SshRulesDecide(st, p, sets);
    }
  }

  /** The input chain does exactly what the policy says, with the SSH guard first. */
  lemma InputChainMeaning(r: Round, rs: Ruleset, p: Packet)
    requires Builds(r.cells, r.answers, r.st, r.cache)
    ensures FilterResult(HookDecision(r, rs, InputHook, p)) == InputPolicy(r, p)
  {
    var outs := AllOuts(r.cells, r.answers, r.st, r.cache);
    var key := FilterTable(FamilyOf(p.src));
    var sets := Declarations(r.st)[key].sets;
    InstalledRules(r.st, outs, key, InputHook);
    DecideByPart(r.st, outs, key, InputHook, p, sets);
    InputHeadDecides(r.st, p);
    if r.st.globalEnabled {
      BodyFilterDecision(r, InputFilter, p, sets, outs);
      TailAbsentFromInput(r.st, Summaries(outs), key);
    }
  }
}
