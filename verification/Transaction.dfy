/** Every generated script, run as one transaction from any starting ruleset. */
module Transaction {
  import opened Wrappers
  import opened Net
  import opened Cells
  import opened LastGood
  import opened Nft
  import opened ElementBatches
  import opened Compiler
  import opened Refusal

  /** The tables this program manages; it must leave every other table alone. */
  predicate Managed(key: TableKey) {
    key.table == SelfNat || key.table == SelfFilter
  }

  // ---------------------------------------------------------------- declarations

  function FreshNat(): Table {
    Table(map[Prerouting := Chain(ChainSpec(NatKind, HookPrerouting, -110), []),
              Postrouting := Chain(ChainSpec(NatKind, HookPostrouting, 110), [])], map[])
  }

  function FreshFilter(): Table {
    Table(map[InputHook := Chain(ChainSpec(FilterKind, HookInput, FILTER_BEFORE), []),
              ForwardHook := Chain(ChainSpec(FilterKind, HookForward, FILTER_BEFORE), [])], map[])
  }

  function GeoFilter(st: Settings): Table {
    match CnSet(st)
    case None => FreshFilter()
    case Some(entries) =>
      var t := FreshFilter().(sets := map[Cn4 := entries]);
      if GeoForwardActive(st) then t.(chains := t.chains[GeoIpPrerouting := Chain(GEOIP_CHAIN, [])]) else t
  }

  /** The managed tables as a script declares them, before any rule is added. */
  function Declarations(st: Settings): Ruleset {
    map[NatTable(Inet4) := FreshNat(), NatTable(Inet6) := FreshNat(),
        FilterTable(Inet4) := GeoFilter(st), FilterTable(Inet6) := FreshFilter()]
  }

  lemma RebuildRuns(key: TableKey, c1: ChainName, s1: ChainSpec, c2: ChainName, s2: ChainSpec, rs: Ruleset)
    requires c1 != c2
    ensures Run(RebuildTable(key, c1, s1, c2, s2), rs)
            == Some(rs[key := Table(map[c1 := Chain(s1, []), c2 := Chain(s2, [])], map[])])
  {
    var s := RebuildTable(key, c1, s1, c2, s2);
    var r1 := Exec(s[0], rs).value;
    var r2 := r1 - {key};
    assert Exec(s[1], r1) == Some(r2);
    var r3 := r2[key := Table(map[], map[])];
    var r4 := r3[key := Table(map[c1 := Chain(s1, [])], map[])];
    var r5 := r4[key := Table(map[c1 := Chain(s1, []), c2 := Chain(s2, [])], map[])];
    assert Exec(s[2], r2) == Some(r3);
    assert Exec(s[3], r3) == Some(r4);
    assert Exec(s[4], r4) == Some(r5);
    assert s[1..] == [s[1], s[2], s[3], s[4]] && s[2..] == [s[2], s[3], s[4]];
    assert s[3..] == [s[3], s[4]] && s[4..] == [s[4]];
    assert Run(s[4..], r4) == Some(r5);
    assert s[3..][1..] == s[4..];
    assert Run(s[3..], r3) == Some(r5);
    assert s[2..][1..] == s[3..];
    assert Run(s[2..], r2) == Some(r5);
    assert s[1..][1..] == s[2..];
    assert Run(s[1..], r1) == Some(r5);
    assert r5 == rs[key := Table(map[c1 := Chain(s1, []), c2 := Chain(s2, [])], map[])];
  }

  lemma NatSkeletonRuns(f: Family, rs: Ruleset)
    ensures Run(NatSkeleton(f), rs) == Some(rs[NatTable(f) := FreshNat()])
  {
    RebuildRuns(NatTable(f), Prerouting, ChainSpec(NatKind, HookPrerouting, -110),
                Postrouting, ChainSpec(NatKind, HookPostrouting, 110), rs);
  }

  lemma FilterSkeletonRuns(f: Family, rs: Ruleset)
    ensures Run(FilterSkeleton(f), rs) == Some(rs[FilterTable(f) := FreshFilter()])
  {
    RebuildRuns(FilterTable(f), InputHook, ChainSpec(FilterKind, HookInput, FILTER_BEFORE),
                ForwardHook, ChainSpec(FilterKind, HookForward, FILTER_BEFORE), rs);
  }

  function Rebuilt(rs: Ruleset): Ruleset {
    rs[NatTable(Inet4) := FreshNat()][NatTable(Inet6) := FreshNat()]
      [FilterTable(Inet4) := FreshFilter()][FilterTable(Inet6) := FreshFilter()]
  }

  lemma PrologueRuns(rs: Ruleset)
    ensures Run(Prologue(), rs) == Some(Rebuilt(rs))
  {
    var a, b, c, d := NatSkeleton(Inet4), NatSkeleton(Inet6), FilterSkeleton(Inet4), FilterSkeleton(Inet6);
    var r1 := rs[NatTable(Inet4) := FreshNat()];
    var r2 := r1[NatTable(Inet6) := FreshNat()];
    var r3 := r2[FilterTable(Inet4) := FreshFilter()];
    NatSkeletonRuns(Inet4, rs);
    NatSkeletonRuns(Inet6, r1);
    FilterSkeletonRuns(Inet4, r2);
    FilterSkeletonRuns(Inet6, r3);
    RunConcat(a, b, rs);
    RunConcat(a + b, c, rs);
    RunConcat(a + b + c, d, rs);
  }

  function WithCn4(rs: Ruleset, entries: seq<Entry>): Ruleset
    requires FilterTable(Inet4) in rs
  {
    var key := FilterTable(Inet4);
    rs[key := rs[key].(sets := rs[key].sets[Cn4 := entries])]
  }

  lemma {:induction false} ElementsRun(bs: seq<seq<Entry>>, rs: Ruleset, have: seq<Entry>)
    requires FilterTable(Inet4) in rs && Cn4 in rs[FilterTable(Inet4)].sets && rs[FilterTable(Inet4)].sets[Cn4] == have
    ensures Run(ElementCommands(bs), rs) == Some(WithCn4(rs, have + Flatten(bs)))
  {
    var key := FilterTable(Inet4);
    if bs == [] {
      assert have + Flatten(bs) == have;
      assert rs[key].sets[Cn4 := have] == rs[key].sets;
      assert rs[key := rs[key]] == rs;
    } else {
      var s := ElementCommands(bs);
      var rs' := WithCn4(rs, have + bs[0]);
      assert Exec(s[0], rs) == Some(rs');
      assert s[1..] == ElementCommands(bs[1..]);
      ElementsRun(bs[1..], rs', have + bs[0]);
      assert have + bs[0] + Flatten(bs[1..]) == have + Flatten(bs);
      assert rs'[key].sets[Cn4 := have + Flatten(bs)] == rs[key].sets[Cn4 := have + Flatten(bs)];
      assert WithCn4(rs', have + Flatten(bs)) == WithCn4(rs, have + Flatten(bs));
    }
  }

  /** The whole CN list ends up in the set, whatever the batching. */
  lemma CnSetRuns(entries: seq<Entry>, rs: Ruleset)
    requires FilterTable(Inet4) in rs && rs[FilterTable(Inet4)] == FreshFilter()
    ensures Run(CnSetDefinition(entries), rs)
            == Some(rs[FilterTable(Inet4) := FreshFilter().(sets := map[Cn4 := entries])])
  {
    var key := FilterTable(Inet4);
    var rs' := rs[key := FreshFilter().(sets := map[Cn4 := []])];
    var s := CnSetDefinition(entries);
    assert FreshFilter().sets[Cn4 := []] == map[Cn4 := []];
    assert Exec(s[0], rs) == Some(rs');
    assert s[1..] == ElementCommands(Batches(entries));
    ElementsRun(Batches(entries), rs', []);
    BatchesPartition(entries);
    assert [] + entries == entries;
    assert map[Cn4 := []][Cn4 := entries] == map[Cn4 := entries];
    assert WithCn4(rs', entries) == rs[key := FreshFilter().(sets := map[Cn4 := entries])];
  }

  lemma DeclaredBeside(st: Settings, rs: Ruleset)
    ensures Rebuilt(rs)[FilterTable(Inet4) := GeoFilter(st)] == rs + Declarations(st)
  {
  }

  lemma GeoSetupRuns(st: Settings, entries: seq<Entry>, rs: Ruleset)
    requires CnSet(st) == Some(entries)
    requires FilterTable(Inet4) in rs && rs[FilterTable(Inet4)] == FreshFilter()
    ensures Run(CnSetDefinition(entries)
                + (if GeoForwardActive(st) then [AddChain(FilterTable(Inet4), GeoIpPrerouting, GEOIP_CHAIN)] else []),
                rs)
            == Some(rs[FilterTable(Inet4) := GeoFilter(st)])
  {
    var key := FilterTable(Inet4);
    var define := CnSetDefinition(entries);
    CnSetRuns(entries, rs);
    var r2 := rs[key := FreshFilter().(sets := map[Cn4 := entries])];
    if GeoForwardActive(st) {
      var chain := [AddChain(key, GeoIpPrerouting, GEOIP_CHAIN)];
      RunConcat(define, chain, rs);
      assert r2[key := GeoFilter(st)] == rs[key := GeoFilter(st)];
      assert Exec(chain[0], r2) == Some(r2[key := GeoFilter(st)]);
      assert chain[1..] == [];
      assert Run(chain, r2) == Some(rs[key := GeoFilter(st)]);
    } else {
      assert define + [] == define;
    }
  }

  lemma SetupRuns(st: Settings, rs: Ruleset)
    ensures Run(Setup(st), rs) == Some(rs + Declarations(st))
  {
    PrologueRuns(rs);
    DeclaredBeside(st, rs);
    var geo: Script := Setup(st)[|Prologue()|..];
    assert Setup(st) == Prologue() + geo;
    RunConcat(Prologue(), geo, rs);
    match CnSet(st) {
      case None =>
        assert geo == [];
        assert Rebuilt(rs)[FilterTable(Inet4) := FreshFilter()] == Rebuilt(rs);
      case Some(entries) =>
        GeoSetupRuns(st, entries, Rebuilt(rs));
    }
  }

  // ---------------------------------------------------------------- rules

  /** A rule for one of the chains every script declares, naming no set. */
  predicate InBaseChain(c: Command) {
    && c.AddRule?
    && (c.key.table == SelfNat ==> c.chain == Prerouting || c.chain == Postrouting)
    && (c.key.table == SelfFilter ==> c.chain == InputHook || c.chain == ForwardHook)
    && Managed(c.key)
    && forall m :: m in c.rule.matches ==> !m.SaddrInSet?
  }

  lemma DropRulesInBase(cell: NftCell, fs: seq<Family>)
    requires cell.Drop?
    ensures forall c :: c in DropRulesFor(cell, fs) ==> InBaseChain(c)
  {
  }

  lemma AccessConditionNamesNoSet(f: Family, access: AccessConfig)
    ensures AccessCondition(f, access).Some? ==> forall m :: m in AccessCondition(f, access).value ==> !m.SaddrInSet?
  {
  }

  lemma NatRulesInBase(cell: NftCell, ip: Ip, f: Family, id: nat, st: Settings)
    requires cell.Single? || cell.Range?
    ensures forall c :: c in NatRules(cell, ip, f, id, st) ==> InBaseChain(c)
  {
    AccessConditionNamesNoSet(f, st.access);
    AccessDropsInBase(f, st.access, cell.protocol, ListenLo(cell), ListenHi(cell), id);
    OutboundInBase(cell, ip, f, id, st.snat);
    forall c | c in NatRules(cell, ip, f, id, st) ensures InBaseChain(c) {}
  }

  lemma AccessDropsInBase(f: Family, access: AccessConfig, p: Protocol, lo: Port, hi: Port, id: nat)
    ensures forall c :: c in AccessDrops(f, access, p, lo, hi, id) ==> InBaseChain(c)
  {
  }

  lemma OutboundInBase(cell: NftCell, ip: Ip, f: Family, id: nat, snat: SnatConfig)
    requires cell.Single? || cell.Range?
    ensures forall c :: c in SourceNat(cell, ip, f, id, snat) ==> InBaseChain(c)
    ensures forall c :: c in TrafficCounters(f, ip, cell.protocol, TargetLo(cell), TargetHi(cell), id) ==>
              InBaseChain(c)
  {
  }

  lemma RedirectRuleInBase(cell: NftCell, f: Family, id: nat, access: AccessConfig)
    requires cell.Redirect?
    ensures forall c :: c in RedirectRule(cell, f, id, access) ==> InBaseChain(c)
  {
    AccessConditionNamesNoSet(f, access);
  }

  lemma CellScriptInBase(cell: NftCell, id: nat, st: Settings, cache: seq<LastGoodRule>, answer: Resolver.Answer)
    requires CellScript(cell, id, st, cache, answer).Success?
    ensures forall c :: c in CellScript(cell, id, st, cache, answer).value ==> InBaseChain(c)
  {
    match cell
    case Drop(_, _, _, _, _, _, _, _, _) => DropRulesInBase(cell, DropFamilies(cell).value);
    case Redirect(_, _, _, _, _, _, _) =>
      RedirectRuleInBase(cell, Inet4, id, st.access);
      RedirectRuleInBase(cell, Inet6, id, st.access);
    case _ =>
      var t := CellTarget(cell, st, cache, answer);
      if t.Some? {
        NatRulesInBase(cell, t.value, FamilyOf(t.value), id, st);
      }
  }

  lemma {:induction false} BodyInBase(cells: seq<RuntimeCell>, answers: Answers, st: Settings,
                                      cache: seq<LastGoodRule>, n: nat)
    requires n <= |cells|
    ensures forall c :: c in Body(Outs(cells, answers, st, cache, n)) ==> InBaseChain(c)
  {
    if n > 0 {
      BodyInBase(cells, answers, st, cache, n - 1);
      var outs := Outs(cells, answers, st, cache, n);
      assert outs[..n - 1] == Outs(cells, answers, st, cache, n - 1);
      var out := OutAt(cells, answers, st, cache, n - 1);
      if cells[n - 1].Rule? && out.script.Success? {
        CellScriptInBase(cells[n - 1].cell, RuleIndex(cells, n - 1), st, cache, answers(n - 1));
      }
    }
  }

  /** A GeoIP rule: an ip filter chain, naming at most the CN set. */
  predicate GeoPlaced(c: Command, st: Settings) {
    && c.AddRule? && c.key == FilterTable(Inet4)
    && (c.chain == InputHook || c.chain == ForwardHook
        || (c.chain == GeoIpPrerouting && CnSet(st).Some? && GeoForwardActive(st)))
    && forall m :: m in c.rule.matches && m.SaddrInSet? ==> m.name == Cn4 && CnSet(st).Some?
  }

  lemma {:induction false} GeoForwardPlaced(st: Settings, ss: seq<Summary>)
    requires CnSet(st).Some? && GeoForwardActive(st)
    ensures forall c :: c in GeoForwardRules(st.geo, ss) ==> GeoPlaced(c, st)
  {
    if ss != [] {
      GeoForwardPlaced(st, ss[..|ss| - 1]);
    }
  }

  lemma {:induction false} MssPlaced(st: Settings, ss: seq<Summary>)
    ensures forall c :: c in MssRules(st.mss, ss) ==> GeoPlaced(c, st)
  {
    if ss != [] {
      MssPlaced(st, ss[..|ss| - 1]);
    }
  }

  lemma TailPlaced(st: Settings, ss: seq<Summary>)
    requires st.globalEnabled
    ensures forall c :: c in Tail(st, ss) ==> GeoPlaced(c, st)
  {
    if CnSet(st).Some? && st.geo.forwardEnabled {
      GeoForwardPlaced(st, ss);
    }
    MssPlaced(st, ss);
  }

  lemma GeoHeadPlaced(st: Settings)
    ensures forall c :: c in GeoHead(st) ==> GeoPlaced(c, st)
  {
  }

  lemma PlacedIsDeclared(c: Command, st: Settings, rs: Ruleset)
    requires (InBaseChain(c) || GeoPlaced(c, st)) && !Misfit(c)
    ensures Declared(c, rs + Declarations(st)) && Declared(c, Declarations(st))
  {
    assert c.key == NatTable(c.key.family) || c.key == FilterTable(c.key.family);
    if c.key.family == Inet4 {
      assert c.key in Declarations(st);
    } else {
      assert c.key in Declarations(st);
    }
  }

  lemma RulesPlaced(cells: seq<RuntimeCell>, answers: Answers, st: Settings, cache: seq<LastGoodRule>)
    ensures forall c :: c in RulesPart(st, AllOuts(cells, answers, st, cache)) ==> InBaseChain(c) || GeoPlaced(c, st)
  {
    GeoHeadPlaced(st);
    var outs := AllOuts(cells, answers, st, cache);
    if st.globalEnabled {
      BodyInBase(cells, answers, st, cache, |cells|);
      TailPlaced(st, Summaries(outs));
    }
  }

  // ---------------------------------------------------------------- the effect of a script

  lemma {:induction false} AddedNowhereElse(s: Script, key: TableKey, c: ChainName)
    requires forall cmd :: cmd in s ==> cmd.AddRule? && cmd.key != key
    ensures Added(s, key, c) == []
  {
    if s != [] {
      AddedNowhereElse(s[1..], key, c);
    }
  }

  /** The managed tables a script installs; they depend on its inputs alone. */
  function Installed(st: Settings, outs: seq<CellOut>): Ruleset {
    Appended(Declarations(st), RulesPart(st, outs))
  }

  lemma AppendedBeside(rs: Ruleset, decls: Ruleset, s: Script)
    requires forall c :: c in s ==> Declared(c, decls)
    ensures Appended(rs + decls, s) == rs + Appended(decls, s)
  {
    var a, b := Appended(rs + decls, s), rs + Appended(decls, s);
    forall key | key in a ensures a[key] == b[key] {
      if key !in decls {
        forall c | c in rs[key].chains ensures AppendedTable(rs[key], s, key).chains[c] == rs[key].chains[c] {
          AddedNowhereElse(s, key, c);
          assert rs[key].chains[c].rules + [] == rs[key].chains[c].rules;
        }
        assert AppendedTable(rs[key], s, key).chains == rs[key].chains;
      }
    }
    assert a.Keys == b.Keys;
  }

  /** A generated script loads from every ruleset or from none, exactly unless a written cell is refused: no command
      names a table, chain or set that is not there. Its effect is to replace the managed tables by
      tables that do not depend on what was there before, and to leave all other tables as they were. */
  lemma ScriptEffect(cells: seq<RuntimeCell>, answers: Answers, st: Settings, cache: seq<LastGoodRule>, rs: Ruleset)
    ensures Run(ScriptOf(cells, answers, st, cache), rs)
            == if Loads(cells, answers, st, cache) then Some(rs + Installed(st, AllOuts(cells, answers, st, cache)))
               else None
  {
    var outs := AllOuts(cells, answers, st, cache);
    var rules := RulesPart(st, outs);
    SetupRuns(st, rs);
    RunConcat(Setup(st), rules, rs);
    RulesFitIff(cells, answers, st, cache);
    if NoMisfit(rules) {
      PlacedRulesRun(cells, answers, st, cache, rules, rs);
    } else {
      var c :| c in rules && Misfit(c);
      MisfitRefused(rules, c, rs + Declarations(st));
    }
  }

  lemma PlacedRulesRun(cells: seq<RuntimeCell>, answers: Answers, st: Settings, cache: seq<LastGoodRule>,
                       rules: Script, rs: Ruleset)
    requires rules == RulesPart(st, AllOuts(cells, answers, st, cache)) && NoMisfit(rules)
    ensures Run(rules, rs + Declarations(st)) == Some(rs + Appended(Declarations(st), rules))
  {
    RulesPlaced(cells, answers, st, cache);
    forall c | c in rules ensures Declared(c, rs + Declarations(st)) && Declared(c, Declarations(st)) {
      PlacedIsDeclared(c, st, rs);
    }
    RunDeclared(rules, rs + Declarations(st));
    AppendedBeside(rs, Declarations(st), rules);
  }

  lemma InstalledKeys(st: Settings, outs: seq<CellOut>)
    ensures forall key :: key in Installed(st, outs) <==> Managed(key)
  {
    forall key ensures key in Declarations(st) <==> Managed(key) {
      if Managed(key) {
        assert key == NatTable(key.family) || key == FilterTable(key.family);
        assert key.family == Inet4 || key.family == Inet6;
      }
    }
  }

  /** Whether a script loads does not depend on the ruleset. If it does, unmanaged tables survive, managed ones are the
      same from any two starting points, and applying the script twice is applying it once. */
  lemma ScriptIsSelfContained(cells: seq<RuntimeCell>, answers: Answers, st: Settings, cache: seq<LastGoodRule>,
                              rs: Ruleset, rs': Ruleset)
    ensures var s := ScriptOf(cells, answers, st, cache);
            && (Run(s, rs).Some? <==> Loads(cells, answers, st, cache))
            && (Run(s, rs').Some? <==> Loads(cells, answers, st, cache))
            && (Loads(cells, answers, st, cache) ==>
                  && (forall key :: !Managed(key) ==>
                        (key in Run(s, rs).value <==> key in rs) && (key in rs ==> Run(s, rs).value[key] == rs[key]))
                  && (forall key :: Managed(key) ==>
                        key in Run(s, rs).value && key in Run(s, rs').value
                        && Run(s, rs).value[key] == Run(s, rs').value[key])
                  && Run(s, Run(s, rs).value) == Run(s, rs))
  {
    var outs := AllOuts(cells, answers, st, cache);
    ScriptEffect(cells, answers, st, cache, rs);
    ScriptEffect(cells, answers, st, cache, rs');
    InstalledKeys(st, outs);
    var r := rs + Installed(st, outs);
    ScriptEffect(cells, answers, st, cache, r);
    assert r + Installed(st, outs) == r;
  }
}
