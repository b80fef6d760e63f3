/** Why disjoint rules matter: when no connection is claimed twice, the order of the rules has no influence on
    what the kernel does. */
module RuleOrder {
  import opened Wrappers
  import opened Net
  import opened Cells
  import opened Resolver
  import opened LastGood
  import opened Nft
  import opened Compiler
  import opened Refusal
  import opened Transaction
  import opened Policy
  import opened PreroutingMeaning
  import opened CacheRuns
  import opened CacheProvenance
  import opened RuleEdit

  // ---------------------------------------------------------------- from the configuration to runtime cells

  function CommentOf(rule: NftCell): seq<RuntimeCell> {
    if rule.comment.Some? then [Comment("# " + rule.comment.value)] else []
  }

  /** The first n rules as they reach the compiler: enabled rules only, each behind its comment. */
  function CellsOf(rules: seq<NftCell>, n: nat): seq<RuntimeCell>
    requires n <= |rules|
  {
    if n == 0 then []
    else CellsOf(rules, n - 1) + if rules[n - 1].IsEnabled() then CommentOf(rules[n - 1]) + [Rule(rules[n - 1])] else []
  }

  method ReadTomlConfig(rules: seq<NftCell>) returns (cells: seq<RuntimeCell>)
    ensures cells == CellsOf(rules, |rules|)
  {
    cells := [];
    for n := 0 to |rules|
      invariant cells == CellsOf(rules, n)
    {
      if rules[n].IsEnabled() {
        ghost var before := cells;
        if rules[n].comment.Some? {
          cells := cells + [Comment("# " + rules[n].comment.value)];
        }
        cells := cells + [Rule(rules[n])];
        assert cells == before + (CommentOf(rules[n]) + [Rule(rules[n])]);
      }
    }
  }

  lemma {:induction false} CellsOfIff(rules: seq<NftCell>, n: nat, x: NftCell)
    requires n <= |rules|
    ensures Rule(x) in CellsOf(rules, n) <==> x in rules[..n] && x.IsEnabled()
  {
    if n > 0 {
      CellsOfIff(rules, n - 1, x);
      assert rules[..n] == rules[..n - 1] + [rules[n - 1]];
      assert Rule(x) !in CommentOf(rules[n - 1]);
    }
  }

  /** No two positions claim the same connection. */
  ghost predicate DisjointCells(cells: seq<RuntimeCell>) {
    forall i, j :: 0 <= i < j < |cells| && cells[i].Rule? && cells[j].Rule? ==> !Compete(cells[i].cell, cells[j].cell)
  }

  lemma {:induction false} CellsAreDisjoint(rules: seq<NftCell>, n: nat)
    requires n <= |rules| && Disjoint(rules)
    ensures DisjointCells(CellsOf(rules, n))
  {
    if n > 0 {
      CellsAreDisjoint(rules, n - 1);
      var before, cells := CellsOf(rules, n - 1), CellsOf(rules, n);
      forall i, j | 0 <= i < j < |cells| && cells[i].Rule? && cells[j].Rule?
        ensures !Compete(cells[i].cell, cells[j].cell)
      {
        if j >= |before| {
          assert i < |before| && cells[j].cell == rules[n - 1];
          assert Rule(cells[i].cell) in before;
          CellsOfIff(rules, n - 1, cells[i].cell);
        }
      }
    }
  }

  // ---------------------------------------------------------------- at most one rule takes a packet

  lemma ServingClaims(r: Round, p: Packet, i: nat)
    requires i < |r.cells| && r.Serves(i, p) && r.cells[i].cell.IsEnabled()
    ensures Claims(r.cells[i].cell, FamilyOf(p.src), p.transport, p.dport)
  {
    var cell := r.cells[i].cell;
    if cell.Single? || cell.Range? {
      TargetFits(cell, r.st, r.cache, r.answers(i));
    }
  }

  /** The configuration of a round, with what the resolver answers for each rule. */
  function RoundOf(rules: seq<NftCell>, resolve: NftCell -> Answer, st: Settings, cache: seq<LastGoodRule>): Round {
    var cells := CellsOf(rules, |rules|);
    Round(cells, (i: nat) => if i < |cells| && cells[i].Rule? then resolve(cells[i].cell) else None, st, cache)
  }

  /** Two rounds of the same rules, in any order. */
  ghost predicate SameRules(r: Round, q: Round) {
    && r.st == q.st && r.cache == q.cache
    && (forall i :: 0 <= i < |r.cells| && r.cells[i].Rule? ==>
          r.cells[i].cell.IsEnabled() && HasRule(q, r.cells[i], r.answers(i)))
  }

  predicate HasRule(q: Round, c: RuntimeCell, answer: Answer) {
    exists j :: 0 <= j < |q.cells| && q.cells[j] == c && q.answers(j) == answer
  }

  lemma SameRuleSameService(r: Round, q: Round, i: nat, j: nat, p: Packet)
    requires i < |r.cells| && j < |q.cells| && r.cells[i] == q.cells[j] && r.answers(i) == q.answers(j)
    requires r.st == q.st && r.cache == q.cache
    ensures forall f :: r.Service(i, f) == q.Service(j, f)
    ensures r.Listens(i, p) == q.Listens(j, p) && r.Guarded(i) == q.Guarded(j)
  {
  }

  lemma GeoIpDropsInBoth(r: Round, q: Round, p: Packet)
    requires SameRules(r, q) && r.GeoIpDrops(p)
    ensures q.GeoIpDrops(p)
  {
    var i :| 0 <= i < |r.cells| && r.Guarded(i) && r.Listens(i, p);
    var j :| 0 <= j < |q.cells| && q.cells[j] == r.cells[i] && q.answers(j) == r.answers(i);
    SameRuleSameService(r, q, i, j, p);
  }

  /** The same fate, whatever number the rule has. */
  predicate SameOutcome(v: Verdict, w: Verdict) {
    match v
    case Untouched => w.Untouched?
    case Dropped => w.Dropped?
    case Translated(_, action) => w.Translated? && w.action == action
  }

  lemma ServedInBoth(r: Round, q: Round, p: Packet, i: nat) returns (j: nat)
    requires SameRules(r, q) && DisjointCells(q.cells) && i < |r.cells| && r.Serves(i, p)
    requires forall j :: 0 <= j < |q.cells| && q.cells[j].Rule? ==> q.cells[j].cell.IsEnabled()
    ensures FirstServing(q, p, j) && q.Service(j, FamilyOf(p.src)) == r.Service(i, FamilyOf(p.src))
  {
    var k :| 0 <= k < |q.cells| && q.cells[k] == r.cells[i] && q.answers(k) == r.answers(i);
    SameRuleSameService(r, q, i, k, p);
    j := FirstServingExists(q, p, k);
    ServingClaims(q, p, j);
    ServingClaims(q, p, k);
    if j < k {
      assert Compete(q.cells[j].cell, q.cells[k].cell);
    }
  }

  lemma PolicyOfSameRules(r: Round, q: Round, p: Packet)
    requires SameRules(r, q) && SameRules(q, r) && DisjointCells(r.cells) && DisjointCells(q.cells)
    ensures SameOutcome(PreroutingPolicy(r, p), PreroutingPolicy(q, p))
  {
    if r.GeoIpDrops(p) {
      GeoIpDropsInBoth(r, q, p);
    } else if q.GeoIpDrops(p) {
      GeoIpDropsInBoth(q, r, p);
    } else if i :| 0 <= i < |r.cells| && r.Serves(i, p) {
      var m := FirstServingExists(r, p, i);
      var n := ServedInBoth(r, q, p, m);
      PolicyOfFirst(r, p, m);
      PolicyOfFirst(q, p, n);
    } else {
      forall j | 0 <= j < |q.cells| ensures !q.Serves(j, p) {
        if q.Serves(j, p) {
          var k := ServedInBoth(q, r, p, j);
        }
      }
      PolicyWithoutService(r, p);
      PolicyWithoutService(q, p);
    }
  }

  // ---------------------------------------------------------------- any order of the rules

  lemma {:induction false} CountTwoRules(rules: seq<NftCell>, x: NftCell) returns (i: nat, j: nat)
    requires multiset(rules)[x] >= 2
    ensures i < j < |rules| && rules[i] == x && rules[j] == x
  {
    var last, rest := rules[|rules| - 1], rules[..|rules| - 1];
    assert rules == rest + [last];
    if last == x {
      assert x in rest;
      j := |rest|;
      i :| 0 <= i < |rest| && rest[i] == x;
    } else {
      i, j := CountTwoRules(rest, x);
    }
  }

  lemma TwoPositionsCount(rules: seq<NftCell>, i: nat, j: nat)
    requires i < j < |rules| && rules[i] == rules[j]
    ensures multiset(rules)[rules[i]] >= 2
  {
    assert rules == rules[..j] + ([rules[j]] + rules[j + 1..]);
    assert rules[..j][i] == rules[i];
  }

  lemma PermutationKeepsDisjoint(rules: seq<NftCell>, permuted: seq<NftCell>)
    requires multiset(rules) == multiset(permuted) && Disjoint(rules)
    ensures Disjoint(permuted)
  {
    forall i, j | 0 <= i < j < |permuted| ensures !Compete(permuted[i], permuted[j]) {
      var a, b := permuted[i], permuted[j];
      assert a in multiset(permuted) && b in multiset(permuted);
      if a == b {
        TwoPositionsCount(permuted, i, j);
        var m, n := CountTwoRules(rules, a);
        assert !Compete(rules[m], rules[n]);
      } else {
        assert a in rules && b in rules;
        var m :| 0 <= m < |rules| && rules[m] == a;
        var n :| 0 <= n < |rules| && rules[n] == b;
        CompeteIsSymmetric(a, b);
      }
    }
  }

  lemma PermutedRoundHasSameRules(rules: seq<NftCell>, permuted: seq<NftCell>, resolve: NftCell -> Answer, st: Settings,
                                  cache: seq<LastGoodRule>)
    requires multiset(rules) == multiset(permuted)
    ensures SameRules(RoundOf(rules, resolve, st, cache), RoundOf(permuted, resolve, st, cache))
  {
    var r, q := RoundOf(rules, resolve, st, cache), RoundOf(permuted, resolve, st, cache);
    forall i | 0 <= i < |r.cells| && r.cells[i].Rule?
      ensures r.cells[i].cell.IsEnabled() && HasRule(q, r.cells[i], r.answers(i))
    {
      var x := r.cells[i].cell;
      assert Rule(x) in r.cells;
      CellsOfIff(rules, |rules|, x);
      assert rules[..|rules|] == rules && permuted[..|permuted|] == permuted;
      assert x in multiset(rules) && x in multiset(permuted);
      CellsOfIff(permuted, |permuted|, x);
      var j :| 0 <= j < |q.cells| && q.cells[j] == Rule(x);
      assert q.answers(j) == resolve(x) == r.answers(i);
    }
  }

  /** A valid configuration always builds. */
  lemma ValidRulesBuild(rules: seq<NftCell>, resolve: NftCell -> Answer, st: Settings, cache: seq<LastGoodRule>)
    requires AllValid(rules)
    ensures var r := RoundOf(rules, resolve, st, cache); Builds(r.cells, r.answers, r.st, r.cache)
  {
    var r := RoundOf(rules, resolve, st, cache);
    forall i | 0 <= i < |r.cells| ensures !BadFilter(r.cells[i]) {
      if r.cells[i].Rule? {
        assert Rule(r.cells[i].cell) in r.cells;
        CellsOfIff(rules, |rules|, r.cells[i].cell);
        assert Valid(r.cells[i].cell);
      }
    }
    BuildsIff(CacheRound(r.cells, r.answers, r.st, true, true, true, true, 0), cache);
  }

  /** Of a valid cell only two faults are left: a filter rule that mixes families, or whose ports nft cannot read. */
  lemma ValidCellRefusedIff(cell: NftCell, st: Settings, cache: seq<LastGoodRule>, answer: Answer)
    requires Valid(cell)
    ensures Refused(cell, st, cache, answer) <==> MixedFilter(cell) || UnreadablePorts(cell)
  {
  }

  /** A valid configuration loads exactly unless forwarding is on and some filter rule mixes families or has ports that
      do not read. */
  lemma ConfigurationLoadsIff(rules: seq<NftCell>, resolve: NftCell -> Answer, st: Settings, cache: seq<LastGoodRule>)
    requires AllValid(rules)
    ensures var r := RoundOf(rules, resolve, st, cache);
            Loads(r.cells, r.answers, st, cache)
            <==> (st.globalEnabled ==> forall x :: x in rules ==> !MixedFilter(x) && !UnreadablePorts(x))
  {
    var r := RoundOf(rules, resolve, st, cache);
    assert rules[..|rules|] == rules;
    forall x | x in rules && x.Drop? ensures Rule(x) in r.cells && Valid(x) {
      CellsOfIff(rules, |rules|, x);
    }
    forall i | 0 <= i < |r.cells| && r.cells[i].Rule?
      ensures r.cells[i].cell in rules
      ensures Refused(r.cells[i].cell, st, cache, r.answers(i))
              <==> MixedFilter(r.cells[i].cell) || UnreadablePorts(r.cells[i].cell)
    {
      assert Rule(r.cells[i].cell) in r.cells;
      CellsOfIff(rules, |rules|, r.cells[i].cell);
      ValidCellRefusedIff(r.cells[i].cell, st, cache, r.answers(i));
    }
  }

  /** Filter rules validation lets through: two families, a protocol without a port, both ports at once. */
  const UNREADABLE_FILTERS: seq<NftCell> := [
    Drop(ForwardFilter, Some(Parsed(Host(Ip4(0x0a00_0001)))), Some(Parsed(Host(Ip6(1)))), None, None, None, None,
         AnyProtocol, None),
    Drop(InputFilter, Some(Parsed(Host(Ip4(0x0a00_0001)))), None, None, None, None, None, Tcp, None),
    Drop(ForwardFilter, None, None, Some(1000), None, Some(80), None, Udp, None)]

  /** Each of them is a valid configuration whose script builds, but which nft refuses from every ruleset. */
  lemma ValidFilterMayNotLoad(x: NftCell, resolve: NftCell -> Answer, st: Settings, cache: seq<LastGoodRule>,
                              rs: Ruleset)
    requires x in UNREADABLE_FILTERS && st.globalEnabled
    ensures var r := RoundOf([x], resolve, st, cache);
            && AllValid([x]) && Disjoint([x]) && Builds(r.cells, r.answers, st, cache)
            && Run(ScriptOf(r.cells, r.answers, st, cache), rs) == None
  {
    var r := RoundOf([x], resolve, st, cache);
    assert Valid(x) && (MixedFilter(x) || UnreadablePorts(x));
    assert x in [x];
    ValidRulesBuild([x], resolve, st, cache);
    ConfigurationLoadsIff([x], resolve, st, cache);
    ScriptEffect(r.cells, r.answers, st, cache, rs);
  }

  /** The legacy format is not validated: a redirect of ports 2000-1000 builds, and nft refuses its script. */
  lemma LegacyRangeMayNotLoad(st: Settings, cache: seq<LastGoodRule>, rs: Ruleset)
    requires st.globalEnabled && Open(st.access, Inet4)
    ensures var cells, answers := [Rule(Redirect(true, 2000, Some(1000), 3128, Tcp, V4, None))], (i: nat) => None;
            Builds(cells, answers, st, cache) && Run(ScriptOf(cells, answers, st, cache), rs) == None
  {
    var cells, answers := [Rule(Redirect(true, 2000, Some(1000), 3128, Tcp, V4, None))], (i: nat) => None;
    BuildsIff(CacheRound(cells, answers, st, true, true, true, true, 0), cache);
    assert Refused(cells[0].cell, st, cache, answers(0));
    ScriptEffect(cells, answers, st, cache, rs);
  }

  /** For a valid, disjoint configuration every permutation of the rules loads or none does, and the kernel treats every
      new packet the same under all of them: it is dropped, left alone, or translated to the same target. */
  lemma RuleOrderDoesNotMatter(rules: seq<NftCell>, permuted: seq<NftCell>, resolve: NftCell -> Answer, st: Settings,
                               cache: seq<LastGoodRule>, rs: Ruleset, rs': Ruleset, p: Packet)
    requires AllValid(rules) && Disjoint(rules) && multiset(rules) == multiset(permuted) && p.ct == NewConnection
    ensures var r, q := RoundOf(rules, resolve, st, cache), RoundOf(permuted, resolve, st, cache);
            var after := Run(ScriptOf(r.cells, r.answers, st, cache), rs);
            var after' := Run(ScriptOf(q.cells, q.answers, st, cache), rs');
            && (after.Some? <==> after'.Some?)
            && (after.Some? ==> SameOutcome(KernelPrerouting(after.value, p), KernelPrerouting(after'.value, p)))
  {
    var r, q := RoundOf(rules, resolve, st, cache), RoundOf(permuted, resolve, st, cache);
    PermutationKeepsDisjoint(rules, permuted);
    PermutedRounds(rules, permuted, resolve, st, cache, p);
    CompilationPreservesMeaning(r, rs, p);
    CompilationPreservesMeaning(q, rs', p);
    forall x ensures x in rules <==> x in permuted {
      assert x in multiset(rules) <==> x in multiset(permuted);
    }
    ConfigurationLoadsIff(rules, resolve, st, cache);
    ConfigurationLoadsIff(permuted, resolve, st, cache);
  }

  lemma PermutedRounds(rules: seq<NftCell>, permuted: seq<NftCell>, resolve: NftCell -> Answer, st: Settings,
                       cache: seq<LastGoodRule>, p: Packet)
    requires AllValid(rules) && Disjoint(rules) && Disjoint(permuted) && multiset(rules) == multiset(permuted)
    ensures var r, q := RoundOf(rules, resolve, st, cache), RoundOf(permuted, resolve, st, cache);
            && Builds(r.cells, r.answers, st, cache) && Builds(q.cells, q.answers, st, cache)
            && SameOutcome(PreroutingPolicy(r, p), PreroutingPolicy(q, p))
  {
    forall x | x in permuted ensures Valid(x) {
      assert x in multiset(permuted);
      assert x in rules;
    }
    ValidRulesBuild(rules, resolve, st, cache);
    ValidRulesBuild(permuted, resolve, st, cache);
    CellsAreDisjoint(rules, |rules|);
    CellsAreDisjoint(permuted, |permuted|);
    PermutedRoundHasSameRules(rules, permuted, resolve, st, cache);
    PermutedRoundHasSameRules(permuted, rules, resolve, st, cache);
    PolicyOfSameRules(RoundOf(rules, resolve, st, cache), RoundOf(permuted, resolve, st, cache), p);
  }
}
