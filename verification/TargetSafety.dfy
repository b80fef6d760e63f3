/** Where translations may point, over whole runs of the loop: never into a rejected prefix, even when the
    address comes from the cache. */
module TargetSafety {
  import opened Wrappers
  import opened Net
  import opened Cells
  import opened RuleKeys
  import opened Resolver
  import opened LastGood
  import opened PruneLaws
  import opened Nft
  import opened Compiler
  import opened CacheRuns
  import opened CacheProvenance

  predicate IsDnat(c: Command) {
    c.AddRule? && c.rule.action.Dnat?
  }

  predicate NoDnat(s: Script) {
    forall c :: c in s ==> !IsDnat(c)
  }

  lemma {:induction false} GeoForwardHasNoDnat(geo: GeoIpConfig, ss: seq<Summary>)
    ensures NoDnat(GeoForwardRules(geo, ss))
  {
    if ss != [] {
      GeoForwardHasNoDnat(geo, ss[..|ss| - 1]);
    }
  }

  lemma {:induction false} MssHasNoDnat(mss: MssConfig, ss: seq<Summary>)
    ensures NoDnat(MssRules(mss, ss))
  {
    if ss != [] {
      MssHasNoDnat(mss, ss[..|ss| - 1]);
    }
  }

  lemma {:induction false} DropsHaveNoDnat(cell: NftCell, fs: seq<Family>)
    requires cell.Drop?
    ensures NoDnat(DropRulesFor(cell, fs))
  {
    if fs != [] {
      DropsHaveNoDnat(cell, fs[..|fs| - 1]);
    }
  }

  lemma {:induction false} ElementsHaveNoDnat(batches: seq<seq<Entry>>)
    ensures NoDnat(ElementCommands(batches))
  {
    if batches != [] {
      ElementsHaveNoDnat(batches[1..]);
    }
  }

  lemma SetupHasNoDnat(st: Settings)
    ensures NoDnat(Setup(st))
  {
    if CnSet(st).Some? {
      ElementsHaveNoDnat(ElementBatches.Batches(CnSet(st).value));
    }
  }

  lemma GeoHeadHasNoDnat(st: Settings)
    ensures NoDnat(GeoHead(st))
  {
  }

  lemma TailHasNoDnat(st: Settings, ss: seq<Summary>)
    ensures NoDnat(Tail(st, ss))
  {
    GeoForwardHasNoDnat(st.geo, ss);
    MssHasNoDnat(st.mss, ss);
  }

  /** The translation a cell emits is to its own target. */
  predicate CellDnat(cell: NftCell, target: Option<Ip>, id: nat, c: Command) {
    && IsDnat(c) && (cell.Single? || cell.Range?)
    && target == Some(c.rule.action.ip)
    && c.key == NatTable(FamilyOf(c.rule.action.ip)) && c.chain == Prerouting
    && c.rule.owner == Some(id)
  }

  lemma NatRulesDnat(cell: NftCell, ip: Ip, id: nat, st: Settings, c: Command)
    requires (cell.Single? || cell.Range?) && c in NatRules(cell, ip, FamilyOf(ip), id, st) && IsDnat(c)
    ensures CellDnat(cell, Some(ip), id, c)
  {
  }

  lemma CellScriptDnat(cell: NftCell, id: nat, st: Settings, cache: seq<LastGoodRule>, answer: Answer, c: Command)
    requires CellScript(cell, id, st, cache, answer).Success? && c in CellScript(cell, id, st, cache, answer).value
             && IsDnat(c)
    ensures (cell.Single? || cell.Range?) && CellDnat(cell, CellTarget(cell, st, cache, answer), id, c)
  {
    match cell
    case Drop(_, _, _, _, _, _, _, _, _) => DropsHaveNoDnat(cell, DropFamilies(cell).value);
    case Redirect(_, _, _, _, _, _, _) =>
    case _ => NatRulesDnat(cell, CellTarget(cell, st, cache, answer).value, id, st, c);
  }

  lemma {:induction false} BodyDnat(r: CacheRound, memory: seq<LastGoodRule>, n: nat, c: Command) returns (i: nat)
    requires n <= |r.cells| && c in Body(Outs(r.cells, r.answers, r.st, memory, n)) && IsDnat(c)
    ensures i < n && r.cells[i].Rule? && (r.cells[i].cell.Single? || r.cells[i].cell.Range?)
    ensures CellDnat(r.cells[i].cell, CellTarget(r.cells[i].cell, r.st, memory, r.answers(i)), RuleIndex(r.cells, i), c)
  {
    var outs := Outs(r.cells, r.answers, r.st, memory, n);
    assert outs[..n - 1] == Outs(r.cells, r.answers, r.st, memory, n - 1);
    if c in Body(outs[..n - 1]) {
      i := BodyDnat(r, memory, n - 1, c);
    } else {
      i := n - 1;
      CellScriptDnat(r.cells[i].cell, RuleIndex(r.cells, i), r.st, memory, r.answers(i), c);
    }
  }

  /** Every translation of a script belongs to a rule of the configuration and points at its target. */
  lemma ScriptDnat(r: CacheRound, memory: seq<LastGoodRule>, c: Command) returns (i: nat)
    requires c in ScriptOf(r.cells, r.answers, r.st, memory) && IsDnat(c)
    ensures i < |r.cells| && r.cells[i].Rule? && (r.cells[i].cell.Single? || r.cells[i].cell.Range?)
    ensures CellDnat(r.cells[i].cell, CellTarget(r.cells[i].cell, r.st, memory, r.answers(i)), RuleIndex(r.cells, i), c)
  {
    var outs := AllOuts(r.cells, r.answers, r.st, memory);
    SetupHasNoDnat(r.st);
    GeoHeadHasNoDnat(r.st);
    TailHasNoDnat(r.st, Summaries(outs));
    i := BodyDnat(r, memory, |r.cells|, c);
  }

  /** A target taken from the cache was resolved live in an earlier round. */
  lemma CachedTargetWasLearned(rounds: seq<CacheRound>, r: CacheRound, cell: NftCell, answer: Answer,
                               ip: Ip) returns (n: nat)
    requires cell.Single? || cell.Range?
    requires ChooseTarget(cell, r.st, r.Memory(FileAfter(rounds)), answer) == Some((ip, FromCache))
    ensures n < |rounds| && Cacheable(cell) && Learns(rounds[n], RuleKey(cell).value, ip)
  {
    var k := RuleKey(cell).value;
    RunRefinesSlot(rounds, k);
    MemorySlot(r, FileAfter(rounds), k);
    n := SlotOrigin(rounds, k, Some(Address(ip)));
  }

  predicate Rejects(dns: DnsConfig, fakes: seq<Entry>) {
    dns.rejectFakeIp && dns.fakeCidrs == fakes
  }

  /** No entry holds an address inside the prefixes. */
  predicate Clean(rules: seq<LastGoodRule>, fakes: seq<Entry>) {
    forall e :: e in rules && e.ip.Address? ==> !CoversAny(fakes, e.ip.ip)
  }

  lemma MemoryIsClean(r: CacheRound, file: seq<LastGoodRule>, fakes: seq<Entry>)
    requires Clean(file, fakes)
    ensures Clean(r.Memory(file), fakes) && Clean(r.AfterPrune(file), fakes)
  {
    PruningInventsNothing(if r.loaded then file else [], r.Ids());
  }

  lemma ChosenIsNotFake(cell: NftCell, st: Settings, memory: seq<LastGoodRule>, answer: Answer, fakes: seq<Entry>)
    requires (cell.Single? || cell.Range?) && Rejects(st.dns, fakes) && Clean(memory, fakes)
    ensures var chosen := ChooseTarget(cell, st, memory, answer);
            chosen.Some? ==> !CoversAny(fakes, chosen.value.0)
  {
    if RemoteIp(cell.domain, cell.ipVersion, st.dns, answer).Success? {
      ResolvedAddressIsSound(cell.domain, cell.ipVersion, st.dns, answer);
    }
  }

  lemma TargetIsNotFake(r: CacheRound, memory: seq<LastGoodRule>, fakes: seq<Entry>, i: nat)
    requires Rejects(r.st.dns, fakes) && Clean(memory, fakes)
    requires i < |r.cells| && r.cells[i].Rule? && (r.cells[i].cell.Single? || r.cells[i].cell.Range?)
    ensures var target := CellTarget(r.cells[i].cell, r.st, memory, r.answers(i));
            target.Some? ==> !CoversAny(fakes, target.value)
  {
    ChosenIsNotFake(r.cells[i].cell, r.st, memory, r.answers(i), fakes);
  }

  // ---------------------------------------------------------------- the cache stays clean

  /** The event writes no address inside the prefixes into the cache. */
  predicate CleanEvent(e: ResolutionEvent, fakes: seq<Entry>) {
    e.LiveResolved? || e.LastGoodUsed? ==> !CoversAny(fakes, e.ip)
  }

  predicate CleanMap(m: map<string, LastGoodRule>, fakes: seq<Entry>) {
    forall k :: k in m && m[k].ip.Address? ==> !CoversAny(fakes, m[k].ip.ip)
  }

  lemma {:induction false} FoldKeepsClean(m: map<string, LastGoodRule>, events: seq<ResolutionEvent>, now: int,
                                          fakes: seq<Entry>)
    requires CleanMap(m, fakes) && forall e :: e in events ==> CleanEvent(e, fakes)
    ensures CleanMap(FoldEvents(m, events, now), fakes)
  {
    if events != [] {
      FoldKeepsClean(m, events[..|events| - 1], now, fakes);
      assert events[|events| - 1] in events;
    }
  }

  lemma UpdatedIsClean(rules: seq<LastGoodRule>, events: seq<ResolutionEvent>, now: int, fakes: seq<Entry>)
    requires Clean(rules, fakes) && forall e :: e in events ==> CleanEvent(e, fakes)
    ensures Clean(Updated(rules, events, now), fakes)
  {
    var m := StateMap(rules);
    forall k | k in m ensures m[k] in rules {
      var i :| 0 <= i < |rules| && StateKeys(rules)[i] == k && m[k] == rules[i];
    }
    FoldKeepsClean(m, events, now, fakes);
  }

  lemma CellEventsAreClean(cell: NftCell, id: nat, st: Settings, memory: seq<LastGoodRule>, answer: Answer,
                           fakes: seq<Entry>)
    requires Rejects(st.dns, fakes) && Clean(memory, fakes)
    ensures forall e :: e in CellEvents(cell, id, st, memory, answer) ==> CleanEvent(e, fakes)
  {
    if cell.Single? || cell.Range? {
      ChosenIsNotFake(cell, st, memory, answer, fakes);
    }
  }

  lemma {:induction false} EventsOrigin(outs: seq<CellOut>, e: ResolutionEvent) returns (i: nat)
    requires e in Events(outs)
    ensures i < |outs| && e in outs[i].events
  {
    i := |outs| - 1;
    if e !in outs[i].events {
      i := EventsOrigin(outs[..i], e);
    }
  }

  lemma RoundEventsAreClean(r: CacheRound, memory: seq<LastGoodRule>, fakes: seq<Entry>)
    requires Rejects(r.st.dns, fakes) && Clean(memory, fakes)
    ensures forall e :: e in EventsOf(r.cells, r.answers, r.st, memory) ==> CleanEvent(e, fakes)
  {
    var outs := AllOuts(r.cells, r.answers, r.st, memory);
    forall e | e in Events(outs) ensures CleanEvent(e, fakes) {
      var i := EventsOrigin(outs, e);
      OutsAt(r.cells, r.answers, r.st, memory, |r.cells|, i);
      if r.cells[i].Rule? {
        CellEventsAreClean(r.cells[i].cell, RuleIndex(r.cells, i), r.st, memory, r.answers(i), fakes);
      }
    }
  }

  /** With fakes rejected, one round of the loop keeps the cache free of them, from whatever clean cache it starts. */
  lemma NextIsClean(r: CacheRound, file: seq<LastGoodRule>, fakes: seq<Entry>)
    requires Rejects(r.st.dns, fakes) && Clean(file, fakes)
    ensures Clean(r.Next(file), fakes)
  {
    var memory := r.Memory(file);
    MemoryIsClean(r, file, fakes);
    RoundEventsAreClean(r, memory, fakes);
    UpdatedIsClean(memory, EventsOf(r.cells, r.answers, r.st, memory), r.now, fakes);
  }

  /** With fake addresses rejected, no script built from a clean cache translates into one, whether the target is live
      or cached. With egress control on, every target is allowed by the list, and it always fits the rule's IP
      version and its table. */
  lemma TargetsAreSafe(r: CacheRound, file: seq<LastGoodRule>, fakes: seq<Entry>, c: Command)
    requires Rejects(r.st.dns, fakes) && Clean(file, fakes)
    requires c in ScriptOf(r.cells, r.answers, r.st, r.Memory(file)) && IsDnat(c)
    ensures !CoversAny(fakes, c.rule.action.ip)
    ensures r.st.egress.enabled ==> CoversAny(r.st.egress.allowed, c.rule.action.ip)
    ensures c.key == NatTable(FamilyOf(c.rule.action.ip)) && c.chain == Prerouting
    ensures exists i :: 0 <= i < |r.cells| && r.cells[i].Rule? && (r.cells[i].cell.Single? || r.cells[i].cell.Range?)
                        && c.rule.owner == Some(RuleIndex(r.cells, i))
                        && Fits(c.rule.action.ip, r.cells[i].cell.ipVersion)
  {
    var memory := r.Memory(file);
    MemoryIsClean(r, file, fakes);
    var i := ScriptDnat(r, memory, c);
    TargetFits(r.cells[i].cell, r.st, memory, r.answers(i));
    TargetIsNotFake(r, memory, fakes, i);
  }

  /** Over every run from an empty cache with fake addresses rejected under the same prefixes throughout, the cache
      stays clean, so every script of the run is safe. */
  lemma {:induction false} RunStaysClean(rounds: seq<CacheRound>, fakes: seq<Entry>)
    requires forall q :: q in rounds ==> Rejects(q.st.dns, fakes)
    ensures Clean(FileAfter(rounds), fakes)
  {
    if rounds != [] {
      RunStaysClean(rounds[..|rounds| - 1], fakes);
      NextIsClean(rounds[|rounds| - 1], FileAfter(rounds[..|rounds| - 1]), fakes);
    }
  }

  /** The two family errors of the compiler cannot happen, whatever the cache holds: a build fails only over a
      filter rule whose first address does not parse. */
  lemma OnlyFilterAddressesFail(r: CacheRound, memory: seq<LastGoodRule>, i: nat)
    requires i < |r.cells|
    ensures OutAt(r.cells, r.answers, r.st, memory, i).script.Failure? ==>
              OutAt(r.cells, r.answers, r.st, memory, i).script == Failure(BadFilterAddress) && BadFilter(r.cells[i])
    ensures Builds(r.cells, r.answers, r.st, memory) <==> (r.st.globalEnabled ==> !HasBadFilter(r.cells))
  {
    CellBuildsIff(r, memory, i);
    BuildsIff(r, memory);
  }
}
