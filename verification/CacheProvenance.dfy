/** Where a cached address comes from. The file refines one small machine per rule key, and the addresses of
    that machine are traced back to the live resolutions of earlier rounds. */
module CacheProvenance {
  import opened Wrappers
  import opened Net
  import opened Cells
  import opened RuleKeys
  import opened Resolver
  import opened Ordered
  import opened LastGood
  import opened PruneLaws
  import opened Compiler
  import opened CacheRuns

  /** The address cached under one key, if any. */
  type Slot = Option<CachedIp>

  function SlotIn(rules: seq<LastGoodRule>, k: string): Slot {
    var found := LookupByKey(rules, k);
    if found.Some? then Some(found.value.ip) else None
  }

  /** Every entry has a key of its own. */
  predicate Keyed(rules: seq<LastGoodRule>) {
    && (forall e :: e in rules ==> e.ruleKey.Some?)
    && (forall i, j :: 0 <= i < j < |rules| ==> rules[i].ruleKey != rules[j].ruleKey)
  }

  lemma SlotOfEntry(rules: seq<LastGoodRule>, e: LastGoodRule)
    requires Keyed(rules) && e in rules
    ensures LookupByKey(rules, e.ruleKey.value) == Some(e)
  {
    var found := LookupByKey(rules, e.ruleKey.value).value;
    var i :| 0 <= i < |rules| && rules[i] == e;
    var j :| 0 <= j < |rules| && rules[j] == found;
  }

  // ---------------------------------------------------------------- folding, key by key

  function SlotOf(m: map<string, LastGoodRule>, k: string): Slot {
    if k in m then Some(m[k].ip) else None
  }

  predicate KeyedMap(m: map<string, LastGoodRule>) {
    forall k :: k in m ==> m[k].ruleKey == Some(k)
  }

  function EventSlot(x: Slot, e: ResolutionEvent, k: string): Slot {
    match e
    case LiveResolved(_, key, _, _, ip) => if key == Some(k) then Some(Address(ip)) else x
    case LastGoodUsed(id, key, _, _, ip) => if EventMapKey(id, key) == k && x.Some? then Some(Address(ip)) else x
    case _ => x
  }

  function EventsSlot(x: Slot, events: seq<ResolutionEvent>, k: string): Slot {
    if events == [] then x else EventSlot(EventsSlot(x, events[..|events| - 1], k), events[|events| - 1], k)
  }

  lemma FoldEventSlot(m: map<string, LastGoodRule>, e: ResolutionEvent, now: int, k: string)
    requires KeyedMap(m)
    ensures KeyedMap(FoldEvent(m, e, now)) && SlotOf(FoldEvent(m, e, now), k) == EventSlot(SlotOf(m, k), e, k)
  {
  }

  lemma {:induction false} FoldEventsSlot(m: map<string, LastGoodRule>, events: seq<ResolutionEvent>, now: int,
                                          k: string)
    requires KeyedMap(m)
    ensures KeyedMap(FoldEvents(m, events, now))
            && SlotOf(FoldEvents(m, events, now), k) == EventsSlot(SlotOf(m, k), events, k)
  {
    if events != [] {
      var before := events[..|events| - 1];
      FoldEventsSlot(m, before, now, k);
      FoldEventSlot(FoldEvents(m, before, now), events[|events| - 1], now, k);
    }
  }

  lemma {:induction false} EventsSlotConcat(x: Slot, a: seq<ResolutionEvent>, b: seq<ResolutionEvent>, k: string)
    ensures EventsSlot(x, a + b, k) == EventsSlot(EventsSlot(x, a, k), b, k)
  {
    if b == [] {
      assert a + b == a;
    } else {
      assert (a + b)[..|a + b| - 1] == a + b[..|b| - 1];
      EventsSlotConcat(x, a, b[..|b| - 1], k);
    }
  }

  lemma StateMapSlot(rules: seq<LastGoodRule>, k: string)
    requires Keyed(rules)
    ensures KeyedMap(StateMap(rules)) && SlotOf(StateMap(rules), k) == SlotIn(rules, k)
  {
    var m, keys := StateMap(rules), StateKeys(rules);
    forall j | j in m ensures m[j].ruleKey == Some(j) && m[j] in rules {
      var i :| 0 <= i < |keys| && keys[i] == j && m[j] == rules[i];
      assert rules[i] in rules;
    }
    if k in m {
      SlotOfEntry(rules, m[k]);
    } else {
      forall e | e in rules ensures e.ruleKey != Some(k) {
        var i :| 0 <= i < |rules| && rules[i] == e;
        assert keys[i] in keys;
      }
    }
  }

  /** An ordered table of entries stored under their own keys is drained to a list with one entry per key. */
  lemma DrainedSlot(m: map<string, LastGoodRule>, k: string)
    requires KeyedMap(m)
    ensures Keyed(ValuesInOrder(m)) && SlotIn(ValuesInOrder(m), k) == SlotOf(m, k)
  {
    var ks, p := InOrder(m.Keys), ValuesInOrder(m);
    assert |m.Keys| == |m|;
    forall i | 0 <= i < |ks| ensures p[i].ruleKey == Some(ks[i]) {
      assert ks[i] in m.Keys;
    }
    if k in m {
      SlotOfEntry(p, m[k]);
    }
  }

  lemma UpdatedSlot(rules: seq<LastGoodRule>, events: seq<ResolutionEvent>, now: int, k: string)
    requires Keyed(rules)
    ensures Keyed(Updated(rules, events, now))
            && SlotIn(Updated(rules, events, now), k) == EventsSlot(SlotIn(rules, k), events, k)
  {
    StateMapSlot(rules, k);
    FoldEventsSlot(StateMap(rules), events, now, k);
    DrainedSlot(FoldEvents(StateMap(rules), events, now), k);
  }

  // ---------------------------------------------------------------- pruning, key by key

  predicate CurrentKey(ids: seq<RuleIdentity>, k: string) {
    k in IdentityKeys(ids)
  }

  lemma SlotIsEntry(rules: seq<LastGoodRule>, k: string) returns (i: int)
    ensures i < |rules|
    ensures i < 0 ==> SlotIn(rules, k).None? && !HasExact(rules, k)
    ensures i >= 0 ==> rules[i].ruleKey == Some(k) && SlotIn(rules, k) == Some(rules[i].ip)
  {
    var found := LookupByKey(rules, k);
    i := -1;
    if found.Some? {
      i :| 0 <= i < |rules| && rules[i] == found.value;
    }
  }

  lemma NoLegacyEntries(rules: seq<LastGoodRule>, ids: seq<RuleIdentity>, id: RuleIdentity, i: int)
    requires Keyed(rules)
    ensures !LegacyFor(rules, ids, id, i)
  {
    if 0 <= i < |rules| {
      assert rules[i] in rules;
    }
  }

  lemma PrunedIsKeyed(rules: seq<LastGoodRule>, ids: seq<RuleIdentity>)
    requires WellKeyed(ids)
    ensures Keyed(Pruned(rules, ids))
  {
    PruningPutsInOrder(rules, ids);
  }

  lemma TableSlot(rules: seq<LastGoodRule>, ids: seq<RuleIdentity>, k: string)
    requires Keyed(rules) && WellKeyed(ids)
    ensures SlotOf(KeptRules(rules, Owners(rules, ids)), k) == if CurrentKey(ids, k) then SlotIn(rules, k) else None
  {
    PrunedByKey(rules, ids, k);
    if CurrentKey(ids, k) {
      var i := SlotIsEntry(rules, k);
      if i >= 0 {
        assert LastExact(rules, k, i);
      } else {
        forall j ensures !LegacyFor(rules, ids, IdentitiesByKey(ids)[k], j) {
          NoLegacyEntries(rules, ids, IdentitiesByKey(ids)[k], j);
        }
      }
    }
  }

  lemma PrunedSlot(rules: seq<LastGoodRule>, ids: seq<RuleIdentity>, k: string)
    requires Keyed(rules) && WellKeyed(ids)
    ensures Keyed(Pruned(rules, ids))
    ensures SlotIn(Pruned(rules, ids), k) == if CurrentKey(ids, k) then SlotIn(rules, k) else None
  {
    PrunedIsKeyed(rules, ids);
    TableSlot(rules, ids, k);
    DrainedHasExact(rules, Owners(rules, ids), Pruned(rules, ids), k);
    var i := SlotIsEntry(Pruned(rules, ids), k);
  }

  // ---------------------------------------------------------------- one round, key by key

  /** The key under which the rule at position i may be cached. */
  function KeyAt(r: CacheRound, i: nat): Option<string>
    requires i < |r.cells|
  {
    if r.cells[i].Rule? then RuleKey(r.cells[i].cell) else None
  }

  function LiveAt(r: CacheRound, i: nat): Result<Ip, ResolveError>
    requires i < |r.cells| && KeyAt(r, i).Some?
  {
    var cell := r.cells[i].cell;
    RemoteIp(cell.domain, cell.ipVersion, r.st.dns, r.answers(i))
  }

  /** In round r, the rule at position i has key k and resolves live to ip. */
  predicate ResolvesLive(r: CacheRound, i: nat, k: string, ip: Ip) {
    i < |r.cells| && KeyAt(r, i) == Some(k) && LiveAt(r, i) == Success(ip)
  }

  /** The slot after the first n cells of a build that started with x in it: a live answer overwrites it, and
      falling back on the cache writes the address x again. */
  function SlotFold(x: Slot, r: CacheRound, k: string, n: nat): (y: Slot)
    requires n <= |r.cells|
    ensures x.Some? ==> y.Some?
  {
    if n == 0 then x
    else
      var y := SlotFold(x, r, k, n - 1);
      if KeyAt(r, n - 1) != Some(k) then y
      else if LiveAt(r, n - 1).Success? then Some(Address(LiveAt(r, n - 1).value))
      else if r.st.lastGood.enabled && r.st.lastGood.useOnDnsFailure && x.Some? && x.value.Address?
              && Fits(x.value.ip, r.cells[n - 1].cell.ipVersion) then x
      else y
  }

  /** A round commits when it builds, is applied, and saves what it learned; what is cached plays no part. */
  predicate Committed(r: CacheRound) {
    (r.st.globalEnabled ==> !HasBadFilter(r.cells)) && r.applied && r.st.lastGood.enabled && r.saved
  }

  predicate BadFilter(c: RuntimeCell) {
    c.Rule? && c.cell.Drop? && DropFamilies(c.cell).Failure?
  }

  predicate HasBadFilter(cells: seq<RuntimeCell>) {
    exists i :: 0 <= i < |cells| && BadFilter(cells[i])
  }

  function SlotNext(x: Slot, r: CacheRound, k: string): Slot {
    var memory := if !r.loaded || !CurrentKey(r.Ids(), k) then None else x;
    if Committed(r) then (if r.st.globalEnabled then SlotFold(memory, r, k, |r.cells|) else memory)
    else if r.st.lastGood.enabled && r.loaded && r.pruneSaved then memory
    else x
  }

  /** A target's family always fits its rule, so a cell only fails to build over an unreadable filter address. */
  lemma CellBuildsIff(r: CacheRound, memory: seq<LastGoodRule>, i: nat)
    requires i < |r.cells|
    ensures OutAt(r.cells, r.answers, r.st, memory, i).script.Success? <==> !BadFilter(r.cells[i])
  {
    if r.cells[i].Rule? && (r.cells[i].cell.Single? || r.cells[i].cell.Range?) {
      if CellTarget(r.cells[i].cell, r.st, memory, r.answers(i)).Some? {
        TargetFits(r.cells[i].cell, r.st, memory, r.answers(i));
      }
    }
  }

  lemma BuildsIff(r: CacheRound, memory: seq<LastGoodRule>)
    ensures Builds(r.cells, r.answers, r.st, memory) <==> (r.st.globalEnabled ==> !HasBadFilter(r.cells))
  {
    var outs := AllOuts(r.cells, r.answers, r.st, memory);
    forall i | 0 <= i < |r.cells| ensures outs[i].script.Success? <==> !BadFilter(r.cells[i]) {
      OutsAt(r.cells, r.answers, r.st, memory, |r.cells|, i);
      CellBuildsIff(r, memory, i);
    }
  }

  /** What the events of one cell do to the slot, when the build reads the address x for its key. */
  lemma CellEventsSlot(r: CacheRound, memory: seq<LastGoodRule>, k: string, i: nat, y: Slot)
    requires i < |r.cells| && (SlotIn(memory, k).Some? ==> y.Some?)
    ensures EventsSlot(y, OutAt(r.cells, r.answers, r.st, memory, i).events, k)
            == if KeyAt(r, i) != Some(k) then y
               else if LiveAt(r, i).Success? then Some(Address(LiveAt(r, i).value))
               else if r.st.lastGood.enabled && r.st.lastGood.useOnDnsFailure && SlotIn(memory, k).Some?
                       && SlotIn(memory, k).value.Address?
                       && Fits(SlotIn(memory, k).value.ip, r.cells[i].cell.ipVersion)
               then SlotIn(memory, k) else y
  {
    var events := OutAt(r.cells, r.answers, r.st, memory, i).events;
    if r.cells[i].Rule? && (r.cells[i].cell.Single? || r.cells[i].cell.Range?) {
      OnlyTargetEventCounts(r.cells[i].cell, RuleIndex(r.cells, i), r.st, memory, r.answers(i), k, y);
      SlotOfTargetEvent(r.cells[i].cell, RuleIndex(r.cells, i), r.st, memory, r.answers(i), k, y);
    } else {
      assert events == [];
    }
  }

  lemma OneEventSlot(y: Slot, events: seq<ResolutionEvent>, k: string)
    requires |events| <= 1
    ensures EventsSlot(y, events, k) == if events == [] then y else EventSlot(y, events[0], k)
  {
    if events != [] {
      assert events[..|events| - 1] == [];
      assert EventsSlot(y, [], k) == y;
    }
  }

  lemma TwoEventsSlot(y: Slot, first: seq<ResolutionEvent>, second: seq<ResolutionEvent>, k: string)
    requires |first| <= 1 && |second| <= 1
    requires forall e :: e in second ==> e.EgressSkipped?
    ensures EventsSlot(y, first + second, k) == if first == [] then y else EventSlot(y, first[0], k)
  {
    EventsSlotConcat(y, first, second, k);
    OneEventSlot(y, first, k);
    OneEventSlot(EventsSlot(y, first, k), second, k);
    if second != [] {
      assert second[0] in second;
    }
  }

  lemma OnlyTargetEventCounts(cell: NftCell, id: nat, st: Settings, memory: seq<LastGoodRule>, answer: Answer,
                              k: string, y: Slot)
    requires cell.Single? || cell.Range?
    ensures EventsSlot(y, CellEvents(cell, id, st, memory, answer), k)
            == EventsSlot(y, TargetEvents(cell, id, ChooseTarget(cell, st, memory, answer)), k)
  {
    var target := ChooseTarget(cell, st, memory, answer);
    var first, second := TargetEvents(cell, id, target), EgressEvents(cell, id, st.egress, target);
    OneEventSlot(y, first, k);
    TwoEventsSlot(y, first, second, k);
  }

  lemma SlotOfTargetEvent(cell: NftCell, id: nat, st: Settings, memory: seq<LastGoodRule>, answer: Answer, k: string,
                          y: Slot)
    requires (cell.Single? || cell.Range?) && (SlotIn(memory, k).Some? ==> y.Some?)
    ensures var live, x := RemoteIp(cell.domain, cell.ipVersion, st.dns, answer), SlotIn(memory, k);
            EventsSlot(y, TargetEvents(cell, id, ChooseTarget(cell, st, memory, answer)), k)
            == if RuleKey(cell) != Some(k) then y
               else if live.Success? then Some(Address(live.value))
               else if st.lastGood.enabled && st.lastGood.useOnDnsFailure && x.Some? && x.value.Address?
                       && Fits(x.value.ip, cell.ipVersion) then x
               else y
  {
    OneEventSlot(y, TargetEvents(cell, id, ChooseTarget(cell, st, memory, answer)), k);
  }

  lemma EventsGrow(r: CacheRound, memory: seq<LastGoodRule>, n: nat)
    requires n < |r.cells|
    ensures EventsUpTo(r, memory, n + 1) == EventsUpTo(r, memory, n) + OutAt(r.cells, r.answers, r.st, memory, n).events
  {
    var outs := Outs(r.cells, r.answers, r.st, memory, n + 1);
    assert outs[..n] == Outs(r.cells, r.answers, r.st, memory, n);
  }

  lemma BuildSlotStep(r: CacheRound, memory: seq<LastGoodRule>, k: string, n: nat, y: Slot)
    requires n < |r.cells| && y == SlotFold(SlotIn(memory, k), r, k, n)
    ensures EventsSlot(y, OutAt(r.cells, r.answers, r.st, memory, n).events, k)
            == SlotFold(SlotIn(memory, k), r, k, n + 1)
  {
    CellEventsSlot(r, memory, k, n, y);
    FoldStep(SlotIn(memory, k), r, k, n);
  }

  lemma EventsThen(x: Slot, before: seq<ResolutionEvent>, last: seq<ResolutionEvent>, k: string, y: Slot)
    requires y == EventsSlot(x, before, k)
    ensures EventsSlot(x, before + last, k) == EventsSlot(y, last, k)
  {
    EventsSlotConcat(x, before, last, k);
  }

  /** The events of the first n positions, all that a build records up to there. */
  function EventsUpTo(r: CacheRound, memory: seq<LastGoodRule>, n: nat): seq<ResolutionEvent>
    requires n <= |r.cells|
  {
    Events(Outs(r.cells, r.answers, r.st, memory, n))
  }

  lemma BuildSlotNext(r: CacheRound, memory: seq<LastGoodRule>, k: string, n: nat)
    requires n < |r.cells|
    requires EventsSlot(SlotIn(memory, k), EventsUpTo(r, memory, n), k)
             == SlotFold(SlotIn(memory, k), r, k, n)
    ensures EventsSlot(SlotIn(memory, k), EventsUpTo(r, memory, n + 1), k) == SlotFold(SlotIn(memory, k), r, k, n + 1)
  {
    var y := SlotFold(SlotIn(memory, k), r, k, n);
    EventsGrow(r, memory, n);
    EventsThen(SlotIn(memory, k), EventsUpTo(r, memory, n), OutAt(r.cells, r.answers, r.st, memory, n).events, k, y);
    BuildSlotStep(r, memory, k, n, y);
  }

  lemma {:induction false} BuildSlot(r: CacheRound, memory: seq<LastGoodRule>, k: string, n: nat)
    requires n <= |r.cells|
    ensures EventsSlot(SlotIn(memory, k), EventsUpTo(r, memory, n), k) == SlotFold(SlotIn(memory, k), r, k, n)
  {
    if n > 0 {
      BuildSlot(r, memory, k, n - 1);
      BuildSlotNext(r, memory, k, n - 1);
    }
  }

  lemma MemorySlot(r: CacheRound, file: seq<LastGoodRule>, k: string)
    requires Keyed(file) && r.st.lastGood.enabled
    ensures Keyed(r.Memory(file))
    ensures SlotIn(r.Memory(file), k) == if !r.loaded || !CurrentKey(r.Ids(), k) then None else SlotIn(file, k)
  {
    ConfigurationsAreWellKeyed(r.cells);
    PrunedSlot(if r.loaded then file else [], r.Ids(), k);
  }

  lemma AfterPruneSlot(r: CacheRound, file: seq<LastGoodRule>, k: string)
    requires Keyed(file)
    ensures Keyed(r.AfterPrune(file))
    ensures SlotIn(r.AfterPrune(file), k)
            == if r.st.lastGood.enabled && r.loaded && r.pruneSaved && !CurrentKey(r.Ids(), k) then None
               else SlotIn(file, k)
  {
    ConfigurationsAreWellKeyed(r.cells);
    if r.st.lastGood.enabled {
      MemorySlot(r, file, k);
      UnchangedIff(if r.loaded then file else [], r.Ids());
      if r.loaded && !PruneReport(file, r.Ids()).changed && SlotIn(file, k).Some? {
        assert LookupByKey(file, k).value in file;
      }
    }
  }

  /** The file refines the per-key machine: whatever else it holds, one pass of the loop takes the address
      cached under a key to the next state of that key's slot. */
  lemma RoundRefinesSlot(r: CacheRound, file: seq<LastGoodRule>, k: string)
    requires Keyed(file)
    ensures Keyed(r.Next(file)) && SlotIn(r.Next(file), k) == SlotNext(SlotIn(file, k), r, k)
  {
    var memory := r.Memory(file);
    BuildsIff(r, memory);
    AfterPruneSlot(r, file, k);
    if Committed(r) {
      MemorySlot(r, file, k);
      UpdatedSlot(memory, EventsOf(r.cells, r.answers, r.st, memory), r.now, k);
      BuildSlot(r, memory, k, |r.cells|);
    }
  }

  // ---------------------------------------------------------------- where an address comes from

  /** The round commits and some rule with key k resolves live to ip in it. */
  ghost predicate Learns(r: CacheRound, k: string, ip: Ip) {
    Committed(r) && r.st.globalEnabled && exists i: nat :: ResolvesLive(r, i, k, ip)
  }

  /** One position keeps the slot, writes the old address again, or writes a live answer. */
  lemma FoldStepOrigin(x: Slot, r: CacheRound, k: string, n: nat)
    requires n < |r.cells|
    ensures var before, y := SlotFold(x, r, k, n), SlotFold(x, r, k, n + 1);
            y == before || y == x || (y.Some? && y.value.Address? && ResolvesLive(r, n, k, y.value.ip))
  {
    if KeyAt(r, n) != Some(k) {
      assert SlotFold(x, r, k, n + 1) == SlotFold(x, r, k, n);
    } else if LiveAt(r, n).Success? {
      assert SlotFold(x, r, k, n + 1) == Some(Address(LiveAt(r, n).value));
    }
  }

  lemma {:induction false} FoldOrigin(x: Slot, r: CacheRound, k: string, n: nat)
    requires n <= |r.cells|
    ensures var y := SlotFold(x, r, k, n);
            y == x || (y.Some? && y.value.Address? && exists i: nat :: ResolvesLive(r, i, k, y.value.ip))
  {
    if n > 0 {
      FoldOrigin(x, r, k, n - 1);
      FoldStepOrigin(x, r, k, n - 1);
    }
  }

  /** One round empties a slot, leaves it, or fills it with an address learned in that round. */
  lemma SlotNextOrigin(x: Slot, r: CacheRound, k: string)
    ensures var y := SlotNext(x, r, k);
            y.None? || y == x || (y.value.Address? && Learns(r, k, y.value.ip))
  {
    FoldOrigin(if !r.loaded || !CurrentKey(r.Ids(), k) then None else x, r, k, |r.cells|);
  }

  /** A round that does not commit, because it failed to build, was not applied or could not be saved, never
      changes a cached address; at most it removes one. */
  lemma UncommittedRoundKeepsAddresses(file: seq<LastGoodRule>, r: CacheRound, k: string)
    requires Keyed(file) && !Committed(r)
    ensures SlotIn(r.Next(file), k).None? || SlotIn(r.Next(file), k) == SlotIn(file, k)
    ensures CurrentKey(r.Ids(), k) && r.loaded ==> SlotIn(r.Next(file), k) == SlotIn(file, k)
  {
    RoundRefinesSlot(r, file, k);
  }

  /** In one round, rules that name the same domain get the same answer from the resolver. */
  predicate OneAnswerPerDomain(r: CacheRound) {
    forall i, j :: 0 <= i < |r.cells| && 0 <= j < |r.cells| && KeyAt(r, i).Some? && KeyAt(r, j).Some? ==>
      SameDomain(r.cells[i].cell.domain.text, r.cells[j].cell.domain.text) ==> r.answers(i) == r.answers(j)
  }

  lemma SameKeySameAnswer(r: CacheRound, i: nat, j: nat)
    requires i < |r.cells| && j < |r.cells| && KeyAt(r, i).Some? && KeyAt(r, i) == KeyAt(r, j) && OneAnswerPerDomain(r)
    ensures LiveAt(r, i) == LiveAt(r, j)
  {
    KeysEqualIff(r.cells[i].cell, r.cells[j].cell);
  }

  /** Position i is the last rule with key k that resolves live in the round. */
  predicate LastLive(r: CacheRound, k: string, i: nat) {
    && i < |r.cells| && KeyAt(r, i) == Some(k) && LiveAt(r, i).Success?
    && forall j :: i < j < |r.cells| && KeyAt(r, j) == Some(k) ==> LiveAt(r, j).Failure?
  }

  /** The rule at position j has key k, gets no live answer, and falls back on the cached address in x. */
  predicate FallsBack(r: CacheRound, j: nat, k: string, x: Slot) {
    && j < |r.cells| && KeyAt(r, j) == Some(k) && LiveAt(r, j).Failure?
    && r.st.lastGood.enabled && r.st.lastGood.useOnDnsFailure
    && x.Some? && x.value.Address? && Fits(x.value.ip, r.cells[j].cell.ipVersion)
  }

  predicate FallsBackAfter(r: CacheRound, i: nat, n: nat, k: string, x: Slot) {
    exists j :: i < j < n && FallsBack(r, j, k, x)
  }

  /** One position of the fold: another key or a failure without fallback keeps the slot. */
  lemma FoldStep(x: Slot, r: CacheRound, k: string, n: nat)
    requires n < |r.cells|
    ensures SlotFold(x, r, k, n + 1)
            == if FallsBack(r, n, k, x) then x
               else if KeyAt(r, n) == Some(k) && LiveAt(r, n).Success? then Some(Address(LiveAt(r, n).value))
               else SlotFold(x, r, k, n)
  {
  }

  lemma FallsBackNext(r: CacheRound, i: nat, n: nat, k: string, x: Slot)
    requires i < n < |r.cells|
    ensures FallsBackAfter(r, i, n + 1, k, x) <==> FallsBackAfter(r, i, n, k, x) || FallsBack(r, n, k, x)
  {
  }

  /** The fold after the last live answer: a later fallback brings the old address back. */
  lemma {:induction false} FoldAfterLive(x: Slot, r: CacheRound, k: string, n: nat, i: nat)
    requires i < n <= |r.cells| && LastLive(r, k, i)
    ensures SlotFold(x, r, k, n)
            == if FallsBackAfter(r, i, n, k, x) then x else Some(Address(LiveAt(r, i).value))
  {
    FoldStep(x, r, k, n - 1);
    if i < n - 1 {
      FoldAfterLive(x, r, k, n - 1, i);
      FallsBackNext(r, i, n - 1, k, x);
    }
  }

  lemma {:induction false} FoldWithoutLive(x: Slot, r: CacheRound, k: string, n: nat)
    requires n <= |r.cells| && forall j :: 0 <= j < n && KeyAt(r, j) == Some(k) ==> LiveAt(r, j).Failure?
    ensures SlotFold(x, r, k, n) == x
  {
    if n > 0 {
      FoldWithoutLive(x, r, k, n - 1);
    }
  }

  /** What the build reads from the cache for a key the configuration has. */
  function ReadSlot(x: Slot, r: CacheRound): Slot {
    if r.loaded then x else None
  }

  /** Exactly what a committed round leaves in a slot: the last live answer, unless a later rule with the same key
      falls back on the cached address, which is then written again. Without a live answer the slot stays. */
  lemma CommittedSlotExact(x: Slot, r: CacheRound, k: string)
    requires Committed(r) && r.st.globalEnabled && CurrentKey(r.Ids(), k)
    ensures forall i :: 0 <= i && LastLive(r, k, i) ==>
              SlotNext(x, r, k) == if FallsBackAfter(r, i, |r.cells|, k, ReadSlot(x, r)) then ReadSlot(x, r)
                                   else Some(Address(LiveAt(r, i).value))
    ensures (forall i :: 0 <= i < |r.cells| && KeyAt(r, i) == Some(k) ==> LiveAt(r, i).Failure?) ==>
              SlotNext(x, r, k) == ReadSlot(x, r)
  {
    forall i: nat | LastLive(r, k, i)
      ensures SlotNext(x, r, k) == if FallsBackAfter(r, i, |r.cells|, k, ReadSlot(x, r)) then ReadSlot(x, r)
                                   else Some(Address(LiveAt(r, i).value))
    {
      FoldAfterLive(ReadSlot(x, r), r, k, |r.cells|, i);
    }
    if forall i :: 0 <= i < |r.cells| && KeyAt(r, i) == Some(k) ==> LiveAt(r, i).Failure? {
      FoldWithoutLive(ReadSlot(x, r), r, k, |r.cells|);
    }
  }

  /** So the last live answer is what a committed round leaves exactly if no later rule with the same key falls back
      on a different cached address. */
  lemma LastAnswerStaysIff(x: Slot, r: CacheRound, k: string, i: nat)
    requires Committed(r) && r.st.globalEnabled && LastLive(r, k, i)
    ensures SlotNext(x, r, k) == Some(Address(LiveAt(r, i).value)) <==>
            (FallsBackAfter(r, i, |r.cells|, k, ReadSlot(x, r)) ==> ReadSlot(x, r) == Some(Address(LiveAt(r, i).value)))
  {
    KeyIsCurrent(r, i, k);
    CommittedSlotExact(x, r, k);
  }

  lemma {:induction false} IdentityListed(cells: seq<RuntimeCell>, n: nat, i: nat)
    requires i < n <= |cells| && IdentityAt(cells, i).Some?
    ensures IdentityAt(cells, i).value in Identities(cells, n)
  {
    if i < n - 1 {
      IdentityListed(cells, n - 1, i);
    }
  }

  lemma KeyIsCurrent(r: CacheRound, i: nat, k: string)
    requires i < |r.cells| && KeyAt(r, i) == Some(k)
    ensures CurrentKey(r.Ids(), k)
  {
    KeyExactlyWhenCacheable(r.cells[i].cell);
    IdentityListed(r.cells, |r.cells|, i);
    var ids := r.Ids();
    var at :| 0 <= at < |ids| && ids[at] == IdentityAt(r.cells, i).value;
    assert IdentityKeys(ids)[at] == k;
  }

  lemma {:induction false} LastLiveExists(r: CacheRound, k: string, i: nat) returns (m: nat)
    requires i < |r.cells| && KeyAt(r, i) == Some(k) && LiveAt(r, i).Success?
    ensures LastLive(r, k, m)
    decreases |r.cells| - i
  {
    if j :| i < j < |r.cells| && KeyAt(r, j) == Some(k) && LiveAt(r, j).Success? {
      m := LastLiveExists(r, k, j);
    } else {
      m := i;
    }
  }

  /** With one answer per domain no rule can fall back behind a live one, so a round that learns an address leaves
      exactly that address in the slot. */
  lemma SlotNextIsLearned(x: Slot, r: CacheRound, k: string, ip: Ip)
    requires OneAnswerPerDomain(r) && Learns(r, k, ip)
    ensures SlotNext(x, r, k) == Some(Address(ip))
  {
    var i: nat :| ResolvesLive(r, i, k, ip);
    var m := LastLiveExists(r, k, i);
    SameKeySameAnswer(r, i, m);
    forall j | m < j < |r.cells| ensures !FallsBack(r, j, k, ReadSlot(x, r)) {
      if KeyAt(r, j) == Some(k) {
        SameKeySameAnswer(r, i, j);
      }
    }
    LastAnswerStaysIff(x, r, k, m);
  }

  // ---------------------------------------------------------------- whole runs

  function SlotAfter(rounds: seq<CacheRound>, k: string): Slot {
    if rounds == [] then None else SlotNext(SlotAfter(rounds[..|rounds| - 1], k), rounds[|rounds| - 1], k)
  }

  lemma {:induction false} RunRefinesSlot(rounds: seq<CacheRound>, k: string)
    ensures Keyed(FileAfter(rounds)) && SlotIn(FileAfter(rounds), k) == SlotAfter(rounds, k)
  {
    if rounds != [] {
      RunRefinesSlot(rounds[..|rounds| - 1], k);
      RoundRefinesSlot(rounds[|rounds| - 1], FileAfter(rounds[..|rounds| - 1]), k);
    }
  }

  /** The rounds after round n leave the slot as it is. */
  predicate Steady(x: Slot, rounds: seq<CacheRound>, k: string, n: nat)
    requires n < |rounds|
  {
    n == |rounds| - 1 || (SlotNext(x, rounds[|rounds| - 1], k) == x && Steady(x, rounds[..|rounds| - 1], k, n))
  }

  lemma {:induction false} SteadyAt(x: Slot, rounds: seq<CacheRound>, k: string, n: nat, m: nat)
    requires n < m < |rounds| && Steady(x, rounds, k, n)
    ensures SlotNext(x, rounds[m], k) == x
  {
    if m < |rounds| - 1 {
      SteadyAt(x, rounds[..|rounds| - 1], k, n, m);
    }
  }

  lemma {:induction false} SlotOrigin(rounds: seq<CacheRound>, k: string, x: Slot) returns (n: nat)
    requires x.Some? && SlotAfter(rounds, k) == x
    ensures n < |rounds| && x.value.Address? && Learns(rounds[n], k, x.value.ip) && Steady(x, rounds, k, n)
  {
    var last := |rounds| - 1;
    var before := rounds[..last];
    if SlotAfter(before, k) == x {
      n := SlotOrigin(before, k, x);
      assert rounds[n] == before[n];
    } else {
      n := last;
      SlotNextOrigin(SlotAfter(before, k), rounds[last], k);
    }
  }

  /** Over every run from an empty cache, however the rules are deleted, reordered or edited in between: each
      cached address was resolved live for a rule with exactly that key, in a round that was applied and saved.
      If rules naming the same domain get the same answer within a round, no later such round resolved the key
      to anything else. */
  lemma CachedAddressWasLearned(rounds: seq<CacheRound>, e: LastGoodRule)
    requires e in FileAfter(rounds)
    ensures e.ruleKey.Some? && e.ip.Address?
    ensures exists n :: 0 <= n < |rounds| && Learns(rounds[n], e.ruleKey.value, e.ip.ip)
                        && forall m, ip :: n < m < |rounds| && OneAnswerPerDomain(rounds[m]) ==>
                             Learns(rounds[m], e.ruleKey.value, ip) ==> ip == e.ip.ip
  {
    RunRefinesSlot(rounds, "");
    var k := e.ruleKey.value;
    RunRefinesSlot(rounds, k);
    SlotOfEntry(FileAfter(rounds), e);
    var n := SlotOrigin(rounds, k, Some(e.ip));
    forall m, ip | n < m < |rounds| && OneAnswerPerDomain(rounds[m]) && Learns(rounds[m], k, ip) ensures ip == e.ip.ip {
      SteadyAt(Some(e.ip), rounds, k, n, m);
      SlotNextIsLearned(Some(e.ip), rounds[m], k, ip);
    }
  }

  // ---------------------------------------------------------------- why one answer per domain matters

  function TwinRule(): NftCell {
    Single(true, 80, 80, IpText("host", None), Tcp, V4, None, None)
  }

  /** A round whose two rules share a key; only the first of them gets an answer. */
  function TwinRound(st: Settings, latest: Ip): CacheRound {
    CacheRound([Rule(TwinRule()), Rule(TwinRule())], i => if i == 0 then Some([latest]) else None, st,
               true, true, true, true, 0)
  }

  /** Without one answer per domain the cache can fall behind: the second rule's fallback writes the old address
      over the one the first rule has just learned. */
  lemma TwinRulesBringBackOldAddress(st: Settings, stale: bv32, latest: bv32)
    requires st.globalEnabled && st.lastGood == LastGoodConfig(true, true) && !st.dns.rejectFakeIp && stale != latest
    ensures var k, r := RuleKey(TwinRule()).value, TwinRound(st, Ip4(latest));
            Learns(r, k, Ip4(latest)) && SlotNext(Some(Address(Ip4(stale))), r, k) == Some(Address(Ip4(stale)))
  {
    var k, r := RuleKey(TwinRule()).value, TwinRound(st, Ip4(latest));
    var x := Some(Address(Ip4(stale)));
    assert RemoteIp(IpText("host", None), V4, st.dns, Some([Ip4(latest)])) == Success(Ip4(latest)) by {
      assert Candidates([Ip4(latest)], V4) == [Ip4(latest)];
    }
    assert ResolvesLive(r, 0, k, Ip4(latest));
    assert LastLive(r, k, 0) && FallsBack(r, 1, k, x);
    KeyIsCurrent(r, 0, k);
    CommittedSlotExact(x, r, k);
  }
}
