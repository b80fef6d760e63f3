/** What whole runs of the service never do: touch the tables of others, or send a packet to a fake address; and where
    the addresses they do send packets to come from. */
module LoopSafety {
  import opened Wrappers
  import opened Net
  import opened Cells
  import opened RuleKeys
  import opened Resolver
  import opened LastGood
  import opened Nft
  import opened Compiler
  import opened Transaction
  import opened Policy
  import opened PreroutingMeaning
  import opened CacheRuns
  import opened CacheProvenance
  import opened TargetSafety
  import opened SafeApply
  import opened StopCommand
  import opened Connections
  import opened SafeTables
  import opened Daemon
  import opened LoopLaws

  // ---------------------------------------------------------------- unmanaged tables

  predicate OnlyManagedKeys(script: Script) {
    forall c :: c in script ==> Managed(c.key)
  }

  lemma {:induction false} ManagedKeysKeepOthers(script: Script, rs: Ruleset)
    requires OnlyManagedKeys(script) && Run(script, rs).Some?
    ensures Others(Run(script, rs).value) == Others(rs)
  {
    if script != [] {
      assert script[0] in script;
      var rs' := Exec(script[0], rs).value;
      assert Others(rs') == Others(rs);
      ManagedKeysKeepOthers(script[1..], rs');
    }
  }

  lemma {:induction false} ElementsManaged(batches: seq<seq<Entry>>)
    ensures OnlyManagedKeys(ElementCommands(batches))
  {
    if batches != [] {
      ElementsManaged(batches[1..]);
    }
  }

  lemma ManagedConcat(a: Script, b: Script)
    requires OnlyManagedKeys(a) && OnlyManagedKeys(b)
    ensures OnlyManagedKeys(a + b)
  {
  }

  lemma SkeletonsManaged(f: Family)
    ensures OnlyManagedKeys(NatSkeleton(f)) && OnlyManagedKeys(FilterSkeleton(f))
  {
  }

  lemma PrologueManaged()
    ensures OnlyManagedKeys(Prologue())
  {
    SkeletonsManaged(Inet4);
    SkeletonsManaged(Inet6);
    ManagedConcat(NatSkeleton(Inet4), NatSkeleton(Inet6));
    ManagedConcat(NatSkeleton(Inet4) + NatSkeleton(Inet6), FilterSkeleton(Inet4));
    ManagedConcat(NatSkeleton(Inet4) + NatSkeleton(Inet6) + FilterSkeleton(Inet4), FilterSkeleton(Inet6));
  }

  lemma CnSetManaged(entries: seq<Entry>)
    ensures OnlyManagedKeys(CnSetDefinition(entries))
  {
    ElementsManaged(ElementBatches.Batches(entries));
    ManagedConcat([AddSet(FilterTable(Inet4), Cn4)], ElementCommands(ElementBatches.Batches(entries)));
  }

  lemma SetupManaged(st: Settings)
    ensures OnlyManagedKeys(Setup(st))
  {
    PrologueManaged();
    if CnSet(st).Some? {
      var chain := if GeoForwardActive(st) then [AddChain(FilterTable(Inet4), GeoIpPrerouting, GEOIP_CHAIN)] else [];
      CnSetManaged(CnSet(st).value);
      ManagedConcat(CnSetDefinition(CnSet(st).value), chain);
      ManagedConcat(Prologue(), CnSetDefinition(CnSet(st).value) + chain);
    } else {
      assert Prologue() + [] == Prologue();
    }
  }

  lemma OwnScriptManaged(r: CacheRound, memory: seq<LastGoodRule>)
    ensures OnlyManagedKeys(ScriptOf(r.cells, r.answers, r.st, memory))
  {
    SetupManaged(r.st);
    RulesPlaced(r.cells, r.answers, r.st, memory);
  }

  /** What may be left of a command that was cut short names a managed table. */
  predicate CutIsManaged(e: Event) {
    e.Pass? && e.i.written.Cut? && e.i.written.rest.Some? ==> Managed(e.i.written.rest.value.key)
  }

  lemma ContentIsManaged(script: Script, w: WriteOutcome)
    requires OnlyManagedKeys(script) && (w.Cut? && w.rest.Some? ==> Managed(w.rest.value.key))
    ensures FileContent(script, w).Some? ==> OnlyManaged(FileContent(script, w).value)
  {
    if FileContent(script, w).Some? {
      var file := FileContent(script, w).value;
      assert OnlyManagedKeys(file);
      forall rs | Run(file, rs).Some? ensures Others(Run(file, rs).value) == Others(rs) {
        ManagedKeysKeepOthers(file, rs);
      }
    }
  }

  ghost predicate FileManaged(k: Kernel) {
    k.file.Some? ==> OnlyManaged(k.file.value)
  }

  lemma SubmissionKeepsOthers(k: Kernel, script: Script, i: LoopInput, render: Rendering)
    requires FileManaged(k) && OnlyManagedKeys(script) && CutIsManaged(Pass(i))
    ensures var k' := Submitted(k, script, i, render).0; FileManaged(k') && Others(k'.ruleset) == Others(k.ruleset)
  {
    ContentIsManaged(script, i.written);
    ContentIsManaged(script, Whole);
    UnmanagedTablesNeverChange(k.ruleset, Handed(k, script, i), i.env);
  }

  lemma EventKeepsOthers(s: LoopState, e: Event, render: Rendering)
    requires FileManaged(s.kernel) && CutIsManaged(e)
    ensures var k' := Stepped(s, e, render).kernel; FileManaged(k') && Others(k'.ruleset) == Others(s.kernel.ruleset)
  {
    if e.Stop? {
      StopKeepsOthers(s.kernel.ruleset, e.run);
    }
    if e.Pass? && s.kernel.running && Built(e.i, s.cache).Some? {
      OwnScriptManaged(e.i.round, e.i.round.Memory(s.cache));
      SubmissionKeepsOthers(s.kernel, Built(e.i, s.cache).value, e.i, render);
    }
  }

  /** Over every run the service leaves the tables of others alone, whatever fails. */
  lemma {:induction false} UnmanagedTablesSurviveRun(k: Kernel, cache: seq<LastGoodRule>, events: seq<Event>,
                                                     render: Rendering)
    requires FileManaged(k) && forall e :: e in events ==> CutIsManaged(e)
    ensures var k' := Reached(Initial(k, cache), events, render).kernel;
            FileManaged(k') && Others(k'.ruleset) == Others(k.ruleset)
  {
    if events != [] {
      var rest, e := events[..|events| - 1], events[|events| - 1];
      assert e in events && forall x :: x in rest ==> x in events;
      UnmanagedTablesSurviveRun(k, cache, rest, render);
      EventKeepsOthers(Reached(Initial(k, cache), rest, render), e, render);
    }
  }

  // ---------------------------------------------------------------- fake addresses

  predicate PassRejects(e: Event, fakes: seq<Entry>) {
    e.Pass? ==> Rejects(e.i.round.st.dns, fakes)
  }

  /** The cache holds no fake address, and every script came from a memory without one. */
  ghost predicate CleanRun(s: LoopState, fakes: seq<Entry>) {
    Clean(s.cache, fakes) && forall r :: r in s.passes ==> Rejects(r.round.st.dns, fakes) && Clean(r.memory, fakes)
  }

  lemma EventKeepsClean(s: LoopState, e: Event, fakes: seq<Entry>, render: Rendering)
    requires CleanRun(s, fakes) && PassRejects(e, fakes)
    ensures CleanRun(Stepped(s, e, render), fakes)
  {
    if e.Pass? && s.kernel.running {
      var r := e.i.round.(applied := AfterBuild(s.kernel, Built(e.i, s.cache), e.i, render).1);
      MemoryIsClean(r, s.cache, fakes);
      NextIsClean(r, s.cache, fakes);
    }
  }

  lemma BuiltIsSafe(r: CacheRound, memory: seq<LastGoodRule>, fakes: seq<Entry>)
    requires Rejects(r.st.dns, fakes) && Clean(memory, fakes)
    ensures SafeScript(ScriptOf(r.cells, r.answers, r.st, memory), fakes)
  {
    forall c | c in ScriptOf(r.cells, r.answers, r.st, memory) && IsDnat(c) ensures SafeRule(c.rule, fakes) {
      var i := ScriptDnat(r, memory, c);
      TargetIsNotFake(r, memory, fakes, i);
    }
  }

  /** Nothing fake comes from outside: not from tables that a failed load, a failed reload or a stop leaves, and not
      from a command that was cut short. */
  predicate BringsNoFake(e: Event, fakes: seq<Entry>) {
    match e
    case Stop(_) => true
    case Start(found) => found.Some? ==> Safe(found.value, fakes)
    case Pass(i) =>
      && Safe(i.env.debris, fakes) && Safe(i.env.reloadDebris, fakes)
      && (i.written.Cut? && i.written.rest.Some? ==> SafeScript([i.written.rest.value], fakes))
  }

  lemma ContentIsSafe(script: Script, w: WriteOutcome, fakes: seq<Entry>)
    requires SafeScript(script, fakes) && (w.Cut? && w.rest.Some? ==> SafeScript([w.rest.value], fakes))
    ensures SafeFile(FileContent(script, w), fakes)
  {
  }

  lemma SubmissionKeepsSafe(k: Kernel, script: Script, i: LoopInput, fakes: seq<Entry>, render: Rendering)
    requires Safe(k.ruleset, fakes) && SafeFile(k.file, fakes) && SafeScript(script, fakes)
    requires BringsNoFake(Pass(i), fakes)
    ensures var k' := Submitted(k, script, i, render).0; Safe(k'.ruleset, fakes) && SafeFile(k'.file, fakes)
  {
    ContentIsSafe(script, i.written, fakes);
    AppliedIsSafe(k.ruleset, Handed(k, script, i), i.env, fakes);
  }

  lemma StopIsSafe(rs: Ruleset, stop: StopRun, fakes: seq<Entry>)
    requires Safe(rs, fakes)
    ensures Safe(Stopped(rs, stop), fakes)
  {
    forall key | key in Stopped(rs, stop) && Managed(key) ensures SafeTable(Stopped(rs, stop)[key], fakes) {
      StoppedAt(rs, stop, key);
    }
  }

  lemma EventKeepsSafe(s: LoopState, e: Event, fakes: seq<Entry>, render: Rendering)
    requires Safe(s.kernel.ruleset, fakes) && SafeFile(s.kernel.file, fakes) && Clean(s.cache, fakes)
    requires PassRejects(e, fakes) && BringsNoFake(e, fakes)
    ensures var k' := Stepped(s, e, render).kernel; Safe(k'.ruleset, fakes) && SafeFile(k'.file, fakes)
  {
    if e.Stop? {
      StopIsSafe(s.kernel.ruleset, e.run, fakes);
    } else if e.Start? {
      if e.found.Some? {
        LeftoverIsSafe(s.kernel.ruleset, e.found.value, fakes);
      }
    } else if s.kernel.running && Built(e.i, s.cache).Some? {
      MemoryIsClean(e.i.round, s.cache, fakes);
      BuiltIsSafe(e.i.round, e.i.round.Memory(s.cache), fakes);
      SubmissionKeepsSafe(s.kernel, Built(e.i, s.cache).value, e.i, fakes, render);
    }
  }

  lemma {:induction false} CacheStaysClean(k: Kernel, cache: seq<LastGoodRule>, events: seq<Event>, fakes: seq<Entry>,
                                           render: Rendering)
    requires Clean(cache, fakes) && forall e :: e in events ==> PassRejects(e, fakes)
    ensures CleanRun(Reached(Initial(k, cache), events, render), fakes)
  {
    if events != [] {
      var rest, e := events[..|events| - 1], events[|events| - 1];
      assert e in events && forall x :: x in rest ==> x in events;
      CacheStaysClean(k, cache, rest, fakes, render);
      EventKeepsClean(Reached(Initial(k, cache), rest, render), e, fakes, render);
    }
  }

  /** No new packet is translated to an address inside the prefixes. */
  ghost predicate NeverToFake(rs: Ruleset, fakes: seq<Entry>) {
    forall p: Packet ::
      var v := KernelPrerouting(rs, p);
      v.Translated? && v.action.Dnat? ==> !CoversAny(fakes, v.action.ip)
  }

  lemma SafeMeansNeverToFake(rs: Ruleset, fakes: seq<Entry>)
    requires Safe(rs, fakes)
    ensures NeverToFake(rs, fakes)
  {
    forall p: Packet ensures var v := KernelPrerouting(rs, p);
                             v.Translated? && v.action.Dnat? ==> !CoversAny(fakes, v.action.ip)
    {
      SafeKernel(rs, fakes, p);
    }
  }

  lemma {:induction false} SafeRun(k: Kernel, cache: seq<LastGoodRule>, events: seq<Event>, fakes: seq<Entry>,
                                   render: Rendering)
    requires Safe(k.ruleset, fakes) && SafeFile(k.file, fakes) && Clean(cache, fakes)
    requires forall e :: e in events ==> PassRejects(e, fakes) && BringsNoFake(e, fakes)
    ensures var k' := Reached(Initial(k, cache), events, render).kernel;
            Safe(k'.ruleset, fakes) && SafeFile(k'.file, fakes)
  {
    if events != [] {
      var rest, e := events[..|events| - 1], events[|events| - 1];
      assert e in events && forall x :: x in rest ==> x in events;
      SafeRun(k, cache, rest, fakes, render);
      CacheStaysClean(k, cache, rest, fakes, render);
      EventKeepsSafe(Reached(Initial(k, cache), rest, render), e, fakes, render);
    }
  }

  /** With fake addresses rejected under the same prefixes throughout: in every state of every run, running or stopped,
      whichever writes, loads and rollbacks fail, no new packet is translated to a fake address, provided none comes
      with the first tables, file and cache or from outside. */
  lemma KernelNeverTranslatesToFake(k: Kernel, cache: seq<LastGoodRule>, events: seq<Event>, fakes: seq<Entry>,
                                    render: Rendering)
    requires Safe(k.ruleset, fakes) && SafeFile(k.file, fakes) && Clean(cache, fakes)
    requires forall e :: e in events ==> PassRejects(e, fakes) && BringsNoFake(e, fakes)
    ensures NeverToFake(Reached(Initial(k, cache), events, render).kernel.ruleset, fakes)
  {
    SafeRun(k, cache, events, fakes, render);
    SafeMeansNeverToFake(Reached(Initial(k, cache), events, render).kernel.ruleset, fakes);
  }

  lemma InForceIsSafe(script: Script, t: Option<Ruleset>, rs: Ruleset, fakes: seq<Entry>)
    requires Installs(script, t) && SafeScript(script, fakes) && InForce(script, rs)
    ensures Safe(rs, fakes)
  {
    assert Run(script, map[]) == Some(Others(map[]) + t.value);
    RunKeepsSafe(script, map[], fakes);
    assert rs == Others(rs) + t.value;
    forall key | key in rs && Managed(key) ensures SafeTable(rs[key], fakes) {
      assert key in t.value && rs[key] == (Others(map[]) + t.value)[key];
    }
  }

  /** A process that remembers a hash translates to no fake address whatever the tables were at the start and whatever
      failures and stops left in between: what it installed has replaced them. */
  lemma RememberedHashIsSafe(k: Kernel, cache: seq<LastGoodRule>, events: seq<Event>, fakes: seq<Entry>,
                             render: Rendering)
    requires Traceable(k, events, false) && Clean(cache, fakes) && forall e :: e in events ==> PassRejects(e, fakes)
    ensures var k' := Reached(Initial(k, cache), events, render).kernel;
            k'.running && k'.latest.Some? ==> NeverToFake(k'.ruleset, fakes)
  {
    var s := Reached(Initial(k, cache), events, render);
    TablesComeFromPass(k, cache, events, false, render);
    CacheStaysClean(k, cache, events, fakes, render);
    if s.kernel.running && s.kernel.latest.Some? {
      var n: nat :| Current(s, n, false, render);
      var r := s.passes[n];
      assert r in s.passes;
      BuiltInstalls(r.round, r.memory);
      BuiltIsSafe(r.round, r.memory, fakes);
      InForceIsSafe(r.script.value, TablesOf(r.round, r.memory), s.kernel.ruleset, fakes);
      SafeMeansNeverToFake(s.kernel.ruleset, fakes);
    }
  }

  // ---------------------------------------------------------------- where translated connections go

  function Rounds(passes: seq<Record>): (rounds: seq<CacheRound>)
    ensures |rounds| == |passes| && forall n :: 0 <= n < |passes| ==> rounds[n] == passes[n].round
  {
    seq(|passes|, n requires 0 <= n < |passes| => passes[n].round)
  }

  /** From an empty cache, the cache and the memory of each pass are those of the run of rounds before. */
  ghost predicate CacheIsHistory(passes: seq<Record>, cache: seq<LastGoodRule>) {
    && cache == FileAfter(Rounds(passes))
    && forall n :: 0 <= n < |passes| ==> passes[n].memory == passes[n].round.Memory(FileAfter(Rounds(passes[..n])))
  }

  lemma HistoryGrows(passes: seq<Record>, cache: seq<LastGoodRule>, r: Record)
    requires CacheIsHistory(passes, cache) && r.memory == r.round.Memory(cache)
    ensures CacheIsHistory(passes + [r], r.round.Next(cache))
  {
    var longer, last := passes + [r], |passes|;
    assert longer[..last] == passes;
    assert Rounds(longer)[..last] == Rounds(passes);
    forall n | 0 <= n < |longer| ensures longer[n].memory == longer[n].round.Memory(FileAfter(Rounds(longer[..n]))) {
      if n < last {
        assert longer[n] == passes[n] && longer[..n] == passes[..n];
      }
    }
  }

  lemma {:induction false} RunIsHistory(k: Kernel, events: seq<Event>, render: Rendering)
    ensures var s := Reached(Initial(k, []), events, render); CacheIsHistory(s.passes, s.cache)
  {
    if events != [] {
      var rest, e := events[..|events| - 1], events[|events| - 1];
      RunIsHistory(k, rest, render);
      var s := Reached(Initial(k, []), rest, render);
      var s' := Stepped(s, e, render);
      if e.Pass? && s.kernel.running {
        HistoryGrows(s.passes, s.cache, s'.passes[|s.passes|]);
      }
    }
  }

  /** A live answer gave the rule the address in the round itself, or gave it to its key in an earlier one. */
  ghost predicate ResolvedFor(earlier: seq<CacheRound>, r: CacheRound, cell: NftCell, answer: Answer, ip: Ip) {
    (cell.Single? || cell.Range?)
    && (RemoteIp(cell.domain, cell.ipVersion, r.st.dns, answer) == Success(ip)
        || (Cacheable(cell) && exists m :: 0 <= m < |earlier| && Learns(earlier[m], RuleKey(cell).value, ip)))
  }

  /** The same for the rule at position i of pass n. */
  ghost predicate ResolvedInRun(s: LoopState, n: nat, i: nat, ip: Ip) {
    && n < |s.passes| && i < |s.passes[n].round.cells| && s.passes[n].round.cells[i].Rule?
    && ResolvedFor(Rounds(s.passes[..n]), s.passes[n].round, s.passes[n].round.cells[i].cell,
                   s.passes[n].round.answers(i), ip)
  }

  lemma TranslatedByFirst(r: Round, p: Packet) returns (i: nat)
    requires PreroutingPolicy(r, p).Translated?
    ensures FirstServing(r, p, i) && PreroutingPolicy(r, p).action == r.Service(i, FamilyOf(p.src)).value
  {
    if j :| 0 <= j < |r.cells| && r.Serves(j, p) {
      i := FirstServingExists(r, p, j);
      PolicyOfFirst(r, p, i);
    } else {
      PolicyWithoutService(r, p);
      assert false;
    }
  }

  lemma ServiceTarget(r: Round, i: nat, f: Family)
    requires i < |r.cells| && r.Service(i, f).Some? && r.Service(i, f).value.Dnat?
    ensures r.cells[i].Rule? && (r.cells[i].cell.Single? || r.cells[i].cell.Range?)
    ensures CellTarget(r.cells[i].cell, r.st, r.cache, r.answers(i)) == Some(r.Service(i, f).value.ip)
  {
  }

  lemma TargetOrigin(rounds: seq<CacheRound>, r: CacheRound, cell: NftCell, answer: Answer, ip: Ip)
    requires (cell.Single? || cell.Range?) && CellTarget(cell, r.st, r.Memory(FileAfter(rounds)), answer) == Some(ip)
    ensures ResolvedFor(rounds, r, cell, answer, ip)
  {
    if RemoteIp(cell.domain, cell.ipVersion, r.st.dns, answer).Failure? {
      var m := CachedTargetWasLearned(rounds, r, cell, answer, ip);
    }
  }

  lemma TargetWasResolved(s: LoopState, n: nat, i: nat, f: Family)
    requires CacheIsHistory(s.passes, s.cache) && n < |s.passes| && i < |s.passes[n].round.cells|
    requires PassOf(s.passes[n]).Service(i, f).Some? && PassOf(s.passes[n]).Service(i, f).value.Dnat?
    ensures ResolvedInRun(s, n, i, PassOf(s.passes[n]).Service(i, f).value.ip)
  {
    var r := s.passes[n].round;
    ServiceTarget(PassOf(s.passes[n]), i, f);
    TargetOrigin(Rounds(s.passes[..n]), r, r.cells[i].cell, r.answers(i), PassOf(s.passes[n]).Service(i, f).value.ip);
  }

  lemma TranslatedHasOrigin(s: LoopState, n: nat, p: Packet) returns (i: nat)
    requires CacheIsHistory(s.passes, s.cache) && n < |s.passes|
    requires var v := PreroutingPolicy(PassOf(s.passes[n]), p); v.Translated? && v.action.Dnat?
    ensures FirstServing(PassOf(s.passes[n]), p, i)
    ensures ResolvedInRun(s, n, i, PreroutingPolicy(PassOf(s.passes[n]), p).action.ip)
  {
    i := TranslatedByFirst(PassOf(s.passes[n]), p);
    TargetWasResolved(s, n, i, FamilyOf(p.src));
  }

  /** From an empty cache: whatever a process that remembers a hash translates to was resolved live, for the rule that
      takes the packet, in the pass in force or for its key in an earlier one. */
  lemma TranslationWasResolved(k: Kernel, events: seq<Event>, render: Rendering, p: Packet)
    requires Traceable(k, events, false) && p.ct == NewConnection
    ensures var s := Reached(Initial(k, []), events, render);
            var v := KernelPrerouting(s.kernel.ruleset, p);
            s.kernel.running && s.kernel.latest.Some? && v.Translated? && v.action.Dnat? ==>
              exists n: nat, i: nat :: Current(s, n, false, render) && FirstServing(PassOf(s.passes[n]), p, i)
                                       && ResolvedInRun(s, n, i, v.action.ip)
  {
    var s := Reached(Initial(k, []), events, render);
    var v := KernelPrerouting(s.kernel.ruleset, p);
    if s.kernel.running && s.kernel.latest.Some? && v.Translated? && v.action.Dnat? {
      KernelKeepsToPolicy(k, [], events, false, render);
      RunIsHistory(k, events, render);
      var n: nat :| Current(s, n, false, render) && KeepsTo(s.kernel.ruleset, PassOf(s.passes[n]));
      assert Agrees(s.kernel.ruleset, PassOf(s.passes[n]), p);
      var i := TranslatedHasOrigin(s, n, p);
    }
  }
}
