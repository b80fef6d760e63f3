/** What whole runs of the service keep: passes that succeed, fail or do nothing, stops, and new starts. */
module LoopLaws {
  import opened Wrappers
  import opened Bits
  import opened Net
  import opened Cells
  import opened LastGood
  import opened Nft
  import opened Compiler
  import opened Refusal
  import opened Transaction
  import opened Policy
  import opened PreroutingMeaning
  import opened Connections
  import opened CacheRuns
  import opened TargetSafety
  import opened ScriptHash
  import opened SafeApply
  import opened StopCommand
  import opened Daemon

  // ---------------------------------------------------------------- runs

  datatype Event = Pass(i: LoopInput) | Stop(run: StopRun) | Start(found: Option<Ruleset>)

  /** A pass that was made: the cache round it amounts to, the entries in memory during the build, and the script if
      one was built. */
  datatype Record = Record(round: CacheRound, memory: seq<LastGoodRule>, script: Option<Script>)

  /** started: how many passes earlier processes made. */
  datatype LoopState = LoopState(kernel: Kernel, cache: seq<LastGoodRule>, passes: seq<Record>, started: nat)

  function Initial(k: Kernel, cache: seq<LastGoodRule>): LoopState {
    LoopState(k, cache, [], 0)
  }

  function Stepped(s: LoopState, e: Event, render: Rendering): LoopState {
    match e
    case Stop(run) => s.(kernel := Ended(s.kernel, run))
    case Start(found) => s.(kernel := Started(s.kernel, found), started := |s.passes|)
    case Pass(i) =>
      if !s.kernel.running then s
      else
        var script := Built(i, s.cache);
        var (k, applied) := AfterBuild(s.kernel, script, i, render);
        var r := i.round.(applied := applied);
        LoopState(k, r.Next(s.cache), s.passes + [Record(r, r.Memory(s.cache), script)], s.started)
  }

  function Reached(start: LoopState, events: seq<Event>, render: Rendering): LoopState {
    if events == [] then start
    else Stepped(Reached(start, events[..|events| - 1], render), events[|events| - 1], render)
  }

  /** The service, from any kernel, script file and cache, through any passes, stops and starts. */
  method RunLoop(loop: Loop, events: seq<Event>)
    modifies loop, loop.host, loop.cache
    ensures var s := Reached(Initial(old(loop.View()), old(loop.cache.stored)), events, loop.render);
            loop.View() == s.kernel && loop.cache.stored == s.cache
  {
    ghost var start := Initial(loop.View(), loop.cache.stored);
    for n := 0 to |events|
      invariant loop.View() == Reached(start, events[..n], loop.render).kernel
      invariant loop.cache.stored == Reached(start, events[..n], loop.render).cache
    {
      assert events[..n + 1][..n] == events[..n];
      match events[n] {
        case Stop(run) =>
          loop.Stop(run);
        case Start(found) =>
          loop.Start(found);
        case Pass(i) =>
          if loop.running {
            var _ := loop.RunRound(i);
          }
      }
    }
    assert events[..|events|] == events;
  }

  // ---------------------------------------------------------------- scripts in force

  /** The tables are as the script leaves them: running it again would change nothing. */
  predicate InForce(script: Script, rs: Ruleset) {
    Run(script, rs) == Some(rs)
  }

  /** The script never loads, or it replaces the managed tables by t, whatever was there. */
  ghost predicate Installs(script: Script, t: Option<Ruleset>) {
    && (t.Some? ==> forall key :: key in t.value ==> Managed(key))
    && forall rs :: Run(script, rs) == if t.None? then None else Some(Others(rs) + t.value)
  }

  /** The tables the script of a round installs, if it loads. */
  function TablesOf(r: CacheRound, memory: seq<LastGoodRule>): Option<Ruleset> {
    if Loads(r.cells, r.answers, r.st, memory) then Some(Installed(r.st, AllOuts(r.cells, r.answers, r.st, memory)))
    else None
  }

  lemma OverManaged(rs: Ruleset, t: Ruleset)
    requires forall key :: key in t <==> Managed(key)
    ensures rs + t == Others(rs) + t
  {
  }

  lemma BuiltInstalls(r: CacheRound, memory: seq<LastGoodRule>)
    ensures Installs(ScriptOf(r.cells, r.answers, r.st, memory), TablesOf(r, memory))
  {
    var t := Installed(r.st, AllOuts(r.cells, r.answers, r.st, memory));
    InstalledKeys(r.st, AllOuts(r.cells, r.answers, r.st, memory));
    forall rs ensures Run(ScriptOf(r.cells, r.answers, r.st, memory), rs)
                      == if Loads(r.cells, r.answers, r.st, memory) then Some(Others(rs) + t) else None
    {
      ScriptEffect(r.cells, r.answers, r.st, memory, rs);
      OverManaged(rs, t);
    }
  }

  /** Whatever such a script leaves, it is then in force. */
  lemma RunTakesForce(script: Script, t: Option<Ruleset>, rs: Ruleset)
    requires Installs(script, t)
    ensures OnlyManaged(script)
    ensures Run(script, rs).Some? ==> InForce(script, Run(script, rs).value)
    ensures Run(script, rs).Some? <==> t.Some?
  {
    if t.Some? {
      forall x ensures Others(Others(x) + t.value) == Others(x) {}
      assert Run(script, rs) == Some(Others(rs) + t.value);
    }
  }

  lemma SameOthersSameRun(script: Script, t: Option<Ruleset>, rs: Ruleset, rs': Ruleset)
    requires Installs(script, t) && Others(rs) == Others(rs')
    ensures Run(script, rs) == Run(script, rs')
  {
  }

  // ---------------------------------------------------------------- one submission

  function HashOf(i: LoopInput, script: Script, render: Rendering): U64 {
    Hash(render(i.round.cells, script))
  }

  /** What the file holds when it is handed to nft. */
  function Handed(k: Kernel, script: Script, i: LoopInput): Option<Script> {
    if i.fileCreated then Some(script) else k.file
  }

  lemma AppliedMeans(rs: Ruleset, file: Option<Script>, env: Environment)
    ensures var (after, ok) := Applied(rs, file, env);
            ok ==> file.Some? && Run(file.value, rs) == Some(after)
  {
  }

  /** The process goes on exactly if the hash is the remembered one, which changes nothing, or the script was applied:
      then its hash is remembered and the file's content has been loaded. */
  lemma SubmissionInForce(k: Kernel, i: LoopInput, script: Script, t: Option<Ruleset>, render: Rendering)
    requires k.running && Installs(script, t)
    ensures var (k', applied) := Submitted(k, script, i, render);
            && (k'.running ==> k'.latest == Some(HashOf(i, script, render)))
            && (k'.running && !applied ==> k' == k)
            && (applied ==> k'.running && Handed(k, script, i).Some?
                            && Run(Handed(k, script, i).value, k.ruleset) == Some(k'.ruleset))
            && (applied && i.fileCreated ==> InForce(script, k'.ruleset))
            && (!k'.running ==> k'.latest == k.latest)
  {
    AppliedMeans(k.ruleset, Handed(k, script, i), i.env);
    RunTakesForce(script, t, k.ruleset);
  }

  /** After an apply the remembered hash names the tables in force exactly if the script file was created or the old
      file has the same effect. */
  lemma HashIsHonestIff(k: Kernel, i: LoopInput, script: Script, t: Option<Ruleset>, render: Rendering)
    requires Installs(script, t) && Submitted(k, script, i, render).1
    requires k.file.Some? ==> OnlyManaged(k.file.value)
    ensures var k' := Submitted(k, script, i, render).0;
            InForce(script, k'.ruleset)
            <==> i.fileCreated || Run(k.file.value, k.ruleset) == Run(script, k.ruleset)
  {
    var k' := Submitted(k, script, i, render).0;
    AppliedMeans(k.ruleset, Handed(k, script, i), i.env);
    RunTakesForce(script, t, k.ruleset);
    if !i.fileCreated {
      assert Run(k.file.value, k.ruleset) == Some(k'.ruleset);
      SameOthersSameRun(script, t, k.ruleset, k'.ruleset);
    }
  }

  function Resubmitted(k: Kernel, script: Script, later: seq<LoopInput>, render: Rendering): Kernel {
    if later == [] then k
    else Submitted(Resubmitted(k, script, later[..|later| - 1], render), script, later[|later| - 1], render).0
  }

  /** In that case the same script is skipped from then on, and the tables stay as they are. */
  lemma {:induction false} StaleTablesStay(k: Kernel, i: LoopInput, script: Script, later: seq<LoopInput>,
                                           render: Rendering)
    requires Submitted(k, script, i, render).1
    requires forall n :: 0 <= n < |later| ==> later[n].prepared && later[n].round.cells == i.round.cells
    ensures var k' := Submitted(k, script, i, render).0; Resubmitted(k', script, later, render) == k'
  {
    if later != [] {
      StaleTablesStay(k, i, script, later[..|later| - 1], render);
    }
  }

  predicate OneByteApart(s: seq<Byte>, t: seq<Byte>) {
    |s| == |t| && exists n :: 0 <= n < |s| && s[n] != t[n] && forall m :: 0 <= m < |s| && m != n ==> s[m] == t[m]
  }

  /** A script whose text differs in one byte from the one remembered is always handed to nft. */
  lemma OneByteChangeIsSubmitted(k: Kernel, script: Script, i: LoopInput, previous: seq<Byte>, render: Rendering)
    requires k.latest == Some(Hash(previous)) && OneByteApart(previous, render(i.round.cells, script))
    requires i.prepared && i.fileCreated && i.written.Whole?
    ensures var (k', applied) := Submitted(k, script, i, render);
            && (k'.ruleset, applied) == Applied(k.ruleset, Some(script), i.env)
            && k'.file == Some(script) && k'.running == applied
  {
    var text := render(i.round.cells, script);
    var n :| 0 <= n < |text| && previous[n] != text[n]
             && forall m :: 0 <= m < |text| && m != n ==> previous[m] == text[m];
    OneByteChangeIsSeen(previous, text, n);
  }

  // ---------------------------------------------------------------- what every run keeps

  /** The script of the pass was built from its own round and memory. */
  predicate OwnScript(r: Record) {
    r.script.Some? ==> Builds(r.round.cells, r.round.answers, r.round.st, r.memory)
                       && r.script.value == ScriptOf(r.round.cells, r.round.answers, r.round.st, r.memory)
  }

  ghost predicate OwnScripts(s: LoopState) {
    forall r :: r in s.passes ==> OwnScript(r)
  }

  lemma OwnScriptsStepped(s: LoopState, e: Event, render: Rendering)
    requires OwnScripts(s)
    ensures OwnScripts(Stepped(s, e, render))
  {
  }

  /** The script of pass n is in force; named: its hash is the remembered one. */
  predicate Current(s: LoopState, n: nat, named: bool, render: Rendering) {
    && n < |s.passes| && s.passes[n].script.Some?
    && InForce(s.passes[n].script.value, s.kernel.ruleset)
    && (named ==> s.kernel.latest == Some(Hash(render(s.passes[n].round.cells, s.passes[n].script.value))))
  }

  /** A process that remembers a hash runs with the tables of some pass. */
  ghost predicate FromPass(s: LoopState, named: bool, render: Rendering) {
    s.kernel.running && s.kernel.latest.Some? ==> exists n: nat :: Current(s, n, named, render)
  }

  /** The script file is missing, unreadable, or holds the script of some pass. */
  ghost predicate FileFromPass(s: LoopState) {
    s.kernel.file.Some? ==> exists r :: r in s.passes && r.script == s.kernel.file
  }

  predicate Created(e: Event) {
    e.Pass? ==> e.i.fileCreated
  }

  /** No script text is cut short into another one that nft can read. */
  predicate NotCut(e: Event) {
    e.Pass? && e.i.fileCreated ==> !e.i.written.Cut?
  }

  lemma FileStepped(s: LoopState, e: Event, render: Rendering)
    requires FileFromPass(s) && NotCut(e)
    ensures FileFromPass(Stepped(s, e, render))
  {
    var s' := Stepped(s, e, render);
    if e.Pass? && s.kernel.running {
      assert s'.passes[|s.passes|] in s'.passes;
      if s.kernel.file.Some? {
        var r :| r in s.passes && r.script == s.kernel.file;
        assert r in s'.passes;
      }
    }
  }

  /** A pass that applies a script: the file's content was loaded. */
  lemma PassLoads(s: LoopState, i: LoopInput, render: Rendering)
    requires s.kernel.running && OwnScripts(s) && Built(i, s.cache).Some?
    requires AfterBuild(s.kernel, Built(i, s.cache), i, render).1
    ensures var k' := Stepped(s, Pass(i), render).kernel;
            var handed := Handed(s.kernel, Built(i, s.cache).value, i);
            && handed.Some? && Run(handed.value, s.kernel.ruleset) == Some(k'.ruleset)
            && k'.latest == Some(HashOf(i, Built(i, s.cache).value, render))
  {
    BuiltInstalls(i.round, i.round.Memory(s.cache));
    SubmissionInForce(s.kernel, i, Built(i, s.cache).value, TablesOf(i.round, i.round.Memory(s.cache)), render);
  }

  lemma OwnScriptTakesForce(r: Record, rs: Ruleset)
    requires OwnScript(r) && r.script.Some? && Run(r.script.value, rs).Some?
    ensures InForce(r.script.value, Run(r.script.value, rs).value)
  {
    BuiltInstalls(r.round, r.memory);
    RunTakesForce(r.script.value, TablesOf(r.round, r.memory), rs);
  }

  lemma FromPassStepped(s: LoopState, e: Event, named: bool, render: Rendering)
    requires OwnScripts(s) && FromPass(s, named, render)
             && (if named then Created(e) else FileFromPass(s) || Created(e))
    ensures FromPass(Stepped(s, e, render), named, render)
  {
    var s' := Stepped(s, e, render);
    if e.Pass? && s'.kernel.running && s'.kernel.latest.Some? {
      var script := Built(e.i, s.cache);
      if AfterBuild(s.kernel, script, e.i, render).1 {
        PassLoads(s, e.i, render);
        LoadedIsCurrent(s, e.i, named, render);
      } else {
        assert s'.kernel == s.kernel;
        var n: nat :| Current(s, n, named, render);
        assert Current(s', n, named, render);
      }
    }
  }

  /** The pass of the run whose script was handed to nft: this one, or the one the old file is from. */
  lemma HandedIsFromPass(s: LoopState, i: LoopInput, render: Rendering) returns (n: nat)
    requires s.kernel.running && Built(i, s.cache).Some? && Handed(s.kernel, Built(i, s.cache).value, i).Some?
    requires FileFromPass(s) || i.fileCreated
    ensures var s' := Stepped(s, Pass(i), render);
            n < |s'.passes| && s'.passes[n].script == Handed(s.kernel, Built(i, s.cache).value, i)
    ensures i.fileCreated ==> n == |s.passes|
  {
    n := |s.passes|;
    if !i.fileCreated {
      var r :| r in s.passes && r.script == s.kernel.file;
      n :| 0 <= n < |s.passes| && s.passes[n] == r;
    }
  }

  lemma LoadedIsCurrent(s: LoopState, i: LoopInput, named: bool, render: Rendering)
    requires OwnScripts(s) && s.kernel.running && Built(i, s.cache).Some?
    requires AfterBuild(s.kernel, Built(i, s.cache), i, render).1
    requires if named then i.fileCreated else FileFromPass(s) || i.fileCreated
    ensures exists n: nat :: Current(Stepped(s, Pass(i), render), n, named, render)
  {
    var s' := Stepped(s, Pass(i), render);
    PassLoads(s, i, render);
    OwnScriptsStepped(s, Pass(i), render);
    var n := HandedIsFromPass(s, i, render);
    assert s'.passes[n] in s'.passes;
    OwnScriptTakesForce(s'.passes[n], s.kernel.ruleset);
    assert Current(s', n, named, render);
  }

  /** How a run starts and how writing goes: either every script file can be created, or there is none at first and
      no text is cut short into another readable one. */
  ghost predicate Traceable(k: Kernel, events: seq<Event>, named: bool) {
    && k.latest.None?
    && if named then forall e :: e in events ==> Created(e)
       else (forall e :: e in events ==> Created(e)) || (k.file.None? && forall e :: e in events ==> NotCut(e))
  }

  /** Over every run, across failures, stops and starts and from every cache: the tables of a process that remembers a
      hash are those of some pass; if the script file can always be created, that pass's script has the hash. */
  lemma {:induction false} TablesComeFromPass(k: Kernel, cache: seq<LastGoodRule>, events: seq<Event>, named: bool,
                                              render: Rendering)
    requires Traceable(k, events, named)
    ensures var s := Reached(Initial(k, cache), events, render);
            && OwnScripts(s) && FromPass(s, named, render)
            && (k.file.None? && (forall e :: e in events ==> NotCut(e)) ==> FileFromPass(s))
  {
    if events != [] {
      var rest, e := events[..|events| - 1], events[|events| - 1];
      var s := Reached(Initial(k, cache), rest, render);
      assert e in events;
      assert forall x :: x in rest ==> x in events;
      TablesComeFromPass(k, cache, rest, named, render);
      OwnScriptsStepped(s, e, render);
      FromPassStepped(s, e, named, render);
      if k.file.None? && forall x :: x in events ==> NotCut(x) {
        FileStepped(s, e, render);
      }
    }
  }

  // ---------------------------------------------------------------- the policy in force

  function PassOf(r: Record): Round {
    Round(r.round.cells, r.round.answers, r.round.st, r.memory)
  }

  lemma InForceMeansPolicy(r: Record, rs: Ruleset)
    requires OwnScript(r) && r.script.Some? && InForce(r.script.value, rs)
    ensures rs == After(PassOf(r), rs) && KeepsTo(rs, PassOf(r))
  {
    AfterRun(PassOf(r), rs);
    RoundIsKept(PassOf(r), rs);
  }

  /** Over every run, across failures, stops and starts and from every cache: the kernel of a process that remembers a
      hash treats each packet, on every hook, as the policy of some pass of the run; if the script file can always be
      created, of the pass whose script has the hash. */
  lemma KernelKeepsToPolicy(k: Kernel, cache: seq<LastGoodRule>, events: seq<Event>, named: bool, render: Rendering)
    requires Traceable(k, events, named)
    ensures var s := Reached(Initial(k, cache), events, render);
            s.kernel.running && s.kernel.latest.Some? ==>
              exists n: nat :: Current(s, n, named, render) && KeepsTo(s.kernel.ruleset, PassOf(s.passes[n]))
  {
    var s := Reached(Initial(k, cache), events, render);
    TablesComeFromPass(k, cache, events, named, render);
    if s.kernel.running && s.kernel.latest.Some? {
      var n: nat :| Current(s, n, named, render);
      assert s.passes[n] in s.passes;
      InForceMeansPolicy(s.passes[n], s.kernel.ruleset);
    }
  }

  /** So the fate of every new connection, from translation to source NAT, is what the policy of that pass says. */
  lemma ConnectionsKeepToPolicy(k: Kernel, cache: seq<LastGoodRule>, events: seq<Event>, named: bool, render: Rendering)
    requires Traceable(k, events, named)
    ensures var s := Reached(Initial(k, cache), events, render);
            s.kernel.running && s.kernel.latest.Some? ==>
              exists n: nat :: Current(s, n, named, render) && FatesAreKept(s.kernel.ruleset, PassOf(s.passes[n]))
  {
    var s := Reached(Initial(k, cache), events, render);
    KernelKeepsToPolicy(k, cache, events, named, render);
    if s.kernel.running && s.kernel.latest.Some? {
      var n: nat :| Current(s, n, named, render) && KeepsTo(s.kernel.ruleset, PassOf(s.passes[n]));
      KeptFates(s.kernel.ruleset, PassOf(s.passes[n]));
    }
  }

  // ---------------------------------------------------------------- what the process remembers

  /** The hash of the newest script built since pass number `from`. */
  function NewestHash(passes: seq<Record>, from: nat, render: Rendering): Option<U64> {
    if |passes| <= from then None
    else
      var r := passes[|passes| - 1];
      if r.script.Some? then Some(Hash(render(r.round.cells, r.script.value)))
      else NewestHash(passes[..|passes| - 1], from, render)
  }

  lemma PassRemembers(s: LoopState, i: LoopInput, render: Rendering)
    requires s.kernel.running && s.started <= |s.passes|
    requires s.kernel.latest == NewestHash(s.passes, s.started, render)
    ensures var s' := Stepped(s, Pass(i), render);
            s'.kernel.running ==> s'.kernel.latest == NewestHash(s'.passes, s'.started, render)
  {
    var s', script := Stepped(s, Pass(i), render), Built(i, s.cache);
    assert s'.passes[..|s.passes|] == s.passes;
    if script.Some? {
      BuiltInstalls(i.round, i.round.Memory(s.cache));
      SubmissionInForce(s.kernel, i, script.value, TablesOf(i.round, i.round.Memory(s.cache)), render);
    }
  }

  /** Over every run: a running process remembers exactly the hash of the newest script it built, and none if it has
      built none. */
  lemma {:induction false} NewestBuildIsRemembered(k: Kernel, cache: seq<LastGoodRule>, events: seq<Event>,
                                                   render: Rendering)
    requires k.latest.None?
    ensures var s := Reached(Initial(k, cache), events, render);
            && s.started <= |s.passes|
            && (s.kernel.running ==> s.kernel.latest == NewestHash(s.passes, s.started, render))
  {
    if events != [] {
      var rest, e := events[..|events| - 1], events[|events| - 1];
      NewestBuildIsRemembered(k, cache, rest, render);
      var s := Reached(Initial(k, cache), rest, render);
      if e.Pass? && s.kernel.running {
        PassRemembers(s, e.i, render);
      }
    }
  }

  // ---------------------------------------------------------------- progress

  /** Whatever the script, the pass itself goes well: every process and write works. */
  predicate Healthy(i: LoopInput) {
    && i.sourcesRead && i.prepared && i.fileCreated && i.written.Whole?
    && i.env.checkPasses && i.env.rulesetSaved && i.env.loadRuns && i.env.loadAccepted
  }

  lemma HealthySubmission(k: Kernel, i: LoopInput, script: Script, t: Option<Ruleset>, render: Rendering)
    requires k.running && Healthy(i) && Installs(script, t)
    ensures var (k', applied) := Submitted(k, script, i, render);
            if k.latest == Some(HashOf(i, script, render)) then k' == k && !applied
            else if t.Some? then k' == Kernel(Others(k.ruleset) + t.value, Some(script),
                                              Some(HashOf(i, script, render)), true) && applied
            else k' == k.(file := Some(script), running := false) && !applied
  {
  }

  /** Progress: in a healthy pass a script that was built is skipped if its hash is the one remembered, and comes into
      force otherwise; only a refused cell ends the process, and the tables stay as they are until the stop command. */
  lemma HealthyPassTakesEffect(s: LoopState, i: LoopInput, render: Rendering)
    requires s.kernel.running && Healthy(i) && Built(i, s.cache).Some?
    ensures var script := Built(i, s.cache).value;
            var h := HashOf(i, script, render);
            var k' := Stepped(s, Pass(i), render).kernel;
            && (k'.running <==>
                s.kernel.latest == Some(h)
                || Loads(i.round.cells, i.round.answers, i.round.st, i.round.Memory(s.cache)))
            && (k'.running ==> k'.latest == Some(h))
            && (s.kernel.latest != Some(h) && k'.running ==> InForce(script, k'.ruleset) && k'.file == Some(script))
            && (s.kernel.latest == Some(h) || !k'.running ==> k'.ruleset == s.kernel.ruleset)
  {
    var script, t := Built(i, s.cache).value, TablesOf(i.round, i.round.Memory(s.cache));
    BuiltInstalls(i.round, i.round.Memory(s.cache));
    HealthySubmission(s.kernel, i, script, t, render);
    RunTakesForce(script, t, s.kernel.ruleset);
  }

  // ---------------------------------------------------------------- two scripts

  function PlainSettings(): Settings {
    Settings(true, DnsConfig([], true), AccessConfig(Off, []),
             GeoIpConfig(false, false, [], false, false, 22, false), [],
             EgressConfig(false, []), SnatConfig(SnatOff, IpText("", None), None, None), MssConfig(false, 1452),
             LastGoodConfig(true, true))
  }

  function PortRedirect(from: Port, to: Port): Round {
    Round([Rule(Redirect(true, from, None, to, Tcp, Both, None))], (i: nat) => None, PlainSettings(), [])
  }

  /** Two scripts that load and have different effects, so that a file that was not written may hold other tables
      than the remembered hash says. */
  lemma GeneratedScriptsDiffer(rs: Ruleset)
    ensures var r, q := PortRedirect(80, 8080), PortRedirect(80, 9090);
            var s, t := ScriptOf(r.cells, r.answers, r.st, r.cache), ScriptOf(q.cells, q.answers, q.st, q.cache);
            && Builds(r.cells, r.answers, r.st, r.cache) && Builds(q.cells, q.answers, q.st, q.cache)
            && Run(s, rs).Some? && Run(t, rs).Some? && Run(s, rs) != Run(t, rs)
  {
    var p := Packet(Ip4(0x0a00_0001), Ip4(0x0a00_0002), TcpTransport, 40000, 80, NewConnection, true);
    RedirectInForce(80, 8080, rs, p);
    RedirectInForce(80, 9090, rs, p);
  }

  lemma RedirectBuilds(from: Port, to: Port)
    ensures var r := PortRedirect(from, to);
            Builds(r.cells, r.answers, r.st, r.cache) && Loads(r.cells, r.answers, r.st, r.cache)
  {
    var r := PortRedirect(from, to);
    OnlyFilterAddressesFail(CacheRound(r.cells, r.answers, r.st, true, true, true, true, 0), [], 0);
  }

  lemma RedirectPolicy(from: Port, to: Port, p: Packet)
    requires p.transport == TcpTransport && p.dport == from && p.src.Ip4?
    ensures PreroutingPolicy(PortRedirect(from, to), p) == Translated(0, RedirectTo(to))
  {
    var r := PortRedirect(from, to);
    assert r.Serves(0, p);
    PolicyOfFirst(r, p, 0);
    assert RuleIndex(r.cells, 0) == 0;
  }

  lemma RedirectInForce(from: Port, to: Port, rs: Ruleset, p: Packet)
    requires p.ct == NewConnection && p.transport == TcpTransport && p.dport == from && p.src.Ip4?
    ensures var r := PortRedirect(from, to);
            var after := Run(ScriptOf(r.cells, r.answers, r.st, r.cache), rs);
            && Builds(r.cells, r.answers, r.st, r.cache)
            && after.Some? && KernelPrerouting(after.value, p) == Translated(0, RedirectTo(to))
  {
    RedirectBuilds(from, to);
    RedirectPolicy(from, to, p);
    CompilationPreservesMeaning(PortRedirect(from, to), rs, p);
  }
}
