/** What becomes of a policy in force when passes fail and the process ends: the stop command takes it down. */
module LoopEndings {
  import opened Net
  import opened Nft
  import opened Compiler
  import opened Transaction
  import opened Policy
  import opened PreroutingMeaning
  import opened FilterMeaning
  import opened Connections
  import opened LastGood
  import opened SafeApply
  import opened StopCommand
  import opened Daemon
  import opened LoopLaws

  /** Some pass's script is in force. */
  ghost predicate SomeCurrent(s: LoopState, render: Rendering) {
    exists n: nat :: Current(s, n, false, render)
  }

  // ---------------------------------------------------------------- one event

  /** Besides the stop command nothing takes tables away: rollbacks work, every managed table can be listed, and a new
      process finds what the old one left. */
  ghost predicate Careful(s: LoopState, e: Event) {
    match e
    case Pass(i) => RollbackWorks(i.env) && AllListed(s.kernel.ruleset, i.env)
    case Stop(_) => true
    case Start(found) => found.None?
  }

  lemma UnappliedLeavesTables(s: LoopState, i: LoopInput, render: Rendering)
    requires s.kernel.running && Careful(s, Pass(i)) && !AfterBuild(s.kernel, Built(i, s.cache), i, render).1
    ensures Stepped(s, Pass(i), render).kernel.ruleset == s.kernel.ruleset
  {
    if Built(i, s.cache).Some? {
      AllOrNothingIff(s.kernel.ruleset, Handed(s.kernel, Built(i, s.cache).value, i), i.env);
    }
  }

  lemma CarefulPassKeeps(s: LoopState, i: LoopInput, render: Rendering)
    requires OwnScripts(s) && (FileFromPass(s) || i.fileCreated) && Careful(s, Pass(i)) && SomeCurrent(s, render)
    ensures SomeCurrent(Stepped(s, Pass(i), render), render)
  {
    var s' := Stepped(s, Pass(i), render);
    var n: nat :| Current(s, n, false, render);
    if s.kernel.running && AfterBuild(s.kernel, Built(i, s.cache), i, render).1 {
      LoadedIsCurrent(s, i, false, render);
    } else {
      if s.kernel.running {
        UnappliedLeavesTables(s, i, render);
      }
      assert Current(s', n, false, render);
    }
  }

  /** Tables in force are all there. */
  lemma CurrentIsThere(s: LoopState, n: nat, render: Rendering)
    requires OwnScripts(s) && Current(s, n, false, render)
    ensures AllThere(s.kernel.ruleset)
  {
    var r := s.passes[n];
    assert r in s.passes;
    InForceMeansPolicy(r, s.kernel.ruleset);
    InstalledKeys(r.round.st, AllOuts(r.round.cells, r.round.answers, r.round.st, r.memory));
  }

  /** A stop leaves a script in force exactly if it deletes no managed table. */
  lemma StopKeepsCurrentIff(s: LoopState, run: StopRun, render: Rendering)
    requires OwnScripts(s) && SomeCurrent(s, render)
    ensures SomeCurrent(Stepped(s, Stop(run), render), render) <==> DeletesNothing(run)
  {
    var s' := Stepped(s, Stop(run), render);
    var n: nat :| Current(s, n, false, render);
    CurrentIsThere(s, n, render);
    StopKeepsIff(s.kernel.ruleset, run);
    if DeletesNothing(run) {
      assert Current(s', n, false, render);
    } else if m: nat :| Current(s', m, false, render) {
      CurrentIsThere(s', m, render);
    }
  }

  ghost predicate Spares(e: Event) {
    e.Stop? ==> DeletesNothing(e.run)
  }

  lemma CarefulEventKeepsIff(s: LoopState, e: Event, render: Rendering)
    requires OwnScripts(s) && (FileFromPass(s) || Created(e)) && Careful(s, e) && SomeCurrent(s, render)
    ensures SomeCurrent(Stepped(s, e, render), render) <==> Spares(e)
  {
    match e
    case Pass(i) => CarefulPassKeeps(s, i, render);
    case Stop(run) => StopKeepsCurrentIff(s, run, render);
    case Start(_) =>
      var n: nat :| Current(s, n, false, render);
      assert Current(Stepped(s, e, render), n, false, render);
  }

  // ---------------------------------------------------------------- runs

  function StateAt(k: Kernel, cache: seq<LastGoodRule>, events: seq<Event>, n: nat, render: Rendering): LoopState
    requires n <= |events|
  {
    Reached(Initial(k, cache), events[..n], render)
  }

  ghost predicate CarefulFrom(k: Kernel, cache: seq<LastGoodRule>, events: seq<Event>, m: nat, render: Rendering) {
    forall n: nat :: m <= n < |events| ==> Careful(StateAt(k, cache, events, n, render), events[n])
  }

  lemma StepAt(k: Kernel, cache: seq<LastGoodRule>, events: seq<Event>, n: nat, render: Rendering)
    requires Traceable(k, events, false) && n < |events|
    ensures StateAt(k, cache, events, n + 1, render) == Stepped(StateAt(k, cache, events, n, render), events[n], render)
    ensures var s := StateAt(k, cache, events, n, render); OwnScripts(s) && (FileFromPass(s) || Created(events[n]))
  {
    assert events[..n + 1][..n] == events[..n] && events[..n + 1][n] == events[n];
    assert events[n] in events && forall e :: e in events[..n] ==> e in events;
    TablesComeFromPass(k, cache, events[..n], false, render);
  }

  /** After n events some pass's script is in force. */
  ghost predicate HeldAt(k: Kernel, cache: seq<LastGoodRule>, events: seq<Event>, n: nat, render: Rendering) {
    n <= |events| && SomeCurrent(StateAt(k, cache, events, n, render), render)
  }

  lemma HeldNextIff(k: Kernel, cache: seq<LastGoodRule>, events: seq<Event>, n: nat, render: Rendering)
    requires Traceable(k, events, false) && n < |events| && Careful(StateAt(k, cache, events, n, render), events[n])
    requires HeldAt(k, cache, events, n, render)
    ensures HeldAt(k, cache, events, n + 1, render) <==> Spares(events[n])
  {
    StepAt(k, cache, events, n, render);
    CarefulEventKeepsIff(StateAt(k, cache, events, n, render), events[n], render);
  }

  /** What one step keeps exactly on a condition, a run keeps exactly while the condition holds. */
  lemma {:induction false} KeptWhileIff(kept: nat -> bool, condition: nat -> bool, m: nat, n: nat)
    requires m <= n && kept(m)
    requires forall j :: m <= j < n && kept(j) ==> (kept(j + 1) <==> condition(j))
    ensures (forall j :: m <= j <= n ==> kept(j)) <==> (forall j :: m <= j < n ==> condition(j))
  {
    if m < n {
      KeptWhileIff(kept, condition, m, n - 1);
      if kept(n - 1) {
        assert kept(n - 1 + 1) <==> condition(n - 1);
      }
    }
  }

  /** Once some pass's script is in force, some pass's script stays in force throughout, through applied, skipped and
      failing passes, ended processes and new starts, exactly if no stop deletes a managed table. */
  lemma PolicyOutlivesIff(k: Kernel, cache: seq<LastGoodRule>, events: seq<Event>, m: nat, n: nat, render: Rendering)
    requires Traceable(k, events, false) && m <= n <= |events| && CarefulFrom(k, cache, events, m, render)
    requires HeldAt(k, cache, events, m, render)
    ensures (forall j: nat :: m <= j <= n ==> HeldAt(k, cache, events, j, render))
            <==> forall j: nat :: m <= j < n ==> Spares(events[j])
  {
    var held := (j: nat) => HeldAt(k, cache, events, j, render);
    var spared := (j: nat) => j < |events| && Spares(events[j]);
    forall j: nat | m <= j < n && held(j) ensures held(j + 1) <==> spared(j) {
      HeldNextIff(k, cache, events, j, render);
    }
    KeptWhileIff(held, spared, m, n);
    assert forall j: nat :: m <= j <= n ==> (held(j) <==> HeldAt(k, cache, events, j, render));
    assert forall j: nat :: m <= j < n ==> (spared(j) <==> Spares(events[j]));
  }

  /** While it does, the kernel keeps to the policy of some pass on every hook. */
  lemma CurrentMeansPolicy(k: Kernel, cache: seq<LastGoodRule>, events: seq<Event>, n: nat, render: Rendering)
    requires Traceable(k, events, false) && HeldAt(k, cache, events, n, render)
    ensures var s := StateAt(k, cache, events, n, render);
            exists i: nat :: Current(s, i, false, render) && KeepsTo(s.kernel.ruleset, PassOf(s.passes[i]))
  {
    var s := StateAt(k, cache, events, n, render);
    assert forall e :: e in events[..n] ==> e in events;
    TablesComeFromPass(k, cache, events[..n], false, render);
    var i: nat :| Current(s, i, false, render);
    assert s.passes[i] in s.passes;
    InForceMeansPolicy(s.passes[i], s.kernel.ruleset);
  }

  // ---------------------------------------------------------------- the stop command as shipped

  /** The kernel lets every packet through as it is. */
  ghost predicate DoesNothing(rs: Ruleset) {
    forall p: Packet ::
      && KernelPrerouting(rs, p) == Untouched && KernelPostrouting(rs, p).None?
      && KernelInput(rs, p) == NoDecision && KernelForward(rs, p) == NoDecision
  }

  lemma IdleMeansNothing(rs: Ruleset)
    requires Idle(rs)
    ensures DoesNothing(rs)
  {
    forall p: Packet
      ensures KernelPrerouting(rs, p) == Untouched && KernelPostrouting(rs, p).None?
      ensures KernelInput(rs, p) == NoDecision && KernelForward(rs, p) == NoDecision
    {
      IdleDoesNothing(rs, p);
    }
  }

  /** A rollback that works puts the tables back, but not for long: the failed apply has ended the process, and with
      that the stop command deletes them. Nothing of the policy is left. */
  lemma RollbackIsUndone(s: LoopState, i: LoopInput, run: StopRun, render: Rendering)
    requires s.kernel.running && Careful(s, Pass(i)) && !Stepped(s, Pass(i), render).kernel.running
    requires DeletesAll(run)
    ensures var ended := Stepped(s, Pass(i), render);
            var stopped := Stepped(ended, Stop(run), render);
            && ended.kernel.ruleset == s.kernel.ruleset
            && stopped.kernel.ruleset == Others(s.kernel.ruleset) && DoesNothing(stopped.kernel.ruleset)
  {
    if AfterBuild(s.kernel, Built(i, s.cache), i, render).1 {
      assert false;
    }
    UnappliedLeavesTables(s, i, render);
    StopMakesIdle(s.kernel.ruleset, run);
    IdleMeansNothing(Stopped(s.kernel.ruleset, run));
  }

  /** The pass applies a script. */
  predicate Applies(s: LoopState, e: Event, render: Rendering) {
    e.Pass? && s.kernel.running && AfterBuild(s.kernel, Built(e.i, s.cache), e.i, render).1
  }

  lemma CurrentIsNotIdle(s: LoopState, n: nat, render: Rendering)
    requires OwnScripts(s) && Current(s, n, false, render)
    ensures !Idle(s.kernel.ruleset)
  {
    var r := s.passes[n];
    assert r in s.passes;
    InForceMeansPolicy(r, s.kernel.ruleset);
    assert NatTable(Inet4) in Declarations(r.round.st);
    var outs := AllOuts(r.round.cells, r.round.answers, r.round.st, r.memory);
    InstalledRules(r.round.st, outs, NatTable(Inet4), Prerouting);
  }

  lemma IdleStaysIff(s: LoopState, e: Event, render: Rendering)
    requires OwnScripts(s) && (FileFromPass(s) || Created(e)) && Careful(s, e) && Idle(s.kernel.ruleset)
    ensures Idle(Stepped(s, e, render).kernel.ruleset) <==> !Applies(s, e, render)
  {
    var s' := Stepped(s, e, render);
    if Applies(s, e, render) {
      LoadedIsCurrent(s, e.i, false, render);
      OwnScriptsStepped(s, e, render);
      var n: nat :| Current(s', n, false, render);
      CurrentIsNotIdle(s', n, render);
    } else if e.Pass? && s.kernel.running {
      UnappliedLeavesTables(s, e.i, render);
    } else if e.Stop? {
      StopKeepsIdle(s.kernel.ruleset, e.run);
    }
  }

  predicate IdleAt(k: Kernel, cache: seq<LastGoodRule>, events: seq<Event>, n: nat, render: Rendering) {
    n <= |events| && Idle(StateAt(k, cache, events, n, render).kernel.ruleset)
  }

  /** The event after n others is a pass that applies a script. */
  predicate AppliesAt(k: Kernel, cache: seq<LastGoodRule>, events: seq<Event>, n: nat, render: Rendering) {
    n < |events| && Applies(StateAt(k, cache, events, n, render), events[n], render)
  }

  lemma IdleNextIff(k: Kernel, cache: seq<LastGoodRule>, events: seq<Event>, n: nat, render: Rendering)
    requires Traceable(k, events, false) && n < |events| && Careful(StateAt(k, cache, events, n, render), events[n])
    requires IdleAt(k, cache, events, n, render)
    ensures IdleAt(k, cache, events, n + 1, render) <==> !AppliesAt(k, cache, events, n, render)
  {
    StepAt(k, cache, events, n, render);
    IdleStaysIff(StateAt(k, cache, events, n, render), events[n], render);
  }

  /** Once the managed tables are gone, they stay without any effect exactly until a pass applies a script: through new
      processes, skipped and failing passes, and further stops. */
  lemma NothingUntilApplied(k: Kernel, cache: seq<LastGoodRule>, events: seq<Event>, m: nat, n: nat, render: Rendering)
    requires Traceable(k, events, false) && m <= n <= |events| && CarefulFrom(k, cache, events, m, render)
    requires IdleAt(k, cache, events, m, render)
    ensures (forall j: nat :: m <= j <= n ==> IdleAt(k, cache, events, j, render))
            <==> forall j: nat :: m <= j < n ==> !AppliesAt(k, cache, events, j, render)
    ensures IdleAt(k, cache, events, n, render) ==> DoesNothing(StateAt(k, cache, events, n, render).kernel.ruleset)
  {
    var idle := (j: nat) => IdleAt(k, cache, events, j, render);
    var unapplied := (j: nat) => !AppliesAt(k, cache, events, j, render);
    forall j: nat | m <= j < n && idle(j) ensures idle(j + 1) <==> unapplied(j) {
      IdleNextIff(k, cache, events, j, render);
    }
    KeptWhileIff(idle, unapplied, m, n);
    assert forall j: nat :: m <= j <= n ==> (idle(j) <==> IdleAt(k, cache, events, j, render));
    assert forall j: nat :: m <= j < n ==> (unapplied(j) <==> !AppliesAt(k, cache, events, j, render));
    if IdleAt(k, cache, events, n, render) {
      IdleMeansNothing(StateAt(k, cache, events, n, render).kernel.ruleset);
    }
  }
}
