/** The loop joined with the dynamic whitelist: where the sources come from whose packets are translated. */
module LoopSources {
  import opened Wrappers
  import opened Net
  import opened Cells
  import opened LastGood
  import opened Nft
  import opened Compiler
  import opened Policy
  import opened PreroutingMeaning
  import opened Connections
  import opened SourceQuery
  import opened Daemon
  import opened LoopLaws
  import DW = DynamicWhitelist
  import WL = WhitelistLaws

  /** What a pass takes its access settings from. refresh: the refresh it makes, if one is due; loaded: without one, the
      state file could be read. */
  datatype Sources = Sources(view: View, files: set<Entry>, refresh: Option<WL.Step>, loaded: bool)

  /** The refreshes of the first n passes. */
  function Refreshes(inputs: seq<Sources>, n: nat): seq<WL.Step>
    requires n <= |inputs|
  {
    if n == 0 then []
    else Refreshes(inputs, n - 1) + if inputs[n - 1].refresh.Some? then [inputs[n - 1].refresh.value] else []
  }

  function StateFile(inputs: seq<Sources>, n: nat): DW.State
    requires n <= |inputs|
  {
    WL.FileAfter(Refreshes(inputs, n), |Refreshes(inputs, n)|)
  }

  /** The state pass n works with: the refreshed one, saved or not, or the file. */
  function StateUsed(inputs: seq<Sources>, n: nat): DW.State
    requires n < |inputs|
  {
    match inputs[n].refresh
    case Some(s) => DW.RefreshedState(s.config, WL.Loaded(StateFile(inputs, n), s), s.answers, s.now)
    case None => if inputs[n].loaded then StateFile(inputs, n) else []
  }

  /** The refreshes behind that state: those of earlier passes, and its own as if it had been saved. */
  function History(inputs: seq<Sources>, n: nat): seq<WL.Step>
    requires n < |inputs|
  {
    match inputs[n].refresh
    case Some(s) => Refreshes(inputs, n) + [s.(saveOk := true)]
    case None => if inputs[n].loaded then Refreshes(inputs, n) else []
  }

  lemma {:induction false} SameStart(run: seq<WL.Step>, longer: seq<WL.Step>, n: nat)
    requires n <= |run| && run <= longer
    ensures WL.FileAfter(longer, n) == WL.FileAfter(run, n)
  {
    if n > 0 {
      SameStart(run, longer, n - 1);
    }
  }

  lemma StateHasHistory(inputs: seq<Sources>, n: nat)
    requires n < |inputs| && (inputs[n].refresh.Some? ==> inputs[n].refresh.value.config.enabled)
    ensures StateUsed(inputs, n) == WL.FileAfter(History(inputs, n), |History(inputs, n)|)
  {
    if inputs[n].refresh.Some? {
      SameStart(Refreshes(inputs, n), History(inputs, n), |Refreshes(inputs, n)|);
    }
  }

  /** The passes took their settings from these sources; refreshes are due only with the whitelist enabled, and name
      each pair once. */
  ghost predicate Joined(passes: seq<Record>, inputs: seq<Sources>) {
    && |inputs| == |passes|
    && (forall n :: 0 <= n < |inputs| && inputs[n].refresh.Some? ==>
          inputs[n].refresh.value.config.enabled && WL.DistinctPairs(inputs[n].refresh.value.config))
    && (forall n :: 0 <= n < |inputs| ==>
          inputs[n].view.state == StateUsed(inputs, n) && BuiltFrom(PassOf(passes[n]), inputs[n].view, inputs[n].files))
  }

  lemma {:induction false} RefreshesAreDistinct(inputs: seq<Sources>, n: nat)
    requires n <= |inputs|
    requires forall i :: 0 <= i < n && inputs[i].refresh.Some? ==> WL.DistinctPairs(inputs[i].refresh.value.config)
    ensures forall s :: s in Refreshes(inputs, n) ==> WL.DistinctPairs(s.config)
  {
    if n > 0 {
      RefreshesAreDistinct(inputs, n - 1);
    }
  }

  /** The source is a static entry of the whitelist, comes from a file, or is covered by the expansion of an enabled
      domain's latest successful answer as of pass n. */
  ghost predicate HasOrigin(inputs: seq<Sources>, n: nat, src: Ip) {
    && n < |inputs|
    && var x := inputs[n];
       || CoversAny(x.view.access.entries, src) || WL.CoveredBySet(x.files, src)
       || (x.view.dynamic.enabled && ByLatestAnswer(x.view.dynamic, History(inputs, n), |History(inputs, n)|, src))
  }

  lemma AdmittedHasOrigin(passes: seq<Record>, inputs: seq<Sources>, n: nat, rs: Ruleset, p: Packet)
    requires Joined(passes, inputs) && n < |passes| && inputs[n].view.access.mode == Whitelist
    requires var r := PassOf(passes[n]); r.st.globalEnabled && Builds(r.cells, r.answers, r.st, r.cache)
    requires p.ct == NewConnection && KernelPrerouting(After(PassOf(passes[n]), rs), p).Translated?
    ensures HasOrigin(inputs, n, p.src)
  {
    RefreshesAreDistinct(inputs, n);
    StateHasHistory(inputs, n);
    TranslatedSourceHasOrigin(PassOf(passes[n]), rs, inputs[n].view, inputs[n].files, History(inputs, n), p);
  }

  /** Over every run of the service joined with every run of the whitelist: if a process that remembers a hash
      translates a packet and the pass in force was in whitelist mode, its source has an origin as of that pass. */
  lemma TranslatedSourcesHaveOrigin(k: Kernel, cache: seq<LastGoodRule>, events: seq<Event>, render: Rendering,
                                    inputs: seq<Sources>, p: Packet)
    requires Traceable(k, events, false) && p.ct == NewConnection
    requires Joined(Reached(Initial(k, cache), events, render).passes, inputs)
    ensures var s := Reached(Initial(k, cache), events, render);
            s.kernel.running && s.kernel.latest.Some? && KernelPrerouting(s.kernel.ruleset, p).Translated? ==>
              exists n: nat :: Current(s, n, false, render)
                               && (inputs[n].view.access.mode == Whitelist ==> HasOrigin(inputs, n, p.src))
  {
    var s := Reached(Initial(k, cache), events, render);
    if s.kernel.running && s.kernel.latest.Some? && KernelPrerouting(s.kernel.ruleset, p).Translated? {
      TablesComeFromPass(k, cache, events, false, render);
      var n: nat :| Current(s, n, false, render);
      var r := PassOf(s.passes[n]);
      assert s.passes[n] in s.passes;
      InForceMeansPolicy(s.passes[n], s.kernel.ruleset);
      assert Agrees(s.kernel.ruleset, r, p);
      assert r.st.globalEnabled;
      if inputs[n].view.access.mode == Whitelist {
        AdmittedHasOrigin(s.passes, inputs, n, s.kernel.ruleset, p);
      }
    }
  }
}
