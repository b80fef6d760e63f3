/** The menu's query "is this source let in, and why", and its agreement with what the kernel does. */
module SourceQuery {
  import opened Wrappers
  import opened Net
  import opened Cells
  import opened Nft
  import opened Compiler
  import opened Policy
  import opened PreroutingMeaning
  import DW = DynamicWhitelist
  import WL = WhitelistLaws

  datatype GeoResult = Disabled | Unchecked | Hit | Miss | DataUnavailable

  datatype Label = Yes | No | CannotFullyDetermine

  datatype Reason =
    | AccessOff | BlacklistHit | BlacklistMiss | StaticHit | DynamicHit | WhitelistMiss
    | GeoHit | GeoMiss | GeoUnavailable

  datatype Assessment = Assessment(answer: Label, reasons: seq<Reason>)

  /** What the menu reads: the configuration, the whitelist state and the CN file. */
  datatype View = View(access: AccessConfig, dynamic: DW.Config, state: DW.State, geo: GeoIpConfig, cn4File: seq<Entry>)

  function FindMatchingSourceEntry(ip: Ip, entries: seq<Entry>): (r: Option<Entry>)
    ensures r.Some? <==> CoversAny(entries, ip)
    ensures r.Some? ==> r.value in entries && Covers(r.value, ip)
  {
    if entries == [] then None
    else if Covers(entries[0], ip) then Some(entries[0])
    else FindMatchingSourceEntry(ip, entries[1..])
  }

  /** The domain's sources in effect let the address in. */
  predicate DomainMatches(config: DW.Config, state: DW.State, dc: DW.DomainConfig, ip: Ip) {
    var d := DW.Find(state, dc.name, dc.domain);
    dc.enabled && d.Some? && exists e :: e in DW.EffectiveSourcesView(d.value, config.expand) && Covers(e, ip)
  }

  function MatchesUpTo(config: DW.Config, state: DW.State, ip: Ip, n: nat): seq<string>
    requires n <= |config.domains|
  {
    if n == 0 then []
    else
      MatchesUpTo(config, state, ip, n - 1)
      + (if DomainMatches(config, state, config.domains[n - 1], ip) then [config.domains[n - 1].domain] else [])
  }

  /** The domains whose sources match, in configuration order. */
  function DynamicMatches(config: DW.Config, state: DW.State, ip: Ip): seq<string> {
    if config.enabled then MatchesUpTo(config, state, ip, |config.domains|) else []
  }

  method DynamicSourceMatches(config: DW.Config, state: DW.State, ip: Ip) returns (hits: seq<string>)
    ensures hits == DynamicMatches(config, state, ip)
  {
    hits := [];
    if !config.enabled {
      return;
    }
    for i := 0 to |config.domains|
      invariant hits == MatchesUpTo(config, state, ip, i)
    {
      var dc := config.domains[i];
      var d := DW.Find(state, dc.name, dc.domain);
      if !dc.enabled || d.None? {
        continue;
      }
      var entries := DW.EffectiveSourcesView(d.value, config.expand);
      var rest := entries;
      while rest != {}
        invariant rest <= entries
        invariant forall e :: e in entries - rest ==> !Covers(e, ip)
        decreases rest
      {
        var e :| e in rest;
        if Covers(e, ip) {
          hits := hits + [dc.domain];
          break;
        }
        rest := rest - {e};
      }
    }
  }

  function EvaluateGeoip(v: View, ip: Ip): GeoResult {
    if !(v.geo.enabled && v.geo.forwardEnabled) then Disabled
    else if ip.Ip6? then Unchecked
    else if v.geo.allowLan && FindMatchingSourceEntry(ip, v.geo.LanIpv4()).Some? then Hit
    else if v.cn4File == [] then DataUnavailable
    else if FindMatchingSourceEntry(ip, v.cn4File).Some? then Hit
    else Miss
  }

  function AccessReasons(mode: AccessMode, staticHit: bool, dynamicHit: bool): (bool, seq<Reason>) {
    match mode
    case Off => (true, [AccessOff])
    case Blacklist => if staticHit then (false, [BlacklistHit]) else (true, [BlacklistMiss])
    case Whitelist =>
      (staticHit || dynamicHit,
       (if staticHit then [StaticHit] else []) + (if dynamicHit then [DynamicHit] else [])
       + (if staticHit || dynamicHit then [] else [WhitelistMiss]))
  }

  function FinalAssessment(mode: AccessMode, staticHit: bool, dynamicHit: bool, geo: GeoResult): Assessment {
    var (allowed, reasons) := AccessReasons(mode, staticHit, dynamicHit);
    if !allowed then Assessment(No, reasons)
    else
      match geo
      case Hit => Assessment(Yes, reasons + [GeoHit])
      case Miss => Assessment(No, reasons + [GeoMiss])
      case DataUnavailable => Assessment(CannotFullyDetermine, reasons + [GeoUnavailable])
      case _ => Assessment(Yes, reasons)
  }

  method AssessFinalSourceDecision(mode: AccessMode, staticHit: Option<Entry>, dynamicHits: seq<string>, geo: GeoResult)
    returns (r: Assessment)
    ensures r == FinalAssessment(mode, staticHit.Some?, dynamicHits != [], geo)
  {
    var reasons := [];
    var allowed;
    match mode {
      case Off =>
        reasons := reasons + [AccessOff];
        allowed := true;
      case Blacklist =>
        if staticHit.Some? {
          reasons := reasons + [BlacklistHit];
          allowed := false;
        } else {
          reasons := reasons + [BlacklistMiss];
          allowed := true;
        }
      case Whitelist =>
        var staticAllowed := staticHit.Some?;
        var dynamicAllowed := dynamicHits != [];
        if staticAllowed {
          reasons := reasons + [StaticHit];
        }
        if dynamicAllowed {
          reasons := reasons + [DynamicHit];
        }
        if staticAllowed || dynamicAllowed {
          allowed := true;
        } else {
          reasons := reasons + [WhitelistMiss];
          allowed := false;
        }
    }
    if !allowed {
      return Assessment(No, reasons);
    }
    match geo {
      case Hit => return Assessment(Yes, reasons + [GeoHit]);
      case Miss => return Assessment(No, reasons + [GeoMiss]);
      case DataUnavailable => return Assessment(CannotFullyDetermine, reasons + [GeoUnavailable]);
      case _ => return Assessment(Yes, reasons);
    }
  }

  /** The answer the menu gives for a source address. */
  function Query(v: View, ip: Ip): Label {
    FinalAssessment(v.access.mode, FindMatchingSourceEntry(ip, v.access.entries).Some?,
                    DynamicMatches(v.dynamic, v.state, ip) != [], EvaluateGeoip(v, ip)).answer
  }

  // ---------------------------------------------------------------- agreement with the kernel

  lemma {:induction false} MatchesIff(config: DW.Config, state: DW.State, ip: Ip, n: nat)
    requires n <= |config.domains|
    ensures MatchesUpTo(config, state, ip, n) != [] <==> WL.CoveredBySet(DW.SourcesUpTo(config, state, n), ip)
  {
    if n > 0 {
      MatchesIff(config, state, ip, n - 1);
      var dc := config.domains[n - 1];
      var d := DW.Find(state, dc.name, dc.domain);
      var mine := if dc.enabled && d.Some? then DW.EffectiveSourcesView(d.value, config.expand) else {};
      assert DW.SourcesUpTo(config, state, n) == DW.SourcesUpTo(config, state, n - 1) + mine;
      CoveredUnion(DW.SourcesUpTo(config, state, n - 1), mine, ip);
      assert DomainMatches(config, state, dc, ip) <==> WL.CoveredBySet(mine, ip);
    }
  }

  lemma CoveredUnion(a: set<Entry>, b: set<Entry>, ip: Ip)
    ensures WL.CoveredBySet(a + b, ip) <==> WL.CoveredBySet(a, ip) || WL.CoveredBySet(b, ip)
  {
    if WL.CoveredBySet(a, ip) {
      var e :| e in a && Covers(e, ip);
      assert e in a + b;
    }
    if WL.CoveredBySet(b, ip) {
      var e :| e in b && Covers(e, ip);
      assert e in a + b;
    }
  }

  /** The menu's hits are exactly matches in the sources that are merged into access control. */
  lemma DynamicMatchesIff(config: DW.Config, state: DW.State, ip: Ip)
    ensures DynamicMatches(config, state, ip) != [] <==> WL.CoveredBySet(DW.EffectiveSources(config, state), ip)
  {
    if config.enabled {
      MatchesIff(config, state, ip, |config.domains|);
    }
  }

  lemma MergedCovers(access: AccessConfig, dynamic: set<Entry>, merged: AccessConfig, ip: Ip)
    requires DW.MergedInto(access, dynamic, merged) && access.mode == Whitelist
    ensures CoversAny(merged.entries, ip) <==> CoversAny(access.entries, ip) || WL.CoveredBySet(dynamic, ip)
  {
    if CoversAny(access.entries, ip) {
      var e :| e in access.entries && Covers(e, ip);
      assert e in merged.entries;
    }
    if WL.CoveredBySet(dynamic, ip) {
      var e :| e in dynamic && Covers(e, ip);
      assert e in merged.entries;
    }
    if CoversAny(merged.entries, ip) {
      var e :| e in merged.entries && Covers(e, ip);
      assert e in access.entries || e in dynamic;
    }
  }

  /** The round was built from what the menu sees, plus sources read from files. */
  ghost predicate BuiltFrom(r: Round, v: View, fileSources: set<Entry>) {
    && DW.MergedInto(v.access, DW.EffectiveSources(v.dynamic, v.state) + fileSources, r.st.access)
    && r.st.geo == v.geo && r.st.cn4File == v.cn4File
  }

  /** Let in by a file source alone: the one thing the menu does not look at. */
  ghost predicate OnlyByFile(v: View, fileSources: set<Entry>, ip: Ip) {
    && v.access.mode == Whitelist && !CoversAny(v.access.entries, ip)
    && !WL.CoveredBySet(DW.EffectiveSources(v.dynamic, v.state), ip)
    && WL.CoveredBySet(fileSources, ip)
  }

  lemma AdmitsIff(r: Round, v: View, fileSources: set<Entry>, ip: Ip)
    requires BuiltFrom(r, v, fileSources)
    ensures var allowed := AccessReasons(v.access.mode, CoversAny(v.access.entries, ip),
                                         DynamicMatches(v.dynamic, v.state, ip) != []).0;
            AccessAdmits(r.st.access, ip) <==> allowed || OnlyByFile(v, fileSources, ip)
  {
    DynamicMatchesIff(v.dynamic, v.state, ip);
    if v.access.mode == Whitelist {
      MergedCovers(v.access, DW.EffectiveSources(v.dynamic, v.state) + fileSources, r.st.access, ip);
      CoveredUnion(DW.EffectiveSources(v.dynamic, v.state), fileSources, ip);
    }
  }

  lemma GeoAdmitsIff(r: Round, v: View, fileSources: set<Entry>, ip: Ip)
    requires BuiltFrom(r, v, fileSources) && r.st.globalEnabled
    ensures (ip.Ip4? && r.GeoIpInForce() ==> r.FromCnOrLan(ip)) <==> EvaluateGeoip(v, ip) != Miss
  {
  }

  lemma QueryIsNoIff(v: View, ip: Ip)
    ensures var allowed := AccessReasons(v.access.mode, CoversAny(v.access.entries, ip),
                                         DynamicMatches(v.dynamic, v.state, ip) != []).0;
            Query(v, ip) == No <==> !allowed || EvaluateGeoip(v, ip) == Miss
  {
  }

  /** With forwarding on and a rule that serves the packet, the kernel translates it exactly when the menu's
      rules say so, or cannot tell for lack of CN data, or only a file source lets it in. */
  lemma KernelVersusQuery(r: Round, rs: Ruleset, v: View, fileSources: set<Entry>, p: Packet, k: nat)
    requires BuiltFrom(r, v, fileSources)
    requires r.st.globalEnabled && Builds(r.cells, r.answers, r.st, r.cache) && p.ct == NewConnection
    requires k < |r.cells| && r.Serves(k, p)
    ensures KernelPrerouting(After(r, rs), p).Translated?
            <==> Query(v, p.src) != No || (OnlyByFile(v, fileSources, p.src) && EvaluateGeoip(v, p.src) != Miss)
  {
    TranslatedIff(r, rs, p, k);
    AdmitsIff(r, v, fileSources, p.src);
    GeoAdmitsIff(r, v, fileSources, p.src);
    QueryIsNoIff(v, p.src);
  }

  /** Without file sources, whenever the menu answers yes or no, it is right about the kernel. */
  lemma QueryAgreesWithKernel(r: Round, rs: Ruleset, v: View, p: Packet, k: nat)
    requires BuiltFrom(r, v, {})
    requires r.st.globalEnabled && Builds(r.cells, r.answers, r.st, r.cache) && p.ct == NewConnection
    requires k < |r.cells| && r.Serves(k, p)
    requires Query(v, p.src) != CannotFullyDetermine
    ensures KernelPrerouting(After(r, rs), p).Translated? <==> Query(v, p.src) == Yes
  {
    KernelVersusQuery(r, rs, v, {}, p, k);
  }

  /** With file sources the menu is right exactly when no file source alone lets the address in past GeoIP. */
  lemma QueryAgreesIff(r: Round, rs: Ruleset, v: View, fileSources: set<Entry>, p: Packet, k: nat)
    requires BuiltFrom(r, v, fileSources)
    requires r.st.globalEnabled && Builds(r.cells, r.answers, r.st, r.cache) && p.ct == NewConnection
    requires k < |r.cells| && r.Serves(k, p)
    requires Query(v, p.src) != CannotFullyDetermine
    ensures (KernelPrerouting(After(r, rs), p).Translated? <==> Query(v, p.src) == Yes)
            <==> !(OnlyByFile(v, fileSources, p.src) && EvaluateGeoip(v, p.src) != Miss)
  {
    KernelVersusQuery(r, rs, v, fileSources, p, k);
    DynamicMatchesIff(v.dynamic, v.state, p.src);
  }

  /** With forwarding switched off nothing is translated, whatever the menu answers. */
  lemma NothingTranslatedWhenOff(r: Round, rs: Ruleset, p: Packet)
    requires !r.st.globalEnabled && p.ct == NewConnection
    ensures !KernelPrerouting(After(r, rs), p).Translated?
  {
    CompilationPreservesMeaning(r, rs, p);
  }

  // ---------------------------------------------------------------- why a source was let in

  /** Some enabled domain's latest successful answer, expanded as configured, covers the address. */
  ghost predicate ByLatestAnswer(config: DW.Config, run: seq<WL.Step>, n: nat, ip: Ip)
    requires n <= |run|
  {
    exists dc :: dc in config.domains && dc.enabled
                 && WL.CoveredBySet(DW.Expand(WL.LatestSuccess(run, n, dc.name, dc.domain), config.expand), ip)
  }

  lemma {:induction false} SourceDomain(config: DW.Config, state: DW.State, n: nat, e: Entry) returns (i: nat)
    requires n <= |config.domains| && e in DW.SourcesUpTo(config, state, n)
    ensures i < n && config.domains[i].enabled
    ensures var d := DW.Find(state, config.domains[i].name, config.domains[i].domain);
            d.Some? && e in DW.EffectiveSourcesView(d.value, config.expand)
  {
    if e in DW.SourcesUpTo(config, state, n - 1) {
      i := SourceDomain(config, state, n - 1, e);
    } else {
      i := n - 1;
    }
  }

  lemma ViewWithinLatest(run: seq<WL.Step>, n: nat, d: DW.DomainState, mode: nat)
    requires n <= |run| && (forall s :: s in run ==> WL.DistinctPairs(s.config)) && d in WL.FileAfter(run, n)
    ensures DW.EffectiveSourcesView(d, mode) <= DW.Expand(WL.LatestSuccess(run, n, d.name, d.domain), mode)
  {
    WL.AddressesComeFromLatestSuccess(run, n, d);
    WL.ReachableViewsAreFresh(run, n, d, mode);
  }

  lemma DynamicSourceHasAnswer(config: DW.Config, run: seq<WL.Step>, n: nat, ip: Ip)
    requires n <= |run| && (forall s :: s in run ==> WL.DistinctPairs(s.config))
    requires WL.CoveredBySet(DW.EffectiveSources(config, WL.FileAfter(run, n)), ip)
    ensures ByLatestAnswer(config, run, n, ip)
  {
    var state := WL.FileAfter(run, n);
    var e :| e in DW.EffectiveSources(config, state) && Covers(e, ip);
    var i := SourceDomain(config, state, |config.domains|, e);
    var dc := config.domains[i];
    var d := DW.Find(state, dc.name, dc.domain).value;
    ViewWithinLatest(run, n, d, config.expand);
    assert dc in config.domains;
  }

  lemma TranslatedIsAdmitted(r: Round, rs: Ruleset, p: Packet)
    requires r.st.globalEnabled && Builds(r.cells, r.answers, r.st, r.cache) && p.ct == NewConnection
    requires KernelPrerouting(After(r, rs), p).Translated?
    ensures AccessAdmits(r.st.access, p.src)
  {
    if k: nat :| k < |r.cells| && r.Serves(k, p) {
      TranslatedIff(r, rs, p, k);
    } else {
      CompilationPreservesMeaning(r, rs, p);
      PolicyWithoutService(r, p);
    }
  }

  /** Over every run of the whitelist: a source whose packet is translated in whitelist mode is a static entry,
      comes from a file, or is covered by the expansion of what an enabled domain's latest successful resolution
      gave. The run ends with the refresh whose state is in use. */
  lemma TranslatedSourceHasOrigin(r: Round, rs: Ruleset, v: View, fileSources: set<Entry>, run: seq<WL.Step>, p: Packet)
    requires (forall s :: s in run ==> WL.DistinctPairs(s.config)) && v.state == WL.FileAfter(run, |run|)
    requires BuiltFrom(r, v, fileSources) && v.access.mode == Whitelist
    requires r.st.globalEnabled && Builds(r.cells, r.answers, r.st, r.cache) && p.ct == NewConnection
    requires KernelPrerouting(After(r, rs), p).Translated?
    ensures CoversAny(v.access.entries, p.src) || WL.CoveredBySet(fileSources, p.src)
            || (v.dynamic.enabled && ByLatestAnswer(v.dynamic, run, |run|, p.src))
  {
    TranslatedIsAdmitted(r, rs, p);
    var dynamic := DW.EffectiveSources(v.dynamic, v.state);
    MergedCovers(v.access, dynamic + fileSources, r.st.access, p.src);
    CoveredUnion(dynamic, fileSources, p.src);
    if WL.CoveredBySet(dynamic, p.src) {
      DynamicSourceHasAnswer(v.dynamic, run, |run|, p.src);
    }
  }
}
