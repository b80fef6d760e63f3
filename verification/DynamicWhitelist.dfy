/** The dynamic source whitelist: refreshing its state from DNS, expanding IPv4 addresses to /24 networks, and
    merging the result into access control.

    Lists that the program always drains from an ordered set are modelled as that set.
 */
module DynamicWhitelist {
  import opened Wrappers
  import opened Net
  import opened Cells

  datatype DomainConfig = DomainConfig(name: string, domain: string, enabled: bool)

  datatype Config = Config(
    enabled: bool, useLastGood: bool, resolve4: bool, resolve6: bool, expand: nat, domains: seq<DomainConfig>)

  datatype RefreshError = NothingEnabled | ResolverError(text: string) | NoUsableRecord

  datatype DomainState = DomainState(
    name: string, domain: string, lastGood: set<Entry>, current: set<Entry>, raw: set<Entry>, effective: set<Entry>,
    expand: nat, resolvedAt: Option<int>, stale: bool, error: Option<RefreshError>, ipv4: bool, ipv6: bool)

  type State = seq<DomainState>

  datatype Event =
    | ResolveSuccess(name: string, domain: string, ips: set<Entry>, sources: set<Entry>, expand: nat, changed: bool)
    | ResolveFail(name: string, domain: string, error: RefreshError, usingLastGood: bool)
    | StalePruned(name: string, oldDomain: string, newDomain: string)
    | Change(name: string, domain: string, oldIps: set<Entry>, newIps: set<Entry>,
             oldSources: set<Entry>, newSources: set<Entry>, expand: nat)

  /** The resolver's answer for the domain at each position of the configuration. */
  type Answers = nat -> Result<seq<Ip>, string>

  // ---------------------------------------------------------------- /24 expansion

  function Mask(prefix: Len4): bv32 {
    if prefix == 0 then 0 else 0xffff_ffff << (32 - prefix)
  }

  function FormatIpv4Network(a: bv32, prefix: Len4): Entry {
    Net(Cidr4(a & Mask(prefix), prefix))
  }

  function ExpandOne(e: Entry, mode: nat): Entry {
    if mode == 24 && e.Host? && e.ip.Ip4? then FormatIpv4Network(e.ip.a, 24) else e
  }

  function Expand(raw: set<Entry>, mode: nat): set<Entry> {
    set e | e in raw :: ExpandOne(e, mode)
  }

  method ExpandEffectiveSources(raw: set<Entry>, mode: nat) returns (result: set<Entry>)
    ensures result == Expand(raw, mode)
  {
    result := {};
    var rest := raw;
    while rest != {}
      invariant rest <= raw
      invariant result == Expand(raw - rest, mode)
      decreases rest
    {
      var e :| e in rest;
      assert raw - (rest - {e}) == (raw - rest) + {e};
      rest := rest - {e};
      if mode == 24 && e.Host? && e.ip.Ip4? {
        result := result + {FormatIpv4Network(e.ip.a, 24)};
        continue;
      }
      result := result + {e};
    }
    assert raw - {} == raw;
  }

  // ---------------------------------------------------------------- refresh

  function Find(state: State, name: string, domain: string): (r: Option<DomainState>)
    ensures r.Some? ==> r.value in state && r.value.name == name && r.value.domain == domain
    ensures r.None? ==> forall d :: d in state ==> d.name != name || d.domain != domain
  {
    if state == [] then None
    else if state[0].name == name && state[0].domain == domain then Some(state[0])
    else Find(state[1..], name, domain)
  }

  function FindByName(state: State, name: string): (r: Option<DomainState>)
    ensures r.Some? ==> r.value in state && r.value.name == name
  {
    if state == [] then None
    else if state[0].name == name then Some(state[0])
    else FindByName(state[1..], name)
  }

  predicate FamilyEnabled(config: Config, f: Family) {
    if f.Inet4? then config.resolve4 else config.resolve6
  }

  function Usable(config: Config, ips: seq<Ip>): set<Entry> {
    set ip | ip in ips && FamilyEnabled(config, FamilyOf(ip)) :: Host(ip)
  }

  function FilterResolvedIps(config: Config, ips: seq<Ip>): Result<set<Entry>, RefreshError> {
    if Usable(config, ips) == {} then Failure(NoUsableRecord) else Success(Usable(config, ips))
  }

  method FilterResolved(config: Config, ips: seq<Ip>) returns (r: Result<set<Entry>, RefreshError>)
    ensures r == FilterResolvedIps(config, ips)
  {
    var values := {};
    for i := 0 to |ips|
      invariant values == Usable(config, ips[..i])
    {
      assert ips[..i + 1] == ips[..i] + [ips[i]];
      var allowed := if ips[i].Ip4? then config.resolve4 else config.resolve6;
      if allowed {
        values := values + {Host(ips[i])};
      }
    }
    assert ips[..|ips|] == ips;
    return if values == {} then Failure(NoUsableRecord) else Success(values);
  }

  function Outcome(config: Config, answer: Result<seq<Ip>, string>): Result<set<Entry>, RefreshError> {
    if !config.resolve4 && !config.resolve6 then Failure(NothingEnabled)
    else
      match answer
      case Failure(text) => Failure(ResolverError(text))
      case Success(ips) => FilterResolvedIps(config, ips)
  }

  /** Cached addresses of the families still enabled; entries that are no addresses are dropped. */
  function LastGoodFor(config: Config, previous: Option<DomainState>): set<Entry> {
    if previous.None? then {}
    else set e | e in previous.value.lastGood && e.Host? && FamilyEnabled(config, FamilyOf(e.ip))
  }

  function DisabledState(config: Config, dc: DomainConfig, previous: Option<DomainState>): DomainState {
    DomainState(dc.name, dc.domain, if previous.Some? then previous.value.lastGood else {}, {}, {}, {}, config.expand,
                if previous.Some? then previous.value.resolvedAt else None, false, None,
                config.resolve4, config.resolve6)
  }

  function SuccessState(config: Config, dc: DomainConfig, ips: set<Entry>, now: int): DomainState {
    DomainState(dc.name, dc.domain, ips, ips, ips, Expand(ips, config.expand), config.expand, Some(now), false, None,
                config.resolve4, config.resolve6)
  }

  function FailureState(config: Config, dc: DomainConfig, previous: Option<DomainState>,
                        error: RefreshError): DomainState {
    var lastGood := LastGoodFor(config, previous);
    var using := config.useLastGood && lastGood != {};
    var current := if using then lastGood else {};
    DomainState(dc.name, dc.domain, lastGood, current, current, if using then Expand(lastGood, config.expand) else {},
                config.expand, if previous.Some? then previous.value.resolvedAt else None, using, Some(error),
                config.resolve4, config.resolve6)
  }

  function Refreshed(config: Config, dc: DomainConfig, previous: Option<DomainState>, answer: Result<seq<Ip>, string>,
                     now: int)
    : DomainState
  {
    if !dc.enabled then DisabledState(config, dc, previous)
    else
      match Outcome(config, answer)
      case Success(ips) => SuccessState(config, dc, ips, now)
      case Failure(error) => FailureState(config, dc, previous, error)
  }

  function PruneEvents(dc: DomainConfig, state: State): seq<Event> {
    var byName := FindByName(state, dc.name);
    if Find(state, dc.name, dc.domain).None? && byName.Some? && byName.value.domain != dc.domain
    then [StalePruned(dc.name, byName.value.domain, dc.domain)] else []
  }

  function ResolveEvents(config: Config, dc: DomainConfig, previous: Option<DomainState>,
                         answer: Result<seq<Ip>, string>)
    : seq<Event>
  {
    if !dc.enabled then []
    else
      match Outcome(config, answer)
      case Success(ips) =>
        var oldSources := if previous.Some? then previous.value.effective else {};
        var oldIps := if previous.Some? then previous.value.current else {};
        var sources := Expand(ips, config.expand);
        [ResolveSuccess(dc.name, dc.domain, ips, sources, config.expand, oldSources != sources)]
        + (if oldSources != sources
           then [Change(dc.name, dc.domain, oldIps, ips, oldSources, sources, config.expand)] else [])
      case Failure(error) =>
        [ResolveFail(dc.name, dc.domain, error, config.useLastGood && LastGoodFor(config, previous) != {})]
  }

  /** The first n domains of the configuration, refreshed. */
  function RefreshedUpTo(config: Config, previous: State, answers: Answers, now: int, n: nat): (s: State)
    requires n <= |config.domains|
    ensures |s| == n
  {
    if n == 0 then []
    else
      var dc := config.domains[n - 1];
      RefreshedUpTo(config, previous, answers, now, n - 1)
      + [Refreshed(config, dc, Find(previous, dc.name, dc.domain), answers(n - 1), now)]
  }

  function EventsUpTo(config: Config, previous: State, answers: Answers, n: nat): seq<Event>
    requires n <= |config.domains|
  {
    if n == 0 then []
    else
      var dc := config.domains[n - 1];
      EventsUpTo(config, previous, answers, n - 1)
      + (PruneEvents(dc, previous) + ResolveEvents(config, dc, Find(previous, dc.name, dc.domain), answers(n - 1)))
  }

  function RefreshedState(config: Config, previous: State, answers: Answers, now: int): State {
    if config.enabled then RefreshedUpTo(config, previous, answers, now, |config.domains|) else previous
  }

  function RefreshEvents(config: Config, previous: State, answers: Answers): seq<Event> {
    if config.enabled then EventsUpTo(config, previous, answers, |config.domains|) else []
  }

  /** The part of the loop body that resolves one enabled domain. */
  method ResolveDomain(config: Config, dc: DomainConfig, previous: Option<DomainState>,
                       answer: Result<seq<Ip>, string>, now: int)
    returns (next: DomainState, events: seq<Event>)
    requires dc.enabled
    ensures next == Refreshed(config, dc, previous, answer, now)
    ensures events == ResolveEvents(config, dc, previous, answer)
  {
    var result: Result<set<Entry>, RefreshError>;
    if config.resolve4 || config.resolve6 {
      match answer {
        case Success(ips) => result := FilterResolved(config, ips);
        case Failure(text) => result := Failure(ResolverError(text));
      }
    } else {
      result := Failure(NothingEnabled);
    }
    events := [];
    match result {
      case Success(newIps) =>
        var oldIps := if previous.Some? then previous.value.current else {};
        var oldSources := if previous.Some? then previous.value.effective else {};
        var sources := ExpandEffectiveSources(newIps, config.expand);
        var changed := oldSources != sources;
        events := events + [ResolveSuccess(dc.name, dc.domain, newIps, sources, config.expand, changed)];
        if changed {
          events := events + [Change(dc.name, dc.domain, oldIps, newIps, oldSources, sources, config.expand)];
        }
        next := DomainState(dc.name, dc.domain, newIps, newIps, newIps, sources, config.expand, Some(now), false, None,
                            config.resolve4, config.resolve6);
      case Failure(error) =>
        var lastGood := LastGoodFor(config, previous);
        var using := config.useLastGood && lastGood != {};
        var current, sources := {}, {};
        if using {
          sources := ExpandEffectiveSources(lastGood, config.expand);
          current := lastGood;
        }
        events := events + [ResolveFail(dc.name, dc.domain, error, using)];
        next := DomainState(dc.name, dc.domain, lastGood, current, current, sources, config.expand,
                            if previous.Some? then previous.value.resolvedAt else None, using, Some(error),
                            config.resolve4, config.resolve6);
    }
  }

  /** The loop body: look the domain up, report a changed domain, then resolve or park it. */
  method RefreshDomain(config: Config, dc: DomainConfig, previous: State, answer: Result<seq<Ip>, string>, now: int)
    returns (next: DomainState, events: seq<Event>)
    ensures next == Refreshed(config, dc, Find(previous, dc.name, dc.domain), answer, now)
    ensures events == PruneEvents(dc, previous) + ResolveEvents(config, dc, Find(previous, dc.name, dc.domain), answer)
  {
    events := [];
    var previousDomain := Find(previous, dc.name, dc.domain);
    if previousDomain.None? {
      var byName := FindByName(previous, dc.name);
      if byName.Some? && byName.value.domain != dc.domain {
        events := events + [StalePruned(dc.name, byName.value.domain, dc.domain)];
      }
    }
    if !dc.enabled {
      next := DisabledState(config, dc, previousDomain);
      return;
    }
    var more;
    next, more := ResolveDomain(config, dc, previousDomain, answer, now);
    events := events + more;
  }

  method RefreshStateWithResolver(config: Config, previous: State, answers: Answers, now: int)
    returns (state: State, events: seq<Event>)
    ensures state == RefreshedState(config, previous, answers, now)
    ensures events == RefreshEvents(config, previous, answers)
  {
    if !config.enabled {
      return previous, [];
    }
    state, events := [], [];
    for i := 0 to |config.domains|
      invariant state == RefreshedUpTo(config, previous, answers, now, i)
      invariant events == EventsUpTo(config, previous, answers, i)
    {
      var next, more := RefreshDomain(config, config.domains[i], previous, answers(i), now);
      state := state + [next];
      events := events + more;
    }
  }

  // ---------------------------------------------------------------- what takes effect

  /** The sources of one domain: the stored ones if they were computed for this mode, else recomputed. */
  function EffectiveSourcesView(d: DomainState, mode: nat): set<Entry> {
    if d.expand == mode && d.effective != {} then d.effective else Expand(d.current, mode)
  }

  /** The sources of the enabled domains among the first n. */
  function SourcesUpTo(config: Config, state: State, n: nat): set<Entry>
    requires n <= |config.domains|
  {
    if n == 0 then {}
    else
      var dc := config.domains[n - 1];
      var d := Find(state, dc.name, dc.domain);
      SourcesUpTo(config, state, n - 1)
      + (if dc.enabled && d.Some? then EffectiveSourcesView(d.value, config.expand) else {})
  }

  function EffectiveSources(config: Config, state: State): set<Entry> {
    if config.enabled then SourcesUpTo(config, state, |config.domains|) else {}
  }

  method EffectiveSourcesForConfig(config: Config, state: State) returns (values: set<Entry>)
    ensures values == EffectiveSources(config, state)
  {
    values := {};
    if !config.enabled {
      return;
    }
    for i := 0 to |config.domains|
      invariant values == SourcesUpTo(config, state, i)
    {
      var dc := config.domains[i];
      if !dc.enabled {
        continue;
      }
      var d := Find(state, dc.name, dc.domain);
      if d.None? {
        continue;
      }
      values := values + EffectiveSourcesView(d.value, config.expand);
    }
  }

  /** Access control with the dynamic sources added: the static entries in place, the others behind them. */
  ghost predicate MergedInto(access: AccessConfig, dynamic: set<Entry>, merged: AccessConfig) {
    && merged.mode == access.mode
    && (access.mode != Whitelist ==> merged == access)
    && (access.mode == Whitelist ==>
          && access.entries <= merged.entries
          && forall e :: e in merged.entries <==> e in access.entries || e in dynamic)
  }

  method AccessConfigWithDynamicWhitelist(access: AccessConfig, dynamic: set<Entry>) returns (merged: AccessConfig)
    ensures MergedInto(access, dynamic, merged)
  {
    merged := access;
    if merged.mode != Whitelist {
      return;
    }
    var rest := dynamic;
    while rest != {}
      invariant rest <= dynamic && merged.mode == Whitelist
      invariant access.entries <= merged.entries
      invariant forall e :: e in merged.entries <==> e in access.entries || e in dynamic - rest
      decreases rest
    {
      var e :| e in rest;
      rest := rest - {e};
      if e !in merged.entries {
        merged := merged.(entries := merged.entries + [e]);
      }
    }
  }
}
