/** The last-good target cache: what it stores, how stale entries are pruned and rekeyed, and how the
    resolution events of a round are folded back into it. */
module LastGood {
  import opened Wrappers
  import opened Net
  import opened Cells
  import opened RuleKeys
  import opened Ordered

  /** The cached address text: the file may hold anything, an address or not. */
  datatype CachedIp = Address(ip: Ip) | Garbage(text: string)

  datatype ResolveSource = FromDns | FromCache

  datatype EntryStatus =
    AppliedOk | SkippedByEgress(ip: Ip) | FallbackUsed | SkippedDnsFailed | OtherStatus(text: string)

  datatype LastGoodRule = LastGoodRule(
    ruleId: string, ruleKey: Option<string>, comment: Option<string>, domain: string,
    ip: CachedIp, resolvedAt: int, egressAllowed: bool, status: EntryStatus)

  datatype ResolutionEvent =
    | LiveResolved(ruleId: string, ruleKey: Option<string>, comment: Option<string>, domain: string, ip: Ip)
    | LastGoodUsed(ruleId: string, ruleKey: Option<string>, comment: Option<string>, domain: string, ip: Ip)
    | ResolveFailedNoCache(ruleId: string, ruleKey: Option<string>, comment: Option<string>, domain: string)
    | EgressSkipped(ruleId: string, ruleKey: Option<string>, comment: Option<string>, ip: Ip, source: ResolveSource)

  datatype PruneResult = PruneResult(before: nat, after: nat, removed: nat, changed: bool)

  /** The events one build accumulates. */
  class ResolutionLog {
    var events: seq<ResolutionEvent>

    constructor ()
      ensures events == []
    {
      events := [];
    }

    method Record(e: ResolutionEvent)
      modifies this
      ensures events == old(events) + [e]
    {
      events := events + [e];
    }

    method Drain() returns (r: seq<ResolutionEvent>)
      modifies this
      ensures r == old(events) && events == []
    {
      r := events;
      events := [];
    }
  }

  // ---------------------------------------------------------------- lookup

  function LookupByKey(rules: seq<LastGoodRule>, key: string): (r: Option<LastGoodRule>)
    ensures r.Some? ==> r.value in rules && r.value.ruleKey == Some(key)
    ensures r.None? ==> forall e :: e in rules ==> e.ruleKey != Some(key)
  {
    if rules == [] then None
    else if rules[0].ruleKey == Some(key) then Some(rules[0])
    else LookupByKey(rules[1..], key)
  }

  function FallbackForRule(config: LastGoodConfig, rules: seq<LastGoodRule>, key: string): Option<LastGoodRule> {
    if config.enabled && config.useOnDnsFailure then LookupByKey(rules, key) else None
  }

  // ---------------------------------------------------------------- identities of the running configuration

  /** How many rules come before position n; comments take no rule number. */
  function RuleIndex(cells: seq<RuntimeCell>, n: nat): (r: nat)
    requires n <= |cells|
    ensures r <= n
  {
    if n == 0 then 0 else RuleIndex(cells, n - 1) + if cells[n - 1].Rule? then 1 else 0
  }

  function IdentityAt(cells: seq<RuntimeCell>, i: nat): Option<RuleIdentity>
    requires i < |cells|
  {
    if cells[i].Rule? then IdentityForRule(RuleId(RuleIndex(cells, i)), cells[i].cell) else None
  }

  /** Identities of the first n cells, in configuration order. */
  function Identities(cells: seq<RuntimeCell>, n: nat): seq<RuleIdentity>
    requires n <= |cells|
  {
    if n == 0 then []
    else Identities(cells, n - 1) + (if IdentityAt(cells, n - 1).Some? then [IdentityAt(cells, n - 1).value] else [])
  }

  method RuntimeIdentities(cells: seq<RuntimeCell>) returns (ids: seq<RuleIdentity>)
    ensures ids == Identities(cells, |cells|)
  {
    ids := [];
    var ruleIndex := 0;
    for i := 0 to |cells|
      invariant ruleIndex == RuleIndex(cells, i)
      invariant ids == Identities(cells, i)
    {
      match cells[i] {
        case Rule(cell) =>
          var ruleId := RuleId(ruleIndex);
          ruleIndex := ruleIndex + 1;
          var identity := IdentityForRule(ruleId, cell);
          if identity.Some? {
            ids := ids + [identity.value];
          }
        case Comment(_) =>
      }
    }
  }

  // ---------------------------------------------------------------- pruning, as a function

  /** A table built by inserting the values one after the other: a later value replaces an earlier one. */
  function LastByKey<V(!new)>(keys: seq<string>, values: seq<V>): (m: map<string, V>)
    requires |keys| == |values|
    ensures forall k :: k in m <==> k in keys
    ensures forall k :: k in m ==> exists i :: 0 <= i < |keys| && keys[i] == k && m[k] == values[i]
  {
    if keys == [] then map[]
    else
      var n := |keys| - 1;
      var m := LastByKey(keys[..n], values[..n]);
      assert keys == keys[..n] + [keys[n]];
      assert forall k :: k in m ==> exists i :: 0 <= i < n && keys[..n][i] == k && m[k] == values[..n][i];
      m[keys[n] := values[n]]
  }

  function IdentityKeys(ids: seq<RuleIdentity>): (r: seq<string>)
    ensures |r| == |ids|
    ensures forall i :: 0 <= i < |ids| ==> r[i] == ids[i].ruleKey
  {
    seq(|ids|, i requires 0 <= i < |ids| => ids[i].ruleKey)
  }

  function IdentityDomains(ids: seq<RuleIdentity>): (r: seq<string>)
    ensures |r| == |ids|
    ensures forall i :: 0 <= i < |ids| ==> r[i] == NormalizeDomain(ids[i].domain)
  {
    seq(|ids|, i requires 0 <= i < |ids| => NormalizeDomain(ids[i].domain))
  }

  function RuleDomains(rules: seq<LastGoodRule>): (r: seq<string>)
    ensures |r| == |rules|
    ensures forall i :: 0 <= i < |rules| ==> r[i] == NormalizeDomain(rules[i].domain)
  {
    seq(|rules|, i requires 0 <= i < |rules| => NormalizeDomain(rules[i].domain))
  }

  function IdentitiesByKey(ids: seq<RuleIdentity>): map<string, RuleIdentity> {
    LastByKey(IdentityKeys(ids), ids)
  }

  function IdentitiesByDomain(ids: seq<RuleIdentity>): map<string, RuleIdentity> {
    LastByKey(IdentityDomains(ids), ids)
  }

  /** A domain that exactly one cached entry and exactly one current rule name. */
  predicate UniqueOnBothSides(d: string, rules: seq<LastGoodRule>, ids: seq<RuleIdentity>) {
    multiset(RuleDomains(rules))[d] == 1 && multiset(IdentityDomains(ids))[d] == 1
  }

  /** The current rule a cached entry belongs to, if any. */
  function IdentityOf(rule: LastGoodRule, rules: seq<LastGoodRule>, ids: seq<RuleIdentity>): Option<RuleIdentity> {
    match rule.ruleKey
    case Some(key) =>
      if key in IdentitiesByKey(ids) then Some(IdentitiesByKey(ids)[key]) else None
    case None =>
      var d := NormalizeDomain(rule.domain);
      if UniqueOnBothSides(d, rules, ids) && d in IdentitiesByDomain(ids)
      then Some(IdentitiesByDomain(ids)[d]) else None
  }

  /** For each cached entry, the current rule it belongs to. */
  function Owners(rules: seq<LastGoodRule>, ids: seq<RuleIdentity>): (r: seq<Option<RuleIdentity>>)
    ensures |r| == |rules|
    ensures forall i :: 0 <= i < |rules| ==> r[i] == IdentityOf(rules[i], rules, ids)
  {
    seq(|rules|, i requires 0 <= i < |rules| => IdentityOf(rules[i], rules, ids))
  }

  function Rank(rule: LastGoodRule, id: RuleIdentity): nat {
    if rule.ruleKey == Some(id.ruleKey) then 2 else if rule.ruleId == id.ruleId then 1 else 0
  }

  /** The entry as it is kept: current rule id, current key, and the current domain if it differs. */
  function Retained(rule: LastGoodRule, id: RuleIdentity): LastGoodRule {
    rule.(ruleId := id.ruleId, ruleKey := Some(id.ruleKey),
          domain := if SameDomain(rule.domain, id.domain) then rule.domain else id.domain)
  }

  predicate UpToDate(rule: LastGoodRule, id: RuleIdentity) {
    rule.ruleId == id.ruleId && rule.ruleKey == Some(id.ruleKey) && SameDomain(rule.domain, id.domain)
  }

  /** Keeps an entry unless it is stale or a better-ranked one already holds its key. */
  function KeepOne(kept: map<string, (nat, LastGoodRule)>, rule: LastGoodRule, owner: Option<RuleIdentity>)
    : map<string, (nat, LastGoodRule)>
  {
    match owner
    case None => kept
    case Some(id) =>
      if id.ruleKey in kept && kept[id.ruleKey].0 > Rank(rule, id) then kept
      else kept[id.ruleKey := (Rank(rule, id), Retained(rule, id))]
  }

  /** The table after the first n entries, given the rule each entry belongs to. */
  function Kept(rules: seq<LastGoodRule>, owners: seq<Option<RuleIdentity>>, n: nat): map<string, (nat, LastGoodRule)>
    requires n <= |rules| == |owners|
  {
    if n == 0 then map[]
    else KeepOne(Kept(rules, owners, n - 1), rules[n - 1], owners[n - 1])
  }

  /** Pruning drops the entry or brings one of its fields up to date. */
  predicate Disturbed(rule: LastGoodRule, owner: Option<RuleIdentity>) {
    owner.None? || !UpToDate(rule, owner.value)
  }

  predicate Touched(rules: seq<LastGoodRule>, owners: seq<Option<RuleIdentity>>, n: nat)
    requires n <= |rules| == |owners|
  {
    n > 0 && (Touched(rules, owners, n - 1) || Disturbed(rules[n - 1], owners[n - 1]))
  }

  function KeptRules(rules: seq<LastGoodRule>, owners: seq<Option<RuleIdentity>>): map<string, LastGoodRule>
    requires |rules| == |owners|
  {
    var m := Kept(rules, owners, |rules|);
    map k | k in m :: m[k].1
  }

  function Pruned(rules: seq<LastGoodRule>, ids: seq<RuleIdentity>): seq<LastGoodRule> {
    ValuesInOrder(KeptRules(rules, Owners(rules, ids)))
  }

  function PruneReport(rules: seq<LastGoodRule>, ids: seq<RuleIdentity>): PruneResult {
    var owners := Owners(rules, ids);
    var after := |KeptRules(rules, owners)|;
    PruneResult(|rules|, after, if |rules| > after then |rules| - after else 0,
                Touched(rules, owners, |rules|) || |rules| != after)
  }

  // ---------------------------------------------------------------- folding events, as a function

  function StateMapKey(rule: LastGoodRule): string {
    if rule.ruleKey.Some? then rule.ruleKey.value else "legacy:" + rule.ruleId
  }

  function EventMapKey(ruleId: string, ruleKey: Option<string>): string {
    if ruleKey.Some? then ruleKey.value else "legacy:" + ruleId
  }

  function StateKeys(rules: seq<LastGoodRule>): (r: seq<string>)
    ensures |r| == |rules|
    ensures forall i :: 0 <= i < |rules| ==> r[i] == StateMapKey(rules[i])
  {
    seq(|rules|, i requires 0 <= i < |rules| => StateMapKey(rules[i]))
  }

  function StateMap(rules: seq<LastGoodRule>): map<string, LastGoodRule> {
    LastByKey(StateKeys(rules), rules)
  }

  function FoldEvent(m: map<string, LastGoodRule>, e: ResolutionEvent, now: int): map<string, LastGoodRule> {
    var k := EventMapKey(e.ruleId, e.ruleKey);
    match e
    case LiveResolved(ruleId, ruleKey, comment, domain, ip) =>
      if ruleKey.None? then m
      else m[k := LastGoodRule(ruleId, ruleKey, comment, domain, Address(ip), now, true, AppliedOk)]
    case EgressSkipped(_, _, _, ip, _) =>
      if k in m then m[k := m[k].(egressAllowed := false, status := SkippedByEgress(ip))] else m
    case LastGoodUsed(_, ruleKey, _, domain, ip) =>
      if k in m then
        m[k := m[k].(ruleKey := if ruleKey.Some? then ruleKey else m[k].ruleKey, domain := domain,
                     ip := Address(ip), status := FallbackUsed)]
      else m
    case ResolveFailedNoCache(_, _, _, _) =>
      if k in m then m[k := m[k].(status := SkippedDnsFailed)] else m
  }

  function FoldEvents(m: map<string, LastGoodRule>, events: seq<ResolutionEvent>, now: int): map<string, LastGoodRule> {
    if events == [] then m
    else FoldEvent(FoldEvents(m, events[..|events| - 1], now), events[|events| - 1], now)
  }

  function Updated(rules: seq<LastGoodRule>, events: seq<ResolutionEvent>, now: int): seq<LastGoodRule> {
    ValuesInOrder(FoldEvents(StateMap(rules), events, now))
  }

  // ---------------------------------------------------------------- the state object

  class LastGoodState {
    var rules: seq<LastGoodRule>
    var lastSuccessAt: Option<int>

    constructor (loaded: seq<LastGoodRule>, at: Option<int>)
      ensures rules == loaded && lastSuccessAt == at
    {
      rules := loaded;
      lastSuccessAt := at;
    }

    /** Occurrences per normalised domain, counted entry by entry. */
    static method CountDomains(domains: seq<string>) returns (m: map<string, nat>)
      ensures forall d :: multiset(domains)[d] == if d in m then m[d] else 0
    {
      m := map[];
      for i := 0 to |domains|
        invariant forall d :: multiset(domains[..i])[d] == if d in m then m[d] else 0
      {
        var d := domains[i];
        assert domains[..i + 1] == domains[..i] + [d];
        m := m[d := (if d in m then m[d] else 0) + 1];
      }
      assert domains[..|domains|] == domains;
    }

    static method IndexBy<V(!new)>(keys: seq<string>, values: seq<V>) returns (m: map<string, V>)
      requires |keys| == |values|
      ensures m == LastByKey(keys, values)
    {
      m := map[];
      for i := 0 to |keys|
        invariant m == LastByKey(keys[..i], values[..i])
      {
        assert keys[..i + 1][..i] == keys[..i] && values[..i + 1][..i] == values[..i];
        m := m[keys[i] := values[i]];
      }
      assert keys[..|keys|] == keys && values[..|values|] == values;
    }

    static method FindIdentity(rule: LastGoodRule, rules: seq<LastGoodRule>, ids: seq<RuleIdentity>,
                               byKey: map<string, RuleIdentity>, byDomain: map<string, RuleIdentity>,
                               stateCounts: map<string, nat>, currentCounts: map<string, nat>)
      returns (identity: Option<RuleIdentity>)
      requires byKey == IdentitiesByKey(ids) && byDomain == IdentitiesByDomain(ids)
      requires forall d :: multiset(RuleDomains(rules))[d] == if d in stateCounts then stateCounts[d] else 0
      requires forall d :: multiset(IdentityDomains(ids))[d] == if d in currentCounts then currentCounts[d] else 0
      ensures identity == IdentityOf(rule, rules, ids)
    {
      match rule.ruleKey {
        case Some(key) =>
          identity := if key in byKey then Some(byKey[key]) else None;
        case None =>
          var d := NormalizeDomain(rule.domain);
          if d in stateCounts && stateCounts[d] == 1 && d in currentCounts && currentCounts[d] == 1 {
            identity := if d in byDomain then Some(byDomain[d]) else None;
          } else {
            identity := None;
          }
      }
    }

    /** One pass of the loop body: drop the entry, or bring it up to date field by field and keep it if
        no better-ranked entry holds its key. */
    static method KeepEntry(kept: map<string, (nat, LastGoodRule)>, rule: LastGoodRule, identity: Option<RuleIdentity>)
      returns (kept': map<string, (nat, LastGoodRule)>, changed: bool)
      ensures kept' == KeepOne(kept, rule, identity)
      ensures changed == Disturbed(rule, identity)
    {
      kept', changed := kept, false;
      if identity.None? {
        changed := true;
        return;
      }
      var id := identity.value;
      var retained := rule;
      if retained.ruleId != id.ruleId {
        retained := retained.(ruleId := id.ruleId);
        changed := true;
      }
      if retained.ruleKey != Some(id.ruleKey) {
        retained := retained.(ruleKey := Some(id.ruleKey));
        changed := true;
      }
      if !SameDomain(retained.domain, id.domain) {
        retained := retained.(domain := id.domain);
        changed := true;
      }
      var rank := Rank(rule, id);
      if !(id.ruleKey in kept && kept[id.ruleKey].0 > rank) {
        kept' := kept'[id.ruleKey := (rank, retained)];
      }
    }

    static method KeepCurrent(rules: seq<LastGoodRule>, identities: seq<RuleIdentity>)
      returns (kept: map<string, (nat, LastGoodRule)>, changed: bool)
      ensures kept == Kept(rules, Owners(rules, identities), |rules|)
      ensures changed == Touched(rules, Owners(rules, identities), |rules|)
    {
      var byKey := IndexBy(IdentityKeys(identities), identities);
      var byDomain := IndexBy(IdentityDomains(identities), identities);
      var currentCounts := CountDomains(IdentityDomains(identities));
      var stateCounts := CountDomains(RuleDomains(rules));
      ghost var owners := Owners(rules, identities);
      kept, changed := map[], false;
      for i := 0 to |rules|
        invariant kept == Kept(rules, owners, i)
        invariant changed == Touched(rules, owners, i)
      {
        var identity := FindIdentity(rules[i], rules, identities, byKey, byDomain, stateCounts, currentCounts);
        assert owners[i] == identity;
        var disturbed;
        kept, disturbed := KeepEntry(kept, rules[i], identity);
        changed := changed || disturbed;
      }
    }

    method PruneStaleRules(identities: seq<RuleIdentity>) returns (result: PruneResult)
      modifies this
      ensures rules == Pruned(old(rules), identities)
      ensures result == PruneReport(old(rules), identities)
      ensures lastSuccessAt == old(lastSuccessAt)
    {
      var before := |rules|;
      var kept, changed := KeepCurrent(rules, identities);
      var keptRules := map k | k in kept :: kept[k].1;
      var after := |keptRules|;
      if before != after {
        changed := true;
      }
      rules := ValuesInOrder(keptRules);
      result := PruneResult(before, after, if before > after then before - after else 0, changed);
    }

    static method ApplyEvent(m: map<string, LastGoodRule>, e: ResolutionEvent, now: int)
      returns (byId: map<string, LastGoodRule>)
      ensures byId == FoldEvent(m, e, now)
    {
      byId := m;
      var k := EventMapKey(e.ruleId, e.ruleKey);
      match e {
        case LiveResolved(ruleId, ruleKey, comment, domain, ip) =>
          if ruleKey.Some? {
            byId := byId[k := LastGoodRule(ruleId, ruleKey, comment, domain, Address(ip), now, true, AppliedOk)];
          }
        case EgressSkipped(_, _, _, ip, _) =>
          if k in byId {
            byId := byId[k := byId[k].(egressAllowed := false, status := SkippedByEgress(ip))];
          }
        case LastGoodUsed(_, ruleKey, _, domain, ip) =>
          if k in byId {
            var rule := byId[k];
            if ruleKey.Some? {
              rule := rule.(ruleKey := ruleKey);
            }
            rule := rule.(domain := domain, ip := Address(ip), status := FallbackUsed);
            byId := byId[k := rule];
          }
        case ResolveFailedNoCache(_, _, _, _) =>
          if k in byId {
            byId := byId[k := byId[k].(status := SkippedDnsFailed)];
          }
      }
    }

    method UpdateFromEvents(events: seq<ResolutionEvent>, now: int)
      modifies this
      ensures rules == Updated(old(rules), events, now)
      ensures lastSuccessAt == Some(now)
    {
      var byId := IndexBy(StateKeys(rules), rules);
      for i := 0 to |events|
        invariant byId == FoldEvents(StateMap(old(rules)), events[..i], now)
      {
        assert events[..i + 1][..i] == events[..i];
        byId := ApplyEvent(byId, events[i], now);
      }
      assert events[..|events|] == events;
      rules := ValuesInOrder(byId);
      lastSuccessAt := Some(now);
    }
  }
}
